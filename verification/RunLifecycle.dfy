/**
 * The event loop that serves one run to the browser: it polls the session,
 * action and run, forwards the run's output stream, and writes the terminal
 * event. This is the loop as a function of its inputs; RunLifecycleLoop holds
 * the imperative loop that computes it.
 */
module RunLifecycle {
  import opened Text
  import opened RunOutputEvents
  import opened AguiState
  import opened AguiConsumer

  /** aguiTerminalWait, in milliseconds. */
  const TERMINAL_WAIT := 1500

  datatype Config = Config(sessionID: string, threadID: string, hasOutputs: bool)

  /** The output stream being followed; `observed` once it has delivered a terminal result. */
  datatype Attachment = Attachment(runID: string, lastSequence: nat, observed: bool)

  /** A terminal event held back, and when one first became pending. */
  datatype HeldTerminal = HeldTerminal(event: TerminalEvent, since: int)

  /** Where a failed stream can be taken up again; also a request to start a stream. */
  datatype Cursor = Cursor(runID: string, after: nat)

  /** The state last polled. */
  datatype View = View(
    session: Option<SessionView>, action: Option<ActionState>, run: Option<RunState>, runID: string)

  /** Which output is followed, what it has counted, and the terminal event held back. */
  datatype Follow = Follow(
    attachment: Option<Attachment>, resume: Option<Cursor>, usage: UsageState,
    pending: Option<HeldTerminal>, started: seq<Cursor>)

  /** What the browser has been sent; writes fail once `capacity` frames are out. */
  datatype Shown = Shown(
    frames: seq<Frame>, capacity: Option<nat>,
    lastProjection: Option<Projection>, lastActivity: Option<Activity>)

  datatype Loop = Loop(view: View, follow: Follow, shown: Shown)

  /** What a service call can answer. */
  datatype Reply<+T> = Answer(value: T) | Failure

  /** runs.Get: not found is not an error. */
  datatype RunReply = RunFound(run: Option<RunState>) | RunNotFound | RunFailure

  datatype Input =
    | Output(runID: string, event: RunOutputEvent)
    | OutputFailed(runID: string)
    | Cancel
    | Heartbeat
    | Poll(now: int, session: Reply<Option<SessionView>>, action: Reply<Option<ActionState>>, run: RunReply)

  datatype Exit = Live | Finished | Aborted | Interrupted

  datatype Result = Result(loop: Loop, exit: Exit)

  // ---------------------------------------------------------------- writing

  predicate CanWrite(shown: Shown) { shown.capacity.None? || |shown.frames| < shown.capacity.value }

  datatype Wrote = Wrote(shown: Shown, ok: bool)

  /** A write fails when the browser has gone. */
  function Write(shown: Shown, frame: Frame): Wrote {
    if CanWrite(shown) then Wrote(shown.(frames := shown.frames + [frame]), true) else Wrote(shown, false)
  }

  /** maybeEmitProjection. */
  function EmitProjection(shown: Shown, projection: Projection): Wrote {
    if shown.lastProjection == Some(projection) then Wrote(shown, true)
    else Write(shown.(lastProjection := Some(projection)), StateSnapshot(projection))
  }

  /** maybeEmitActivity. */
  function EmitActivity(shown: Shown, activity: Option<Activity>): Wrote {
    if activity.None? || shown.lastActivity == activity then Wrote(shown, true)
    else Write(shown.(lastActivity := activity), ActivitySnapshot(activity.value))
  }

  function EmitSnapshots(shown: Shown, projection: Projection, activity: Option<Activity>): Wrote {
    var projected := EmitProjection(shown, projection);
    if projected.ok then EmitActivity(projected.shown, activity) else projected
  }

  function ProjectionOf(config: Config, view: View, usage: UsageState): Projection {
    BuildProjection(config.sessionID, view.session, usage.projection)
  }

  function ActivityOf(config: Config, view: View): Option<Activity> {
    BuildActivity(config.sessionID, view.action, view.run, view.runID)
  }

  function TerminalOf(config: Config, view: View): Option<TerminalEvent> {
    TerminalRunEvent(config.threadID, view.runID, view.action, view.run)
  }

  // ---------------------------------------------------------------- attaching

  function Detached(follow: Follow): Follow { Follow(None, None, NEW_USAGE, None, follow.started) }

  predicate Follows(follow: Follow, runID: string) { follow.attachment.Some? && follow.attachment.value.runID == runID }

  /** switchOutputRun: follow the current run's output, from the resume cursor if it is the run that failed. */
  function SwitchOutput(hasOutputs: bool, follow: Follow, rawRunID: string, run: Option<RunState>): Follow {
    var runID := TrimSpace(rawRunID);
    if Follows(follow, runID) then follow
    else if !hasOutputs || run.None? || runID == "" then Detached(follow)
    else
      var after := if follow.resume.Some? && follow.resume.value.runID == runID then follow.resume.value.after else 0;
      Follow(Some(Attachment(runID, 0, false)), None, NEW_USAGE, None, follow.started + [Cursor(runID, after)])
  }

  predicate MustSwitch(previousRunID: string, follow: Follow, view: View) {
    previousRunID != view.runID || (follow.attachment.None? && view.run.Some? && view.runID != "")
  }

  /** After a poll the output stream follows the run the new view names. */
  function Refollowed(hasOutputs: bool, previousRunID: string, follow: Follow, view: View): Follow {
    if MustSwitch(previousRunID, follow, view) then SwitchOutput(hasOutputs, follow, view.runID, view.run) else follow
  }

  // ---------------------------------------------------------------- the terminal event

  datatype Settled = Settled(follow: Follow, shown: Shown, exit: Exit)

  function WriteTerminal(follow: Follow, shown: Shown, event: TerminalEvent): Settled {
    var wrote := Write(shown, TerminalFrame(event));
    Settled(follow, wrote.shown, if wrote.ok then Finished else Aborted)
  }

  datatype Kept = Kept(follow: Follow, held: bool)

  /** Whether a terminal event has to wait: for the stream's result, and then for the rest of the wait. */
  function Keep(follow: Follow, terminal: Option<TerminalEvent>, now: int): (kept: Kept)
    ensures !kept.held ==> terminal.Some? && kept.follow.pending.None?
  {
    if terminal.None? then Kept(follow.(pending := None), true)
    else if follow.attachment.None? then Kept(follow.(pending := None), false)
    else
      var since := if follow.pending.Some? then follow.pending.value.since else now;
      if !follow.attachment.value.observed || now - since < TERMINAL_WAIT
      then Kept(follow.(pending := Some(HeldTerminal(terminal.value, since))), true)
      else Kept(follow.(pending := None), false)
  }

  /** A terminal event is written unless it has to wait. */
  function Settle(follow: Follow, shown: Shown, terminal: Option<TerminalEvent>, now: int): Settled {
    var kept := Keep(follow, terminal, now);
    if kept.held then Settled(kept.follow, shown, Live) else WriteTerminal(kept.follow, shown, terminal.value)
  }

  /** At the start a terminal event waits for an attached stream, else it is written at once. */
  function Opening(follow: Follow, shown: Shown, terminal: Option<TerminalEvent>, now: int): Settled {
    match terminal
    case None => Settled(follow, shown, Live)
    case Some(event) =>
      if follow.attachment.Some? && !follow.attachment.value.observed
      then Settled(follow.(pending := Some(HeldTerminal(event, now))), shown, Live)
      else WriteTerminal(follow, shown, event)
  }

  // ---------------------------------------------------------------- one input

  function Failed(loop: Loop): Result { Result(loop, Aborted) }

  /** A failed stream is left; it can be taken up again behind the last event it delivered. */
  function LostStream(follow: Follow): Follow
    requires follow.attachment.Some?
  {
    follow.(attachment := None,
            resume := Some(Cursor(follow.attachment.value.runID, follow.attachment.value.lastSequence)))
  }

  /** The stream ended in an error: remember where, and let a pending terminal event out. */
  function OnOutputFailed(loop: Loop): Result
    requires loop.follow.attachment.Some?
  {
    var follow := LostStream(loop.follow);
    if follow.pending.None? then Result(loop.(follow := follow), Live)
    else
      var settled := WriteTerminal(follow, loop.shown, follow.pending.value.event);
      Result(Loop(loop.view, settled.follow, settled.shown), settled.exit)
  }

  function Forward(shown: Shown, forwarded: Option<AguiEvent>): Wrote {
    if forwarded.Some? then Write(shown, OutputFrame(forwarded.value.payload)) else Wrote(shown, true)
  }

  function Moved(follow: Follow, lastSequence: nat): Follow
    requires follow.attachment.Some?
  {
    follow.(attachment := Some(follow.attachment.value.(lastSequence := lastSequence)))
  }

  /** The usage report and the terminal result an event may carry. */
  function Counted(follow: Follow, event: RunOutputEvent): Follow
    requires follow.attachment.Some?
  {
    follow.(usage := ApplyUsage(follow.usage, event),
            attachment := Some(follow.attachment.value.(observed := follow.attachment.value.observed
                                                        || IsTerminal(event))))
  }

  function OnOutput(config: Config, loop: Loop, event: RunOutputEvent): Result
    requires loop.follow.attachment.Some?
  {
    var applied := ApplyOutput(loop.follow.attachment.value.lastSequence, event);
    var moved := Moved(loop.follow, applied.lastSequence);
    var wrote := Forward(loop.shown, applied.forwarded);
    if applied.failed || !wrote.ok then Failed(Loop(loop.view, moved, wrote.shown)) else
    var follow := Counted(moved, event);
    var projected := if follow.usage == moved.usage then wrote
                     else EmitProjection(wrote.shown, ProjectionOf(config, loop.view, follow.usage));
    Result(Loop(loop.view, follow, projected.shown), if projected.ok then Live else Aborted)
  }

  /** The snapshots a poll writes, and then the terminal event if it may be written. */
  function Report(loop: Loop, projection: Projection, activity: Option<Activity>, terminal: Option<TerminalEvent>,
                  now: int): Result {
    var wrote := EmitSnapshots(loop.shown, projection, activity);
    if !wrote.ok then Failed(loop.(shown := wrote.shown)) else
    var settled := Settle(loop.follow, wrote.shown, terminal, now);
    Result(Loop(loop.view, settled.follow, settled.shown), settled.exit)
  }

  /** A poll whose answers all arrived. */
  function OnPolled(config: Config, loop: Loop, view: View, now: int): Result {
    var follow := Refollowed(config.hasOutputs, loop.view.runID, loop.follow, view);
    Report(Loop(view, follow, loop.shown), ProjectionOf(config, view, follow.usage), ActivityOf(config, view),
           TerminalOf(config, view), now)
  }

  predicate PollFails(loop: Loop, input: Input)
    requires input.Poll?
  {
    || input.session.Failure? || input.action.Failure?
    || (FollowedRunID(input.action.value, loop.view.runID) != "" && input.run.RunFailure?)
  }

  function PolledView(loop: Loop, input: Input): View
    requires input.Poll? && !PollFails(loop, input)
  {
    var runID := FollowedRunID(input.action.value, loop.view.runID);
    View(input.session.value, input.action.value, if runID != "" && input.run.RunFound? then input.run.run
         else None, runID)
  }

  function Step(config: Config, loop: Loop, input: Input): Result {
    match input
    case Output(runID, event) =>
      if Follows(loop.follow, TrimSpace(runID)) then OnOutput(config, loop, event) else Result(loop, Live)
    case OutputFailed(runID) =>
      if Follows(loop.follow, TrimSpace(runID)) then OnOutputFailed(loop) else Result(loop, Live)
    case Cancel => Result(loop, Interrupted)
    case Heartbeat =>
      var wrote := Write(loop.shown, KeepAlive);
      Result(loop.(shown := wrote.shown), if wrote.ok then Live else Aborted)
    case Poll(now, _, _, _) =>
      if PollFails(loop, input) then Failed(loop) else OnPolled(config, loop, PolledView(loop, input), now)
  }

  // ---------------------------------------------------------------- the whole loop

  const NOT_FOLLOWING := Follow(None, None, NEW_USAGE, None, [])

  /** Before the first input: snapshots, attach, and a terminal event if the run is already over. */
  function Start(config: Config, view: View, capacity: Option<nat>, now: int): Result {
    var shown := Shown([], capacity, None, None);
    var wrote := EmitSnapshots(shown, ProjectionOf(config, view, NEW_USAGE), ActivityOf(config, view));
    if !wrote.ok then Failed(Loop(view, NOT_FOLLOWING, wrote.shown)) else
    var follow := SwitchOutput(config.hasOutputs, NOT_FOLLOWING, view.runID, view.run);
    var settled := Opening(follow, wrote.shown, TerminalOf(config, view), now);
    Result(Loop(view, settled.follow, settled.shown), settled.exit)
  }

  /** Inputs after the exit are never looked at. */
  function RunFrom(config: Config, first: Result, inputs: seq<Input>): Result {
    if inputs == [] then first else
    var before := RunFrom(config, first, inputs[..|inputs| - 1]);
    if before.exit.Live? then Step(config, before.loop, inputs[|inputs| - 1]) else before
  }

  /** The whole loop, from the first snapshots on. */
  function Run(config: Config, view: View, capacity: Option<nat>, now: int, inputs: seq<Input>): Result {
    RunFrom(config, Start(config, view, capacity, now), inputs)
  }
}
