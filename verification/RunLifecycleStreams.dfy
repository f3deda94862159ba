/** Which output streams the run lifecycle loop follows, and what it shows of the state it polls. */
module RunLifecycleStreams {
  import opened Text
  import opened RunOutputEvents
  import opened AguiState
  import opened AguiConsumer
  import opened RunLifecycle
  import opened RunLifecycleProofs
  import opened RunLifecycleGate
  import opened RunLifecycleWaiting

  // ---------------------------------------------------------------- the stream of the named run

  /** Only the run the view names is followed, and only when outputs are served. */
  predicate FollowsNamed(config: Config, loop: Loop) {
    loop.follow.attachment.Some? ==>
      config.hasOutputs && loop.follow.attachment.value.runID == TrimSpace(loop.view.runID)
  }

  /** The run a poll names: its action's run, or else the run followed so far. */
  function NamedBy(action: Option<ActionState>, previous: string): (runID: string)
    ensures TrimSpace(runID) == runID
  {
    var named := if action.Some? && action.value.status.Some? then TrimSpace(action.value.status.value.runID) else "";
    TrimSpaceTrims(previous);
    if named != "" then
      TrimSpaceTrims(action.value.status.value.runID);
      named
    else TrimSpace(previous)
  }

  /** Of the services a poll reads, the run is only asked for when there is a run to name. */
  predicate AllAnswer(input: Input, previous: string) {
    && input.Poll? && input.session.Answer? && input.action.Answer?
    && (NamedBy(input.action.value, previous) != "" ==> !input.run.RunFailure?)
  }

  /** What a poll leaves of the loop's view and of what it follows. */
  predicate FollowsPoll(config: Config, before: Loop, input: Input, after: Loop)
    requires AllAnswer(input, before.view.runID)
  {
    var runID := NamedBy(input.action.value, before.view.runID);
    var run := if runID != "" && input.run.RunFound? then input.run.run else None;
    var stays := before.follow.attachment.Some? && before.follow.attachment.value.runID == runID;
    var resume := before.follow.resume;
    && after.view == View(input.session.value, input.action.value, run, runID)
    && (stays ==> after.follow.attachment == before.follow.attachment && after.follow.started == before.follow.started)
    && (!stays && config.hasOutputs && run.Some? && runID != "" ==>
          && after.follow.attachment == Some(Attachment(runID, 0, false)) && after.follow.usage == NEW_USAGE
          && after.follow.started
             == before.follow.started
                + [Cursor(runID, if resume.Some? && resume.value.runID == runID then resume.value.after else 0)])
    && (!stays && !(config.hasOutputs && run.Some? && runID != "") ==>
          after.follow.attachment.None? && after.follow.started == before.follow.started)
  }

  lemma PollFollows(config: Config, loop: Loop, input: Input)
    requires AllAnswer(input, loop.view.runID) && FollowsNamed(config, loop)
    ensures var r := Step(config, loop, input);
            r.exit.Live? ==> FollowsPoll(config, loop, input, r.loop)
  {
    var view := PolledView(loop, input);
    var follow := Refollowed(config.hasOutputs, loop.view.runID, loop.follow, view);
    assert Refollows(config, loop, view, follow);
    var wrote := EmitSnapshots(loop.shown, ProjectionOf(config, view, follow.usage), ActivityOf(config, view));
    SettleGate(follow, wrote.shown, TerminalOf(config, view), input.now);
  }

  /** Refollowing, by the fields of the view. */
  predicate Refollows(config: Config, loop: Loop, view: View, follow: Follow) {
    var stays := loop.follow.attachment.Some? && loop.follow.attachment.value.runID == view.runID;
    var resume := loop.follow.resume;
    && (stays ==> follow == loop.follow)
    && (!stays && config.hasOutputs && view.run.Some? && view.runID != "" ==>
          && follow.attachment == Some(Attachment(view.runID, 0, false)) && follow.usage == NEW_USAGE
          && follow.started
             == loop.follow.started
                + [Cursor(view.runID,
                          if resume.Some? && resume.value.runID == view.runID then resume.value.after else 0)])
    && (!stays && !(config.hasOutputs && view.run.Some? && view.runID != "") ==>
          follow.attachment.None? && follow.started == loop.follow.started)
  }

  lemma StepFollowsNamed(config: Config, loop: Loop, input: Input)
    requires FollowsNamed(config, loop)
    ensures var r := Step(config, loop, input); r.exit.Live? ==> FollowsNamed(config, r.loop)
  {
    if input.Poll? && !PollFails(loop, input) {
      PollFollows(config, loop, input);
    }
  }

  lemma {:induction false} RunFollowsNamed(config: Config, view: View, capacity: Option<nat>, now: int,
                                           inputs: seq<Input>)
    ensures var r := Run(config, view, capacity, now, inputs); r.exit.Live? ==> FollowsNamed(config, r.loop)
  {
    if inputs != [] {
      var n := |inputs| - 1;
      RunFollowsNamed(config, view, capacity, now, inputs[..n]);
      var before := Run(config, view, capacity, now, inputs[..n]);
      if before.exit.Live? {
        StepFollowsNamed(config, before.loop, inputs[n]);
      }
    }
  }

  /**
   * In every run: whatever was followed before, after a poll that leaves the
   * loop live the output stream followed is that of the run the poll names. It
   * is newly started if another one or none was followed, there is none
   * without a run that was found, and a poll that could not read what it needs
   * never leaves the loop live.
   */
  lemma PolledRunIsFollowed(config: Config, view: View, capacity: Option<nat>, now: int, before: seq<Input>,
                            poll: Input, head: Result, after: Result)
    requires head == Run(config, view, capacity, now, before) && head.exit.Live? && poll.Poll?
    requires after == Run(config, view, capacity, now, before + [poll])
    ensures after.exit.Live? ==>
              AllAnswer(poll, head.loop.view.runID) && FollowsPoll(config, head.loop, poll, after.loop)
    ensures !AllAnswer(poll, head.loop.view.runID) ==>
              after.exit.Aborted? && after.loop.shown.frames == head.loop.shown.frames
  {
    RunFromConcat(config, Start(config, view, capacity, now), before, [poll]);
    OneInput(config, head, poll);
    RunFollowsNamed(config, view, capacity, now, before);
    if AllAnswer(poll, head.loop.view.runID) {
      PollFollows(config, head.loop, poll);
    } else {
      UnreadablePoll(config, head.loop, poll);
    }
  }

  lemma UnreadablePoll(config: Config, loop: Loop, poll: Input)
    requires poll.Poll? && !AllAnswer(poll, loop.view.runID)
    ensures Step(config, loop, poll) == Result(loop, Aborted)
  {
  }

  // ---------------------------------------------------------------- taking a failed stream up again

  /** What comes in between polls: output and failures of any stream, and heartbeats. */
  predicate BetweenPolls(input: Input) { input.Output? || input.OutputFailed? || input.Heartbeat? }

  lemma {:induction false} NothingAttachedStays(config: Config, first: Result, inputs: seq<Input>)
    requires first.exit.Live? && first.loop.follow.attachment.None? && first.loop.shown.capacity.None?
    requires forall input <- inputs :: BetweenPolls(input)
    ensures var r := RunFrom(config, first, inputs);
            && r.exit.Live? && r.loop.follow == first.loop.follow && r.loop.view == first.loop.view
            && r.loop.shown.capacity.None?
  {
    if inputs != [] {
      var n := |inputs| - 1;
      assert inputs[n] in inputs && forall input <- inputs[..n] :: input in inputs;
      NothingAttachedStays(config, first, inputs[..n]);
    }
  }

  /**
   * A failed stream is taken up again behind the last document it delivered:
   * whatever comes in until the next poll, if that names the same run its
   * stream is started again after that document's number, and the stream of
   * another run from its beginning.
   */
  lemma FailedStreamResumes(config: Config, view: View, now: int, before: seq<Input>, failure: Input,
                            between: seq<Input>, poll: Input, head: Result, after: Result)
    requires head == Run(config, view, None, now, before) && head.exit.Live?
    requires head.loop.follow.attachment.Some? && head.loop.follow.pending.None?
    requires failure.OutputFailed? && TrimSpace(failure.runID) == head.loop.follow.attachment.value.runID
    requires forall input <- between :: BetweenPolls(input)
    requires AllAnswer(poll, head.loop.view.runID) && poll.run.RunFound? && poll.run.run.Some?
    requires NamedBy(poll.action.value, head.loop.view.runID) != ""
    requires after == Run(config, view, None, now, before + ([failure] + between + [poll]))
    ensures var runID := NamedBy(poll.action.value, head.loop.view.runID);
            var lost := head.loop.follow.attachment.value;
            after.exit.Live? ==>
              && after.loop.follow.attachment == Some(Attachment(runID, 0, false))
              && after.loop.follow.started
                 == head.loop.follow.started + [Cursor(runID, if runID == lost.runID then lost.lastSequence else 0)]
  {
    var first := Start(config, view, None, now);
    RunKeepsCapacity(config, first, before);
    RunFollowsNamed(config, view, None, now, before);
    var lost := RunFrom(config, head, [failure]);
    OneInput(config, head, failure);
    NothingAttachedStays(config, lost, between);
    var waiting := RunFrom(config, lost, between);
    OneInput(config, waiting, poll);
    RunFromConcat(config, head, [failure], between);
    RunFromConcat(config, head, [failure] + between, [poll]);
    RunFromConcat(config, first, before, [failure] + between + [poll]);
    PollFollows(config, waiting.loop, poll);
  }

  lemma OneInput(config: Config, first: Result, input: Input)
    requires first.exit.Live?
    ensures RunFrom(config, first, [input]) == Step(config, first.loop, input)
  {
    var none: seq<Input> := [];
    assert [input][..0] == none;
    assert RunFrom(config, first, none) == first;
  }

  // ---------------------------------------------------------------- the start

  /** The terminal event follows the first snapshots if the turn is over and there is no stream to wait for. */
  lemma StartFinishesIff(config: Config, view: View, now: int)
    ensures var r, phase := Run(config, view, None, now, []), DecidingPhase(view.action, view.run);
            var over := phase.Succeeded? || phase.Failed? || phase.Canceled?;
            var attached := config.hasOutputs && view.run.Some? && TrimSpace(view.runID) != "";
            && r.exit == (if over && !attached then Finished else Live)
            && (attached ==>
                  && r.loop.follow.attachment == Some(Attachment(TrimSpace(view.runID), 0, false))
                  && r.loop.follow.started == [Cursor(TrimSpace(view.runID), 0)])
            && (!attached ==> r.loop.follow.attachment.None? && r.loop.follow.started == [])
            && (r.loop.follow.pending.Some? <==> over && attached)
            && (over && attached ==> r.loop.follow.pending.value.since == now)
  {
    TerminalEventIff(config.threadID, view.runID, view.action, view.run);
    EmitsToOpenBrowser(Shown([], None, None, None), ProjectionOf(config, view, NEW_USAGE), ActivityOf(config, view));
  }

  /** A cancelled loop ends at once, and writes nothing more. */
  lemma CancelInterrupts(config: Config, view: View, capacity: Option<nat>, now: int, before: seq<Input>,
                         later: seq<Input>, head: Result)
    requires head == Run(config, view, capacity, now, before) && head.exit.Live?
    ensures Run(config, view, capacity, now, before + [Cancel] + later) == Result(head.loop, Interrupted)
  {
    var first := Start(config, view, capacity, now);
    RunFromConcat(config, first, before, [Cancel]);
    OneInput(config, head, Cancel);
    RunFromConcat(config, first, before + [Cancel], later);
    EndedRunStays(config, Result(head.loop, Interrupted), later);
  }

  lemma {:induction false} EndedRunStays(config: Config, first: Result, inputs: seq<Input>)
    requires !first.exit.Live?
    ensures RunFrom(config, first, inputs) == first
  {
    if inputs != [] {
      EndedRunStays(config, first, inputs[..|inputs| - 1]);
    }
  }

  // ---------------------------------------------------------------- what is shown

  function PhaseName(phase: Phase): string {
    match phase
    case Pending => "pending"
    case Running => "running"
    case Succeeded => "succeeded"
    case Failed => "failed"
    case Canceled => "canceled"
    case _ => ""
  }

  /** The state snapshot, member by member. */
  predicate ShowsSession(shown: Projection, sessionID: string, session: Option<SessionView>) {
    match session
    case None => shown.id == sessionID && shown.phase == "" && shown.activeRunID == ""
    case Some(state) =>
      && shown.id == (if TrimSpace(state.sessionID) == "" then sessionID else TrimSpace(state.sessionID))
      && shown.providerID == TrimSpace(state.providerID) && shown.profileID == TrimSpace(state.profileID)
      && shown.message == TrimSpace(state.message) && shown.activeRunID == TrimSpace(state.activeRunID)
      && shown.ruleRevision == TrimSpace(state.ruleRevision) && shown.skillRevision == TrimSpace(state.skillRevision)
      && shown.mcpRevision == TrimSpace(state.mcpRevision)
      && (shown.phase == "pending" <==> state.phase.SessionPending?)
      && (shown.phase == "ready" <==> state.phase.SessionReady?)
      && (shown.phase == "running" <==> state.phase.SessionRunning?)
      && (shown.phase == "failed" <==> state.phase.SessionFailed?)
  }

  predicate HasTurnID(action: Option<ActionState>) {
    action.Some? && (TrimSpace(action.value.turnID) != "" || TrimSpace(action.value.actionID) != "")
  }

  /** The turn activity snapshot, member by member; there is one when the turn or its action has an id. */
  predicate ShowsTurn(shown: Option<Activity>, sessionID: string, action: Option<ActionState>, run: Option<RunState>,
                      runID: string) {
    && (shown.Some? <==> HasTurnID(action))
    && (shown.Some? ==>
          && shown.value.id
             == (if TrimSpace(action.value.turnID) != "" then TrimSpace(action.value.turnID)
                 else TrimSpace(action.value.actionID))
          && shown.value.sessionID == TrimSpace(sessionID) && shown.value.runID == TrimSpace(runID)
          && shown.value.steps == if run.Some? then run.value.steps else [])
    && (shown.Some? && action.value.status.Some? ==>
          var status := action.value.status.value;
          && shown.value.phase == PhaseName(status.phase) && shown.value.displayPhase == status.displayPhase
          && shown.value.canStop == status.canStop && shown.value.canRetry == status.canRetry
          && shown.value.retryCount == status.retryCount && shown.value.attemptCount == status.attemptCount
          && shown.value.candidateIndex == status.candidateIndex && shown.value.failureClass == status.failureClass
          && (TrimSpace(status.message) != "" ==> shown.value.message == TrimSpace(status.message)))
  }

  /** At every loop head the browser has last been shown the polled session and turn, member by member. */
  lemma PolledStateIsShown(config: Config, view: View, capacity: Option<nat>, now: int, inputs: seq<Input>,
                           head: Result)
    requires head == Run(config, view, capacity, now, inputs) && head.exit.Live?
    ensures var seen, frames := head.loop.view, head.loop.shown.frames;
            && Last(Snapshots(frames)).Some?
            && ShowsSession(Last(Snapshots(frames)).value, config.sessionID, seen.session)
            && (HasTurnID(seen.action) ==>
                  ShowsTurn(Last(Activities(frames)), config.sessionID, seen.action, seen.run, seen.runID))
  {
    SnapshotsAgreeAtEveryHead(config, view, capacity, now, inputs);
    var seen := head.loop.view;
    ProjectionShowsSession(config.sessionID, seen.session, head.loop.follow.usage.projection);
    ActivityShowsTurn(config.sessionID, seen.action, seen.run, seen.runID);
  }

  lemma ProjectionShowsSession(sessionID: string, session: Option<SessionView>, usage: Option<UsageProjection>)
    ensures ShowsSession(BuildProjection(sessionID, session, usage), sessionID, session)
  {
  }

  lemma ActivityShowsTurn(sessionID: string, action: Option<ActionState>, run: Option<RunState>, runID: string)
    ensures ShowsTurn(BuildActivity(sessionID, action, run, runID), sessionID, action, run, runID)
  {
    if action.Some? {
      FirstOfTwo(action.value.turnID, action.value.actionID);
    }
  }

  /** The failure code a run carries, if it is not blank. */
  function CodeOf(run: Option<RunState>): Option<string> {
    if run.Some? && run.value.status.Some? && run.value.status.value.failure.Some?
       && TrimSpace(run.value.status.value.failure.value.code) != ""
    then Some(TrimSpace(run.value.status.value.failure.value.code)) else None
  }

  /** A terminal event the action decides carries the action's members, and of the run what the action leaves out. */
  lemma ActionEventSays(threadID: string, runID: string, action: Option<ActionState>, run: Option<RunState>)
    requires action.Some? && action.value.status.Some?
    requires var phase := action.value.status.value.phase; phase.Succeeded? || phase.Failed? || phase.Canceled?
    ensures var status, event := action.value.status.value, TerminalRunEvent(threadID, runID, action, run);
            && event.Some?
            && (status.phase.Failed? ==>
                  && event.value.RunErrorEvent?
                  && (TrimSpace(status.message) != "" ==> event.value.message == TrimSpace(status.message))
                  && event.value.code
                     == (if status.failureClass == "" then CodeOf(run)
                         else if TrimSpace(status.failureClass) != "" then Some(TrimSpace(status.failureClass))
                         else None))
            && (!status.phase.Failed? ==>
                  && event.value.RunFinishedEvent? && event.value.threadID == threadID
                  && (TrimSpace(status.runID) != "" ==> event.value.runID == TrimSpace(status.runID))
                  && event.value.outcome.ActionOutcome? && event.value.outcome.phase == status.phase
                  && event.value.outcome.displayPhase == status.displayPhase
                  && (TrimSpace(status.message) != "" ==> event.value.outcome.message == TrimSpace(status.message))
                  && event.value.outcome.retryCount == status.retryCount
                  && event.value.outcome.attemptCount == status.attemptCount
                  && event.value.outcome.candidateIndex == status.candidateIndex)
  {
    if run.Some? && run.value.status.Some? && run.value.status.value.failure.Some? {
      TrimSpaceTrims(run.value.status.value.failure.value.code);
    }
  }

  /** While the action has no phase, a terminal event carries the run's members. */
  lemma RunEventSays(threadID: string, runID: string, action: Option<ActionState>, run: Option<RunState>)
    requires action.Some? && action.value.status.Some? ==> action.value.status.value.phase.Unspecified?
    requires run.Some? && run.value.status.Some?
    requires var phase := run.value.status.value.phase; phase.Succeeded? || phase.Failed? || phase.Canceled?
    ensures var status, event := run.value.status.value, TerminalRunEvent(threadID, runID, action, run);
            && event.Some?
            && (status.phase.Failed? ==>
                  && event.value.RunErrorEvent? && event.value.code == CodeOf(run)
                  && (TrimSpace(status.message) != "" ==> event.value.message == TrimSpace(status.message)))
            && (!status.phase.Failed? ==>
                  && event.value.RunFinishedEvent? && event.value.threadID == threadID
                  && (action.None? && TrimSpace(run.value.specRunID) != "" ==>
                        event.value.runID == TrimSpace(run.value.specRunID))
                  && event.value.outcome.RunOutcome? && event.value.outcome.phase == status.phase
                  && (TrimSpace(status.message) != "" ==> event.value.outcome.message == TrimSpace(status.message)))
  {
    if run.value.status.value.failure.Some? {
      TrimSpaceTrims(run.value.status.value.failure.value.code);
    }
  }

  /** What a run says of itself: its message, or else that of its failure, or else a text for its phase. */
  function RunText(status: RunStatus): string {
    if TrimSpace(status.message) != "" then TrimSpace(status.message)
    else if status.failure.Some? && TrimSpace(status.failure.value.message) != ""
    then TrimSpace(status.failure.value.message)
    else PhaseText(status.phase)
  }

  function PhaseText(phase: Phase): string {
    match phase
    case Succeeded => "Run completed successfully."
    case Failed => "Run failed."
    case Canceled => "Run canceled."
    case Running => "Run is running."
    case Scheduled => "Run is scheduled."
    case Pending => "Run is pending."
    case Unspecified => ""
  }

  function TurnText(phase: Phase): string {
    match phase
    case Succeeded => "Turn completed successfully."
    case Failed => "Turn failed."
    case Canceled => "Turn canceled."
    case _ => ""
  }

  function MessageIn(event: TerminalEvent): string {
    if event.RunErrorEvent? then event.message else event.outcome.message
  }

  /**
   * The message of a terminal event is the action's, or else what the run says
   * of itself, or else a text for the phase; without an action it is the run's.
   */
  lemma TerminalMessageIs(threadID: string, runID: string, action: Option<ActionState>, run: Option<RunState>)
    requires TerminalRunEvent(threadID, runID, action, run).Some?
    ensures var message := MessageIn(TerminalRunEvent(threadID, runID, action, run).value);
            var decides := action.Some? && action.value.status.Some? && !action.value.status.value.phase.Unspecified?;
            && (decides && TrimSpace(action.value.status.value.message) != "" ==>
                  message == TrimSpace(action.value.status.value.message))
            && (decides && TrimSpace(action.value.status.value.message) == "" ==>
                  message == if run.Some? && run.value.status.Some? && RunText(run.value.status.value) != ""
                             then RunText(run.value.status.value) else TurnText(action.value.status.value.phase))
            && (!decides ==> run.Some? && run.value.status.Some? && message == RunText(run.value.status.value))
  {
    if run.Some? && run.value.status.Some? {
      RunTextTrims(run.value.status.value);
    }
  }

  lemma PhaseTextTrims(phase: Phase)
    ensures Trimmed(PhaseText(phase)) && PhaseText(phase) == DefaultRunMessage(phase)
  {
  }

  lemma RunTextTrims(status: RunStatus)
    ensures TrimSpace(RunText(status)) == RunText(status) && RunMessage(status) == RunText(status)
  {
    TrimSpaceTrims(status.message);
    if status.failure.Some? {
      TrimSpaceTrims(status.failure.value.message);
    }
    PhaseTextTrims(status.phase);
    TrimSpaceTrims(PhaseText(status.phase));
  }
}
