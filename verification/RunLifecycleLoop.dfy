/**
 * The run lifecycle loop as it is programmed: an event loop over variables it
 * updates in place. Every method is shown to compute the corresponding function
 * of RunLifecycle on the abstract state, so the whole-run guarantees apply to it.
 */
module RunLifecycleLoop {
  import opened Text
  import opened RunOutputEvents
  import opened AguiState
  import opened AguiConsumer
  import opened RunLifecycle

  /** The loop's variables about the output stream it follows. */
  class OutputFollower {
    var currentOutputRunID: string
    var resumeOutputRunID: string
    var outputAfterSequence: nat
    var cancelOutput: bool
    var outputState: Option<nat>
    var outputUsage: UsageState
    var outputTerminalObserved: bool
    var pendingTerminal: Option<TerminalEvent>
    var pendingTerminalAt: Option<int>
    var started: seq<Cursor>

    ghost predicate Valid() reads this {
      && (cancelOutput <==> currentOutputRunID != "")
      && (outputState.Some? <==> currentOutputRunID != "")
      && (outputTerminalObserved ==> currentOutputRunID != "")
      && (pendingTerminal.Some? <==> pendingTerminalAt.Some?)
    }

    ghost function Value(): Follow
      requires Valid()
      reads this
    {
      Follow(if currentOutputRunID == "" then None
             else Some(Attachment(currentOutputRunID, outputState.value, outputTerminalObserved)),
             if resumeOutputRunID == "" then None else Some(Cursor(resumeOutputRunID, outputAfterSequence)),
             outputUsage,
             if pendingTerminal.None? then None else Some(HeldTerminal(pendingTerminal.value, pendingTerminalAt.value)),
             started)
    }

    constructor ()
      ensures Valid() && Value() == NOT_FOLLOWING
    {
      currentOutputRunID, resumeOutputRunID, outputAfterSequence, cancelOutput := "", "", 0, false;
      outputState, outputUsage, outputTerminalObserved := None, NEW_USAGE, false;
      pendingTerminal, pendingTerminalAt, started := None, None, [];
    }

    /** Forgets the stream followed so far, but for the resume position of the run to follow next. */
    method Detach(nextRunID: string)
      requires Valid()
      modifies this
      ensures Valid() && Value() == Detached(old(Value()))
      ensures outputAfterSequence == if old(resumeOutputRunID) == nextRunID then old(outputAfterSequence) else 0
    {
      if cancelOutput {
        cancelOutput := false;
      }
      if nextRunID != resumeOutputRunID {
        outputAfterSequence := 0;
      }
      resumeOutputRunID := "";
      currentOutputRunID := "";
      outputState := None;
      outputUsage := NEW_USAGE;
      outputTerminalObserved := false;
      pendingTerminal, pendingTerminalAt := None, None;
    }

    method SwitchOutputRun(hasOutputs: bool, rawRunID: string, runState: Option<RunState>)
      requires Valid()
      modifies this
      ensures Valid() && Value() == SwitchOutput(hasOutputs, old(Value()), rawRunID, runState)
    {
      var nextRunID := TrimSpace(rawRunID);
      if currentOutputRunID == nextRunID && cancelOutput {
        return;
      }
      Detach(nextRunID);
      if !hasOutputs || runState.None? || nextRunID == "" {
        return;
      }
      outputState := Some(0);
      started := started + [Cursor(nextRunID, outputAfterSequence)];
      cancelOutput := true;
      currentOutputRunID := nextRunID;
    }

    /** The stream failed: returns the terminal event that was waiting for it. */
    method Fail() returns (held: Option<TerminalEvent>)
      requires Valid() && Value().attachment.Some?
      modifies this
      ensures Valid() && Value() == LostStream(old(Value()))
      ensures held == if old(Value()).pending.Some? then Some(old(Value()).pending.value.event) else None
    {
      if cancelOutput {
        cancelOutput := false;
      }
      resumeOutputRunID := currentOutputRunID;
      if outputState.Some? {
        outputAfterSequence := outputState.value;
      }
      currentOutputRunID := "";
      outputState := None;
      outputTerminalObserved := false;
      held := pendingTerminal;
    }

    /** Moves the resume cursor; the rest of the state keeps. */
    method Advance(lastSequence: nat)
      requires Valid() && Value().attachment.Some?
      modifies this
      ensures Valid() && Value() == Moved(old(Value()), lastSequence)
    {
      outputState := Some(lastSequence);
    }

    method Count(event: RunOutputEvent)
      requires Valid() && Value().attachment.Some?
      modifies this
      ensures Valid() && Value() == Counted(old(Value()), event)
    {
      outputUsage := ApplyUsage(outputUsage, event);
      if IsTerminal(event) {
        outputTerminalObserved := true;
      }
    }

    /** Holds a terminal event back at the start while a stream is attached. */
    method HoldAtStart(terminal: TerminalEvent, now: int) returns (held: bool)
      requires Valid() && Value().pending.None?
      modifies this
      ensures Valid() && held == (Value().attachment.Some? && !Value().attachment.value.observed)
      ensures Value() == if held then old(Value()).(pending := Some(HeldTerminal(terminal, now))) else old(Value())
    {
      held := currentOutputRunID != "" && !outputTerminalObserved;
      if held {
        pendingTerminal, pendingTerminalAt := Some(terminal), Some(now);
      }
    }

    /** Holds a terminal event back until the stream delivered its result and the wait is over. */
    method Hold(terminal: Option<TerminalEvent>, now: int) returns (held: bool)
      requires Valid()
      modifies this
      ensures Valid() && Kept(Value(), held) == Keep(old(Value()), terminal, now)
    {
      if terminal.None? {
        pendingTerminal, pendingTerminalAt := None, None;
        return true;
      }
      if currentOutputRunID != "" {
        if pendingTerminal.None? {
          pendingTerminalAt := Some(now);
        }
        pendingTerminal := terminal;
        if !outputTerminalObserved || now - pendingTerminalAt.value < TERMINAL_WAIT {
          return true;
        }
      }
      pendingTerminal, pendingTerminalAt := None, None;
      held := false;
    }
  }

  class Lifecycle {
    const config: Config
    const stream: AguiStreamWriter
    const output: OutputFollower
    var sessionState: Option<SessionView>
    var actionState: Option<ActionState>
    var runState: Option<RunState>
    var currentRunID: string
    var lastProjection: Option<Projection>
    var lastActivity: Option<Activity>

    ghost predicate Valid() reads this, output { output.Valid() }

    function ViewState(): View reads this { View(sessionState, actionState, runState, currentRunID) }

    function ShownState(): Shown reads this, stream {
      Shown(stream.written, stream.capacity, lastProjection, lastActivity)
    }

    ghost function State(): Loop
      requires Valid()
      reads this, stream, output
    {
      Loop(ViewState(), output.Value(), ShownState())
    }

    /** The loop has done what `r` says; once it has ended only its output matters. */
    ghost predicate Did(r: Result, exit: Exit) reads this, stream, output {
      && Valid() && exit == r.exit && stream.written == r.loop.shown.frames
      && (exit.Live? ==> State() == r.loop)
    }

    constructor (config: Config, stream: AguiStreamWriter, view: View)
      requires stream.written == []
      ensures Valid() && this.config == config && this.stream == stream && fresh(output)
      ensures State() == Loop(view, NOT_FOLLOWING, Shown([], stream.capacity, None, None))
    {
      this.config, this.stream := config, stream;
      output := new OutputFollower();
      sessionState, actionState, runState, currentRunID := view.session, view.action, view.run, view.runID;
      lastProjection, lastActivity := None, None;
    }

    method Emit(frame: Frame) returns (ok: bool)
      modifies stream
      ensures Wrote(ShownState(), ok) == Write(old(ShownState()), frame)
    {
      ok := stream.Write(frame);
    }

    method MaybeEmitProjection(projection: Projection) returns (ok: bool)
      modifies this, stream
      ensures ViewState() == old(ViewState())
      ensures Wrote(ShownState(), ok) == EmitProjection(old(ShownState()), projection)
    {
      if lastProjection == Some(projection) {
        return true;
      }
      lastProjection := Some(projection);
      ok := Emit(StateSnapshot(projection));
    }

    method MaybeEmitActivity(activity: Option<Activity>) returns (ok: bool)
      modifies this, stream
      ensures ViewState() == old(ViewState())
      ensures Wrote(ShownState(), ok) == EmitActivity(old(ShownState()), activity)
    {
      if activity.None? || lastActivity == activity {
        return true;
      }
      lastActivity := activity;
      ok := Emit(ActivitySnapshot(activity.value));
    }

    method EmitBoth(projection: Projection, activity: Option<Activity>) returns (ok: bool)
      modifies this, stream
      ensures ViewState() == old(ViewState())
      ensures Wrote(ShownState(), ok) == EmitSnapshots(old(ShownState()), projection, activity)
    {
      ok := MaybeEmitProjection(projection);
      if ok {
        ok := MaybeEmitActivity(activity);
      }
    }

    method WriteTerminalFrame(terminal: TerminalEvent) returns (exit: Exit)
      requires Valid()
      modifies stream
      ensures Settled(output.Value(), ShownState(), exit) == WriteTerminal(output.Value(), old(ShownState()), terminal)
    {
      var ok := Emit(TerminalFrame(terminal));
      exit := if ok then Finished else Aborted;
    }

    method OnStart(now: int) returns (exit: Exit)
      requires Valid() && output.Value() == NOT_FOLLOWING && ShownState() == Shown([], stream.capacity, None, None)
      modifies this, stream, output
      ensures Did(RunLifecycle.Start(config, old(ViewState()), stream.capacity, now), exit)
    {
      var ok := EmitBoth(ProjectionOf(config, ViewState(), NEW_USAGE), ActivityOf(config, ViewState()));
      if !ok {
        return Aborted;
      }
      output.SwitchOutputRun(config.hasOutputs, currentRunID, runState);
      var terminal := TerminalOf(config, ViewState());
      exit := Live;
      if terminal.Some? {
        var held := output.HoldAtStart(terminal.value, now);
        if !held {
          exit := WriteTerminalFrame(terminal.value);
        }
      }
    }

    method OnUpdate(runID: string, event: RunOutputEvent) returns (exit: Exit)
      requires Valid()
      modifies this, stream, output
      ensures Did(Step(config, old(State()), Output(runID, event)), exit)
    {
      if TrimSpace(runID) != output.currentOutputRunID || output.outputState.None? {
        return Live;
      }
      exit := OnFollowedUpdate(event);
    }

    method OnFollowedUpdate(event: RunOutputEvent) returns (exit: Exit)
      requires Valid() && output.Value().attachment.Some?
      modifies this, stream, output
      ensures Did(OnOutput(config, old(State()), event), exit)
    {
      var applied := ApplyOutput(output.outputState.value, event);
      output.Advance(applied.lastSequence);
      if applied.failed {
        return Aborted;
      }
      if applied.forwarded.Some? {
        var ok := Emit(OutputFrame(applied.forwarded.value.payload));
        if !ok {
          return Aborted;
        }
      }
      var previousUsage := output.outputUsage;
      output.Count(event);
      if output.outputUsage != previousUsage {
        var ok := MaybeEmitProjection(ProjectionOf(config, ViewState(), output.outputUsage));
        if !ok {
          return Aborted;
        }
      }
      exit := Live;
    }

    method OnStreamError(runID: string) returns (exit: Exit)
      requires Valid() && TrimSpace(runID) != ""
      modifies this, stream, output
      ensures Did(Step(config, old(State()), OutputFailed(runID)), exit)
    {
      if TrimSpace(runID) != output.currentOutputRunID {
        return Live;
      }
      var held := output.Fail();
      exit := Live;
      if held.Some? {
        exit := WriteTerminalFrame(held.value);
      }
    }

    /** The answers of a poll, up to the first that failed; the output stream follows the run they name. */
    method Refresh(input: Input) returns (ok: bool)
      requires Valid() && input.Poll?
      modifies this, output
      ensures Valid() && ok == !PollFails(old(State()), input)
      ensures ShownState() == old(ShownState())
      ensures ok ==> ViewState() == PolledView(old(State()), input)
      ensures ok ==>
                output.Value()
                == Refollowed(config.hasOutputs, old(ViewState()).runID, old(output.Value()), ViewState())
    {
      if input.session.Failure? {
        return false;
      }
      sessionState := input.session.value;
      if input.action.Failure? {
        return false;
      }
      actionState := input.action.value;
      var previousRunID := currentRunID;
      currentRunID := FollowedRunID(actionState, currentRunID);
      runState := None;
      if currentRunID != "" {
        if input.run.RunFailure? {
          return false;
        }
        runState := if input.run.RunFound? then input.run.run else None;
      }
      if previousRunID != currentRunID || (output.currentOutputRunID == "" && runState.Some? && currentRunID != "") {
        output.SwitchOutputRun(config.hasOutputs, currentRunID, runState);
      }
      ok := true;
    }

    /** Snapshots, then the terminal event unless it has to wait. */
    method ReportView(projection: Projection, activity: Option<Activity>, terminal: Option<TerminalEvent>, now: int)
      returns (exit: Exit)
      requires Valid()
      modifies this, stream, output
      ensures Did(Report(old(State()), projection, activity, terminal, now), exit)
    {
      var ok := EmitBoth(projection, activity);
      if !ok {
        return Aborted;
      }
      var held := output.Hold(terminal, now);
      if held {
        return Live;
      }
      exit := WriteTerminalFrame(terminal.value);
    }

    method OnPoll(input: Input) returns (exit: Exit)
      requires Valid() && input.Poll?
      modifies this, stream, output
      ensures Did(Step(config, old(State()), input), exit)
    {
      var ok := Refresh(input);
      if !ok {
        return Aborted;
      }
      exit := ReportView(ProjectionOf(config, ViewState(), output.outputUsage), ActivityOf(config, ViewState()),
                         TerminalOf(config, ViewState()), input.now);
    }

    method OnInput(input: Input) returns (exit: Exit)
      requires Valid() && (input.OutputFailed? ==> TrimSpace(input.runID) != "")
      modifies this, stream, output
      ensures Did(Step(config, old(State()), input), exit)
    {
      match input
      case Output(runID, event) => exit := OnUpdate(runID, event);
      case OutputFailed(runID) => exit := OnStreamError(runID);
      case Cancel => exit := Interrupted;
      case Heartbeat =>
        var ok := Emit(KeepAlive);
        exit := if ok then Live else Aborted;
      case Poll(_, _, _, _) => exit := OnPoll(input);
    }

    /** streamRunLifecycle: the loop ends at the first input that does not leave it live. */
    method Stream(now: int, inputs: seq<Input>) returns (exit: Exit)
      requires Valid() && output.Value() == NOT_FOLLOWING && ShownState() == Shown([], stream.capacity, None, None)
      requires forall input <- inputs :: input.OutputFailed? ==> TrimSpace(input.runID) != ""
      modifies this, stream, output
      ensures Did(Run(config, old(ViewState()), stream.capacity, now, inputs), exit)
    {
      ghost var first := RunLifecycle.Start(config, ViewState(), stream.capacity, now);
      exit := OnStart(now);
      var i := 0;
      while i < |inputs| && exit.Live?
        invariant i <= |inputs|
        invariant Did(RunFrom(config, first, inputs[..i]), exit)
      {
        assert inputs[..i + 1][..i] == inputs[..i];
        exit := OnInput(inputs[i]);
        i := i + 1;
      }
      StopsAtExit(first, inputs, i);
      assert inputs[..|inputs|] == inputs;
    }

    lemma {:induction false} StopsAtExit(first: Result, inputs: seq<Input>, i: nat)
      requires i <= |inputs| && (RunFrom(config, first, inputs[..i]).exit.Live? ==> i == |inputs|)
      ensures RunFrom(config, first, inputs) == RunFrom(config, first, inputs[..i])
    {
      if i == |inputs| {
        assert inputs[..i] == inputs;
      } else {
        var n := |inputs| - 1;
        assert inputs[..n][..i] == inputs[..i];
        StopsAtExit(first, inputs[..n], i);
      }
    }
  }
}
