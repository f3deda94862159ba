/** Whole-run guarantees of the run lifecycle loop. */
module RunLifecycleProofs {
  import opened Text
  import opened RunOutputEvents
  import opened AguiState
  import opened AguiConsumer
  import opened RunLifecycle

  // ---------------------------------------------------------------- what was written

  function Snapshots(frames: seq<Frame>): seq<Projection> {
    if frames == [] then [] else
    var n := |frames| - 1;
    Snapshots(frames[..n]) + if frames[n].StateSnapshot? then [frames[n].projection] else []
  }

  function Activities(frames: seq<Frame>): seq<Activity> {
    if frames == [] then [] else
    var n := |frames| - 1;
    Activities(frames[..n]) + if frames[n].ActivitySnapshot? then [frames[n].activity] else []
  }

  predicate NoStutter<T(==)>(s: seq<T>) { forall i :: 0 < i < |s| ==> s[i - 1] != s[i] }

  function Last<T>(s: seq<T>): Option<T> { if s == [] then None else Some(s[|s| - 1]) }

  predicate NoTerminal(frames: seq<Frame>) { forall f <- frames :: !f.TerminalFrame? }

  lemma FramesAppend(frames: seq<Frame>, frame: Frame)
    ensures Snapshots(frames + [frame]) == Snapshots(frames) + if frame.StateSnapshot? then [frame.projection] else []
    ensures Activities(frames + [frame]) == Activities(frames) + if frame.ActivitySnapshot? then [frame.activity]
            else []
    ensures NoTerminal(frames + [frame]) <==> NoTerminal(frames) && !frame.TerminalFrame?
  {
    assert (frames + [frame])[..|frames|] == frames;
    assert forall f :: f in frames + [frame] <==> f in frames || f == frame;
  }

  /** The bookkeeping of what was emitted last matches what was written, and nothing was written twice in a row. */
  predicate FramesInv(shown: Shown) {
    && Last(Snapshots(shown.frames)) == shown.lastProjection
    && Last(Activities(shown.frames)) == shown.lastActivity
    && NoStutter(Snapshots(shown.frames))
    && NoStutter(Activities(shown.frames))
    && NoTerminal(shown.frames)
  }

  predicate Agrees(shown: Shown, projection: Projection, activity: Option<Activity>) {
    shown.lastProjection == Some(projection) && (activity.Some? ==> shown.lastActivity == activity)
  }

  /** Holds whenever the loop waits for its next input. */
  predicate HeadInv(config: Config, loop: Loop) {
    FramesInv(loop.shown) && Agrees(loop.shown, ProjectionOf(config, loop.view, loop.follow.usage),
                                    ActivityOf(config, loop.view))
  }

  lemma WriteKeepsFrames(shown: Shown, frame: Frame)
    requires FramesInv(shown) && (frame.KeepAlive? || frame.OutputFrame?)
    ensures var w := Write(shown, frame).shown;
            FramesInv(w) && w.lastProjection == shown.lastProjection && w.lastActivity == shown.lastActivity
  {
    FramesAppend(shown.frames, frame);
    assert Snapshots(shown.frames) + [] == Snapshots(shown.frames);
    assert Activities(shown.frames) + [] == Activities(shown.frames);
  }

  lemma AppendKeepsNoStutter<T>(s: seq<T>, x: T)
    requires NoStutter(s) && Last(s) != Some(x)
    ensures NoStutter(s + [x]) && Last(s + [x]) == Some(x)
  {
  }

  lemma EmitProjectionShows(shown: Shown, projection: Projection)
    requires FramesInv(shown)
    ensures var w := EmitProjection(shown, projection);
            w.ok ==>
              && FramesInv(w.shown) && w.shown.lastProjection == Some(projection)
              && w.shown.lastActivity == shown.lastActivity
  {
    if shown.lastProjection != Some(projection) {
      FramesAppend(shown.frames, StateSnapshot(projection));
      AppendKeepsNoStutter(Snapshots(shown.frames), projection);
      assert Activities(shown.frames) + [] == Activities(shown.frames);
    }
  }

  lemma EmitActivityShows(shown: Shown, activity: Option<Activity>)
    requires FramesInv(shown)
    ensures var w := EmitActivity(shown, activity);
            w.ok ==> FramesInv(w.shown) && w.shown.lastProjection == shown.lastProjection
                     && (activity.Some? ==> w.shown.lastActivity == activity)
  {
    if activity.Some? && shown.lastActivity != activity {
      FramesAppend(shown.frames, ActivitySnapshot(activity.value));
      AppendKeepsNoStutter(Activities(shown.frames), activity.value);
      assert Snapshots(shown.frames) + [] == Snapshots(shown.frames);
    }
  }

  lemma EmitSnapshotsShows(shown: Shown, projection: Projection, activity: Option<Activity>)
    requires FramesInv(shown)
    ensures var w := EmitSnapshots(shown, projection, activity);
            w.ok ==> FramesInv(w.shown) && Agrees(w.shown, projection, activity)
  {
    EmitProjectionShows(shown, projection);
    var projected := EmitProjection(shown, projection);
    if projected.ok {
      EmitActivityShows(projected.shown, activity);
    }
  }

  lemma SettleKeepsShown(follow: Follow, shown: Shown, terminal: Option<TerminalEvent>, now: int)
    ensures var s := Settle(follow, shown, terminal, now);
            s.exit.Live? ==>
              s.shown == shown && s.follow.usage == follow.usage
    ensures var s := Opening(follow, shown, terminal, now);
            s.exit.Live? ==>
              s.shown == shown && s.follow.usage == follow.usage
  {
  }

  lemma StartEstablishesHead(config: Config, view: View, capacity: Option<nat>, now: int)
    ensures var r := Start(config, view, capacity, now); r.exit.Live? ==> HeadInv(config, r.loop)
  {
    var projection, activity := ProjectionOf(config, view, NEW_USAGE), ActivityOf(config, view);
    var shown := Shown([], capacity, None, None);
    EmitSnapshotsShows(shown, projection, activity);
    var follow := SwitchOutput(config.hasOutputs, NOT_FOLLOWING, view.runID, view.run);
    assert follow.usage == NEW_USAGE;
    SettleKeepsShown(follow, EmitSnapshots(shown, projection, activity).shown, TerminalOf(config, view), now);
  }

  lemma OnOutputKeepsHead(config: Config, loop: Loop, event: RunOutputEvent)
    requires HeadInv(config, loop) && loop.follow.attachment.Some?
    ensures var r := OnOutput(config, loop, event); r.exit.Live? ==> HeadInv(config, r.loop)
  {
    var applied := ApplyOutput(loop.follow.attachment.value.lastSequence, event);
    if applied.forwarded.Some? {
      WriteKeepsFrames(loop.shown, OutputFrame(applied.forwarded.value.payload));
    }
    var usage := ApplyUsage(loop.follow.usage, event);
    EmitProjectionShows(Forward(loop.shown, applied.forwarded).shown, ProjectionOf(config, loop.view, usage));
  }

  lemma OnPolledKeepsHead(config: Config, loop: Loop, view: View, now: int)
    requires HeadInv(config, loop)
    ensures var r := OnPolled(config, loop, view, now); r.exit.Live? ==> HeadInv(config, r.loop)
  {
    var follow := Refollowed(config.hasOutputs, loop.view.runID, loop.follow, view);
    var projection, activity := ProjectionOf(config, view, follow.usage), ActivityOf(config, view);
    EmitSnapshotsShows(loop.shown, projection, activity);
    SettleKeepsShown(follow, EmitSnapshots(loop.shown, projection, activity).shown, TerminalOf(config, view), now);
  }

  lemma StepKeepsHead(config: Config, loop: Loop, input: Input)
    requires HeadInv(config, loop)
    ensures var r := Step(config, loop, input); r.exit.Live? ==> HeadInv(config, r.loop)
  {
    match input
    case Output(runID, event) =>
      if Follows(loop.follow, TrimSpace(runID)) {
        OnOutputKeepsHead(config, loop, event);
      }
    case Heartbeat => WriteKeepsFrames(loop.shown, KeepAlive);
    case Poll(now, _, _, _) =>
      if !PollFails(loop, input) {
        OnPolledKeepsHead(config, loop, PolledView(loop, input), now);
      }
    case _ =>
  }

  lemma {:induction false} RunKeepsHead(config: Config, first: Result, inputs: seq<Input>)
    requires first.exit.Live? ==> HeadInv(config, first.loop)
    ensures var r := RunFrom(config, first, inputs); r.exit.Live? ==> HeadInv(config, r.loop)
  {
    if inputs != [] {
      var n := |inputs| - 1;
      RunKeepsHead(config, first, inputs[..n]);
      var before := RunFrom(config, first, inputs[..n]);
      if before.exit.Live? {
        StepKeepsHead(config, before.loop, inputs[n]);
      }
    }
  }

  /**
   * At every loop head of every run, what the browser was last shown agrees
   * with the state last polled and the usage counted so far, no snapshot was
   * sent twice in a row, and no terminal event has been written.
   */
  lemma SnapshotsAgreeAtEveryHead(config: Config, view: View, capacity: Option<nat>, now: int, inputs: seq<Input>)
    ensures var r := Run(config, view, capacity, now, inputs);
            var frames := r.loop.shown.frames;
            r.exit.Live? ==>
              && Last(Snapshots(frames))
                 == Some(BuildProjection(config.sessionID, r.loop.view.session, r.loop.follow.usage.projection))
              && (var activity := BuildActivity(config.sessionID, r.loop.view.action, r.loop.view.run,
                                                r.loop.view.runID);
                  activity.Some? ==> Last(Activities(frames)) == activity)
              && NoStutter(Snapshots(frames)) && NoStutter(Activities(frames)) && NoTerminal(frames)
  {
    StartEstablishesHead(config, view, capacity, now);
    RunKeepsHead(config, Start(config, view, capacity, now), inputs);
  }

  // ---------------------------------------------------------------- the terminal event

  /** Frames without a terminal event, followed by one exactly when the loop has finished. */
  predicate TerminalOnlyLast(frames: seq<Frame>, exit: Exit) {
    if exit.Finished? then frames != [] && frames[|frames| - 1].TerminalFrame? && NoTerminal(frames[..|frames| - 1])
    else NoTerminal(frames)
  }

  lemma WriteTerminalOnlyLast(shown: Shown, frame: Frame)
    requires NoTerminal(shown.frames)
    ensures var w := Write(shown, frame);
            if frame.TerminalFrame? then TerminalOnlyLast(w.shown.frames, if w.ok then Finished else Aborted)
            else NoTerminal(w.shown.frames)
  {
    FramesAppend(shown.frames, frame);
    assert (shown.frames + [frame])[..|shown.frames|] == shown.frames;
  }

  lemma EmitIsQuiet(shown: Shown, projection: Projection, activity: Option<Activity>)
    requires NoTerminal(shown.frames)
    ensures NoTerminal(EmitProjection(shown, projection).shown.frames)
    ensures NoTerminal(EmitSnapshots(shown, projection, activity).shown.frames)
  {
    WriteTerminalOnlyLast(shown.(lastProjection := Some(projection)), StateSnapshot(projection));
    var projected := EmitProjection(shown, projection).shown;
    if activity.Some? {
      WriteTerminalOnlyLast(projected.(lastActivity := activity), ActivitySnapshot(activity.value));
    }
  }

  lemma SettleWritesLast(follow: Follow, shown: Shown, terminal: Option<TerminalEvent>, now: int)
    requires NoTerminal(shown.frames)
    ensures var s := Settle(follow, shown, terminal, now); TerminalOnlyLast(s.shown.frames, s.exit)
    ensures var s := Opening(follow, shown, terminal, now); TerminalOnlyLast(s.shown.frames, s.exit)
  {
    if terminal.Some? {
      WriteTerminalOnlyLast(shown, TerminalFrame(terminal.value));
    }
  }

  lemma OnOutputIsQuiet(config: Config, loop: Loop, event: RunOutputEvent)
    requires loop.follow.attachment.Some? && NoTerminal(loop.shown.frames)
    ensures NoTerminal(OnOutput(config, loop, event).loop.shown.frames)
  {
    var applied := ApplyOutput(loop.follow.attachment.value.lastSequence, event);
    if applied.forwarded.Some? {
      WriteTerminalOnlyLast(loop.shown, OutputFrame(applied.forwarded.value.payload));
    }
    EmitIsQuiet(Forward(loop.shown, applied.forwarded).shown,
                ProjectionOf(config, loop.view, ApplyUsage(loop.follow.usage, event)), None);
  }

  lemma StepWritesLast(config: Config, loop: Loop, input: Input)
    requires NoTerminal(loop.shown.frames)
    ensures var r := Step(config, loop, input); TerminalOnlyLast(r.loop.shown.frames, r.exit)
  {
    match input
    case Output(runID, event) =>
      if Follows(loop.follow, TrimSpace(runID)) {
        OnOutputIsQuiet(config, loop, event);
      }
    case OutputFailed(_) =>
      if loop.follow.pending.Some? {
        WriteTerminalOnlyLast(loop.shown, TerminalFrame(loop.follow.pending.value.event));
      }
    case Cancel =>
    case Heartbeat => WriteTerminalOnlyLast(loop.shown, KeepAlive);
    case Poll(now, _, _, _) =>
      if !PollFails(loop, input) {
        var view := PolledView(loop, input);
        var follow := Refollowed(config.hasOutputs, loop.view.runID, loop.follow, view);
        var projection, activity := ProjectionOf(config, view, follow.usage), ActivityOf(config, view);
        EmitIsQuiet(loop.shown, projection, activity);
        SettleWritesLast(follow, EmitSnapshots(loop.shown, projection, activity).shown, TerminalOf(config, view), now);
      }
  }

  lemma StartWritesLast(config: Config, view: View, capacity: Option<nat>, now: int)
    ensures var r := Start(config, view, capacity, now); TerminalOnlyLast(r.loop.shown.frames, r.exit)
  {
    var shown := Shown([], capacity, None, None);
    var projection, activity := ProjectionOf(config, view, NEW_USAGE), ActivityOf(config, view);
    EmitIsQuiet(shown, projection, activity);
    SettleWritesLast(SwitchOutput(config.hasOutputs, NOT_FOLLOWING, view.runID, view.run),
                     EmitSnapshots(shown, projection, activity).shown, TerminalOf(config, view), now);
  }

  /** A run writes at most one terminal event, exactly when it finishes, and nothing after it. */
  lemma {:induction false} TerminalIsLast(config: Config, view: View, capacity: Option<nat>, now: int,
                                          inputs: seq<Input>)
    ensures var r := Run(config, view, capacity, now, inputs); TerminalOnlyLast(r.loop.shown.frames, r.exit)
  {
    if inputs == [] {
      StartWritesLast(config, view, capacity, now);
    } else {
      var n := |inputs| - 1;
      TerminalIsLast(config, view, capacity, now, inputs[..n]);
      var before := Run(config, view, capacity, now, inputs[..n]);
      if before.exit.Live? {
        StepWritesLast(config, before.loop, inputs[n]);
      }
    }
  }
}
