/** When the run lifecycle loop may write its terminal event. */
module RunLifecycleGate {
  import opened Text
  import opened RunOutputEvents
  import opened AguiState
  import opened AguiConsumer
  import opened RunLifecycle
  import opened RunLifecycleProofs

  // ---------------------------------------------------------------- one step

  /** The gate a step passes when it writes the terminal event. */
  predicate Gate(loop: Loop, input: Input, after: Follow) {
    || (input.OutputFailed? && Follows(loop.follow, TrimSpace(input.runID)) && loop.follow.pending.Some?)
    || (input.Poll? && after.attachment.None?)
    || (input.Poll? && after.attachment == loop.follow.attachment && after.attachment.value.observed
        && loop.follow.pending.Some? && input.now - loop.follow.pending.value.since >= 1500)
  }

  /** Only a terminal result of the followed run marks it observed; only a poll starts holding a terminal event back. */
  predicate Moves(before: Follow, input: Input, after: Follow) {
    && (after.attachment.Some? && after.attachment.value.observed ==>
          && Follows(before, after.attachment.value.runID)
          && (before.attachment.value.observed
              || (input.Output? && IsTerminal(input.event) && Follows(before, TrimSpace(input.runID)))))
    && (after.pending.Some? ==>
          || (before.pending.Some? && after.pending.value.since == before.pending.value.since)
          || (input.Poll? && after.pending.value.since == input.now))
  }

  /** Refollowing either keeps what is followed, or starts afresh with nothing observed and nothing held. */
  lemma RefollowedOrFresh(hasOutputs: bool, previousRunID: string, follow: Follow, view: View)
    ensures var f := Refollowed(hasOutputs, previousRunID, follow, view);
            f == follow || (f.pending.None? && (f.attachment.Some? ==> !f.attachment.value.observed))
  {
  }

  lemma SettleGate(follow: Follow, shown: Shown, terminal: Option<TerminalEvent>, now: int)
    ensures var s := Settle(follow, shown, terminal, now);
            && s.follow.attachment == follow.attachment
            && (s.exit.Finished? ==>
                  || follow.attachment.None?
                  || (follow.attachment.value.observed && follow.pending.Some?
                      && now - follow.pending.value.since >= 1500))
            && (s.exit.Live? && s.follow.pending.Some? ==>
                  s.follow.pending.value.since == if follow.pending.Some? then follow.pending.value.since else now)
  {
  }

  lemma StepGate(config: Config, loop: Loop, input: Input)
    ensures var r := Step(config, loop, input);
            && (r.exit.Finished? ==> Gate(loop, input, r.loop.follow))
            && (r.exit.Live? ==> Moves(loop.follow, input, r.loop.follow))
  {
    if input.Poll? && !PollFails(loop, input) {
      var view := PolledView(loop, input);
      var follow := Refollowed(config.hasOutputs, loop.view.runID, loop.follow, view);
      RefollowedOrFresh(config.hasOutputs, loop.view.runID, loop.follow, view);
      var wrote := EmitSnapshots(loop.shown, ProjectionOf(config, view, follow.usage), ActivityOf(config, view));
      SettleGate(follow, wrote.shown, TerminalOf(config, view), input.now);
    }
  }

  /** A terminal event need not wait: nothing is attached, or the stream gave its result and the wait is over. */
  predicate Due(follow: Follow, now: int) {
    || follow.attachment.None?
    || (follow.attachment.value.observed && follow.pending.Some? && now - follow.pending.value.since >= 1500)
  }

  lemma EmitsToOpenBrowser(shown: Shown, projection: Projection, activity: Option<Activity>)
    requires shown.capacity.None?
    ensures var w := EmitSnapshots(shown, projection, activity); w.ok && w.shown.capacity.None?
  {
  }

  /**
   * While the browser accepts writes, a poll ends the run exactly when the
   * turn it reports is over and the terminal event is due, and then that event
   * is what it writes last.
   */
  lemma PollFinishesIff(config: Config, loop: Loop, input: Input)
    requires input.Poll? && !PollFails(loop, input) && loop.shown.capacity.None?
    ensures var view := PolledView(loop, input);
            var r := Step(config, loop, input);
            && (r.exit.Finished? <==>
                  && IsTerminalPhase(DecidingPhase(view.action, view.run))
                  && Due(Refollowed(config.hasOutputs, loop.view.runID, loop.follow, view), input.now))
            && (r.exit.Finished? ==>
                  && r.loop.shown.frames != []
                  && Some(r.loop.shown.frames[|r.loop.shown.frames| - 1]) == FrameOf(TerminalOf(config, view)))
            && (!r.exit.Finished? ==> r.exit.Live?)
  {
    var view := PolledView(loop, input);
    var follow := Refollowed(config.hasOutputs, loop.view.runID, loop.follow, view);
    TerminalEventIff(config.threadID, view.runID, view.action, view.run);
    EmitsToOpenBrowser(loop.shown, ProjectionOf(config, view, follow.usage), ActivityOf(config, view));
  }

  function FrameOf(terminal: Option<TerminalEvent>): Option<Frame> {
    if terminal.Some? then Some(TerminalFrame(terminal.value)) else None
  }

  /** A failed stream ends the run exactly when a terminal event was waiting for it. */
  lemma StreamFailureFinishesIff(config: Config, loop: Loop, input: Input)
    requires input.OutputFailed? && Follows(loop.follow, TrimSpace(input.runID)) && loop.shown.capacity.None?
    ensures var r := Step(config, loop, input);
            && (r.exit.Finished? <==> loop.follow.pending.Some?)
            && (r.exit.Finished? ==>
                r.loop.shown.frames == loop.shown.frames + [TerminalFrame(loop.follow.pending.value.event)])
            && r.loop.follow.resume
               == Some(Cursor(loop.follow.attachment.value.runID, loop.follow.attachment.value.lastSequence))
  {
  }

  // ---------------------------------------------------------------- whole runs

  /** The loop head after the first k inputs. */
  function HeadAt(config: Config, first: Result, inputs: seq<Input>, k: nat): Result
    requires k <= |inputs|
  {
    RunFrom(config, first, inputs[..k])
  }

  lemma HeadOfPrefix(config: Config, first: Result, inputs: seq<Input>, n: nat, k: nat)
    requires k <= n <= |inputs|
    ensures HeadAt(config, first, inputs[..n], k) == HeadAt(config, first, inputs, k)
  {
    assert inputs[..n][..k] == inputs[..k];
  }

  /** Input j was a terminal result of the run the loop has been attached to ever since. */
  predicate TerminalSeen(config: Config, first: Result, inputs: seq<Input>, j: nat, runID: string) {
    && j < |inputs| && inputs[j].Output? && IsTerminal(inputs[j].event) && TrimSpace(inputs[j].runID) == runID
    && forall k :: j <= k <= |inputs| ==> Follows(HeadAt(config, first, inputs, k).loop.follow, runID)
  }

  /** A terminal event has been held back ever since head j, which was reached at time `since`. */
  predicate HeldSince(config: Config, first: Result, now: int, inputs: seq<Input>, j: nat, since: int) {
    && j <= |inputs|
    && (if j == 0 then since == now else inputs[j - 1].Poll? && since == inputs[j - 1].now)
    && forall k :: j <= k <= |inputs| ==> HeadAt(config, first, inputs, k).loop.follow.pending.Some?
  }

  lemma SeenExtends(config: Config, first: Result, inputs: seq<Input>, n: nat, j: nat, runID: string)
    requires |inputs| == n + 1 && TerminalSeen(config, first, inputs[..n], j, runID)
    requires Follows(HeadAt(config, first, inputs, n + 1).loop.follow, runID)
    ensures TerminalSeen(config, first, inputs, j, runID)
  {
    forall k | j <= k <= |inputs| ensures Follows(HeadAt(config, first, inputs, k).loop.follow, runID) {
      if k <= n {
        HeadOfPrefix(config, first, inputs, n, k);
        assert Follows(HeadAt(config, first, inputs[..n], k).loop.follow, runID);
      }
    }
  }

  lemma SeenNow(config: Config, first: Result, inputs: seq<Input>, n: nat, runID: string)
    requires |inputs| == n + 1 && inputs[n].Output? && IsTerminal(inputs[n].event)
             && TrimSpace(inputs[n].runID) == runID
    requires Follows(HeadAt(config, first, inputs, n).loop.follow, runID)
    requires Follows(HeadAt(config, first, inputs, n + 1).loop.follow, runID)
    ensures TerminalSeen(config, first, inputs, n, runID)
  {
  }

  lemma HeldExtends(config: Config, first: Result, now: int, inputs: seq<Input>, n: nat, j: nat, since: int)
    requires |inputs| == n + 1 && HeldSince(config, first, now, inputs[..n], j, since)
    requires HeadAt(config, first, inputs, n + 1).loop.follow.pending.Some?
    ensures HeldSince(config, first, now, inputs, j, since)
  {
    forall k | j <= k <= |inputs| ensures HeadAt(config, first, inputs, k).loop.follow.pending.Some? {
      if k <= n {
        HeadOfPrefix(config, first, inputs, n, k);
        assert HeadAt(config, first, inputs[..n], k).loop.follow.pending.Some?;
      }
    }
  }

  /** One input of a live run, seen as a step between two heads. */
  lemma LastStep(config: Config, first: Result, inputs: seq<Input>, n: nat)
    requires |inputs| == n + 1 && HeadAt(config, first, inputs, n + 1).exit.Live?
    ensures HeadAt(config, first, inputs, n).exit.Live?
    ensures HeadAt(config, first, inputs[..n], n) == HeadAt(config, first, inputs, n)
    ensures Moves(HeadAt(config, first, inputs, n).loop.follow, inputs[n],
                  HeadAt(config, first, inputs, n + 1).loop.follow)
  {
    assert inputs[..n + 1] == inputs;
    HeadOfPrefix(config, first, inputs, n, n);
    StepGate(config, HeadAt(config, first, inputs, n).loop, inputs[n]);
  }

  lemma {:induction false} ObservedWasSeen(config: Config, first: Result, inputs: seq<Input>, runID: string)
    returns (j: nat)
    requires first.loop.follow.attachment.Some? ==> !first.loop.follow.attachment.value.observed
    requires var r := HeadAt(config, first, inputs, |inputs|);
             r.exit.Live? && Follows(r.loop.follow, runID) && r.loop.follow.attachment.value.observed
    ensures TerminalSeen(config, first, inputs, j, runID)
  {
    NotYetRun(config, first, inputs);
    var n: nat := |inputs| - 1;
    LastStep(config, first, inputs, n);
    var before := HeadAt(config, first, inputs, n).loop.follow;
    if before.attachment.value.observed {
      j := ObservedWasSeen(config, first, inputs[..n], runID);
      SeenExtends(config, first, inputs, n, j, runID);
    } else {
      j := n;
      SeenNow(config, first, inputs, n, runID);
    }
  }

  lemma NotYetRun(config: Config, first: Result, inputs: seq<Input>)
    ensures inputs == [] ==> HeadAt(config, first, inputs, |inputs|) == first
  {
  }

  lemma {:induction false} PendingWasHeld(config: Config, first: Result, now: int, inputs: seq<Input>, since: int)
    returns (j: nat)
    requires first.loop.follow.pending.Some? ==> first.loop.follow.pending.value.since == now
    requires var r := HeadAt(config, first, inputs, |inputs|);
             r.exit.Live? && r.loop.follow.pending.Some? && r.loop.follow.pending.value.since == since
    ensures HeldSince(config, first, now, inputs, j, since)
  {
    if inputs == [] {
      assert HeadAt(config, first, inputs, 0) == first;
      j := 0;
    } else {
      var n := |inputs| - 1;
      LastStep(config, first, inputs, n);
      var before := HeadAt(config, first, inputs, n).loop.follow;
      if before.pending.Some? && since == before.pending.value.since {
        j := PendingWasHeld(config, first, now, inputs[..n], since);
        HeldExtends(config, first, now, inputs, n, j, since);
      } else {
        j := |inputs|;
      }
    }
  }

  /** The three ways a run may end in a terminal event, told from its inputs. */
  ghost predicate MayFinish(config: Config, first: Result, now: int, inputs: seq<Input>)
    requires inputs != []
  {
    var n := |inputs| - 1;
    var before, last, after := RunFrom(config, first, inputs[..n]).loop.follow, inputs[n],
        RunFrom(config, first, inputs).loop.follow;
    || (last.OutputFailed? && Follows(before, TrimSpace(last.runID)))
    || (last.Poll? && after.attachment.None?)
    || (last.Poll? && after.attachment.Some?
        && exists j: nat, i: nat, since: int ::
             && TerminalSeen(config, first, inputs[..n], j, after.attachment.value.runID)
             && HeldSince(config, first, now, inputs[..n], i, since)
             && last.now - since >= 1500)
  }

  lemma StartIsFresh(config: Config, view: View, capacity: Option<nat>, now: int)
    ensures var first := Start(config, view, capacity, now);
            && (first.loop.follow.attachment.Some? ==> !first.loop.follow.attachment.value.observed)
            && (first.loop.follow.pending.Some? ==> first.loop.follow.pending.value.since == now)
            && (first.exit.Finished? ==> first.loop.follow.attachment.None?)
  {
  }

  /**
   * Terminal gating. A run that finishes at its last input does so because the
   * attached stream just failed, or because nothing is attached, or because a
   * terminal result of the attached run was received and 1500 ms have
   * passed since the terminal event was first held back.
   */
  lemma TerminalIsGated(config: Config, view: View, capacity: Option<nat>, now: int, inputs: seq<Input>)
    requires Run(config, view, capacity, now, inputs).exit.Finished?
    ensures inputs == [] ==> Run(config, view, capacity, now, inputs).loop.follow.attachment.None?
    ensures inputs != [] && Run(config, view, capacity, now, inputs[..|inputs| - 1]).exit.Live? ==>
              MayFinish(config, Start(config, view, capacity, now), now, inputs)
  {
    var first := Start(config, view, capacity, now);
    StartIsFresh(config, view, capacity, now);
    if inputs != [] && RunFrom(config, first, inputs[..|inputs| - 1]).exit.Live? {
      GateAtLast(config, first, now, inputs, |inputs| - 1);
    }
  }

  lemma GateAtLast(config: Config, first: Result, now: int, inputs: seq<Input>, n: nat)
    requires |inputs| == n + 1
    requires first.loop.follow.attachment.Some? ==> !first.loop.follow.attachment.value.observed
    requires first.loop.follow.pending.Some? ==> first.loop.follow.pending.value.since == now
    requires RunFrom(config, first, inputs[..n]).exit.Live? && RunFrom(config, first, inputs).exit.Finished?
    ensures MayFinish(config, first, now, inputs)
  {
    var before := RunFrom(config, first, inputs[..n]).loop;
    var after := RunFrom(config, first, inputs).loop.follow;
    StepGate(config, before, inputs[n]);
    if inputs[n].Poll? && after.attachment.Some? {
      assert inputs[..n][..n] == inputs[..n];
      var runID, since := after.attachment.value.runID, before.follow.pending.value.since;
      var j := ObservedWasSeen(config, first, inputs[..n], runID);
      var i := PendingWasHeld(config, first, now, inputs[..n], since);
      assert TerminalSeen(config, first, inputs[..n], j, runID) && HeldSince(config, first, now, inputs[..n], i, since);
    }
  }
}
