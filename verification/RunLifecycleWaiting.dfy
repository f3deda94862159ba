/** How long the run lifecycle loop holds its terminal event back, while it keeps following one run. */
module RunLifecycleWaiting {
  import opened Text
  import opened RunOutputEvents
  import opened AguiState
  import opened AguiConsumer
  import opened RunLifecycle
  import opened RunLifecycleGate

  // ---------------------------------------------------------------- uneventful inputs

  /** A poll that keeps naming the run the loop follows, or a heartbeat. */
  predicate NothingNew(input: Input, runID: string) {
    || input.Heartbeat?
    || (input.Poll? && input.session.Answer? && input.action.Answer?
        && FollowedRunID(input.action.value, runID) == runID)
  }

  /** An event whose document, if it has one, decodes. */
  predicate Readable(event: RunOutputEvent) { HasDocument(event) ==> Decodes(event) }

  /**
   * What leaves the loop following its run: heartbeats, polls whose services
   * answer and that name the run, readable output of it, and whatever streams
   * of other runs still post.
   */
  predicate KeepsFollowing(input: Input, runID: string) {
    || (NothingNew(input, runID) && (input.Poll? ==> !input.run.RunFailure?))
    || (input.Output? && (TrimSpace(input.runID) == runID ==> Readable(input.event)))
    || (input.OutputFailed? && TrimSpace(input.runID) != runID)
  }

  /** The poll reports a turn that is over. */
  predicate ReportsOver(input: Input, runID: string) {
    && input.Poll? && input.action.Answer?
    && IsTerminalPhase(DecidingPhase(input.action.value, if runID != "" && input.run.RunFound? then input.run.run
                                     else None))
  }

  function SinceOf(pending: Option<HeldTerminal>): Option<int> {
    if pending.Some? then Some(pending.value.since) else None
  }

  /** Since when a terminal event has been held back: the first of a row of polls that report the turn over. */
  function HeldAfter(since: Option<int>, input: Input, runID: string): Option<int> {
    if !input.Poll? then since
    else if !ReportsOver(input, runID) then None
    else if since.Some? then since
    else Some(input.now)
  }

  function HeldFrom(since: Option<int>, inputs: seq<Input>, runID: string): Option<int> {
    if inputs == [] then since else
    HeldAfter(HeldFrom(since, inputs[..|inputs| - 1], runID), inputs[|inputs| - 1], runID)
  }

  /** Whether a terminal result of the run has been received. */
  predicate ObservedAfter(observed: bool, input: Input, runID: string) {
    observed || (input.Output? && TrimSpace(input.runID) == runID && IsTerminal(input.event))
  }

  predicate ObservedFrom(observed: bool, inputs: seq<Input>, runID: string) {
    if inputs == [] then observed else
    ObservedAfter(ObservedFrom(observed, inputs[..|inputs| - 1], runID), inputs[|inputs| - 1], runID)
  }

  predicate WaitedAt(since: Option<int>, input: Input, runID: string) {
    ReportsOver(input, runID) && since.Some? && input.now - since.value >= 1500
  }

  /**
   * Poll k reports the turn over, and by then the run's terminal result has
   * been received and a terminal event held back for the whole wait.
   */
  predicate DueAt(follow: Follow, inputs: seq<Input>, runID: string, k: nat)
    requires follow.attachment.Some?
  {
    && k < |inputs| && ObservedFrom(follow.attachment.value.observed, inputs[..k], runID)
    && WaitedAt(HeldFrom(SinceOf(follow.pending), inputs[..k], runID), inputs[k], runID)
  }

  // ---------------------------------------------------------------- when the terminal event comes out

  /** The loop follows the run of its last view, and the browser takes everything. */
  predicate FollowsOpen(loop: Loop) { Follows(loop.follow, loop.view.runID) && loop.shown.capacity.None? }

  lemma FollowedPoll(config: Config, loop: Loop, input: Input)
    requires FollowsOpen(loop) && KeepsFollowing(input, loop.view.runID) && input.Poll?
    ensures !PollFails(loop, input) && PolledView(loop, input).runID == loop.view.runID
    ensures Refollowed(config.hasOutputs, loop.view.runID, loop.follow, PolledView(loop, input)) == loop.follow
    ensures TerminalOf(config, PolledView(loop, input)).Some? <==> ReportsOver(input, loop.view.runID)
  {
    var view := PolledView(loop, input);
    TerminalEventIff(config.threadID, view.runID, view.action, view.run);
  }

  lemma FollowedStep(config: Config, loop: Loop, input: Input)
    requires FollowsOpen(loop) && KeepsFollowing(input, loop.view.runID)
    ensures var r := Step(config, loop, input);
            && (r.exit.Finished? <==>
                  loop.follow.attachment.value.observed
                    && WaitedAt(SinceOf(loop.follow.pending), input, loop.view.runID))
            && (!r.exit.Finished? ==>
                  && r.exit.Live? && FollowsOpen(r.loop) && r.loop.view.runID == loop.view.runID
                  && r.loop.follow.attachment.value.observed
                     == ObservedAfter(loop.follow.attachment.value.observed, input, loop.view.runID)
                  && SinceOf(r.loop.follow.pending) == HeldAfter(SinceOf(loop.follow.pending), input, loop.view.runID))
  {
    if input.Poll? {
      FollowedPoll(config, loop, input);
      var view := PolledView(loop, input);
      EmitsToOpenBrowser(loop.shown, ProjectionOf(config, view, loop.follow.usage), ActivityOf(config, view));
    } else if input.Output? && Follows(loop.follow, TrimSpace(input.runID)) {
      FollowedOutput(config, loop, input.event);
    }
  }

  /** Readable output of the followed run is counted, and nothing ends. */
  lemma FollowedOutput(config: Config, loop: Loop, event: RunOutputEvent)
    requires FollowsOpen(loop) && Readable(event)
    ensures var r := OnOutput(config, loop, event);
            && r.exit.Live? && FollowsOpen(r.loop) && r.loop.view == loop.view
            && r.loop.follow.pending == loop.follow.pending
            && r.loop.follow.attachment.value.observed == (loop.follow.attachment.value.observed || IsTerminal(event))
  {
  }

  /** The loop follows the run it followed, with what it has observed and held back since. */
  predicate StillFollows(first: Loop, loop: Loop, inputs: seq<Input>)
    requires FollowsOpen(first)
  {
    && FollowsOpen(loop) && loop.view.runID == first.view.runID
    && loop.follow.attachment.value.observed
       == ObservedFrom(first.follow.attachment.value.observed, inputs, first.view.runID)
    && SinceOf(loop.follow.pending) == HeldFrom(SinceOf(first.follow.pending), inputs, first.view.runID)
  }

  lemma DueAtPrefix(follow: Follow, inputs: seq<Input>, runID: string, n: nat, k: nat)
    requires follow.attachment.Some? && |inputs| == n + 1 && k < n
    ensures DueAt(follow, inputs[..n], runID, k) <==> DueAt(follow, inputs, runID, k)
  {
    assert inputs[..n][..k] == inputs[..k];
  }

  lemma {:induction false} FollowedFinishesIff(config: Config, first: Result, inputs: seq<Input>)
    requires first.exit.Live? && FollowsOpen(first.loop)
    requires forall input <- inputs :: KeepsFollowing(input, first.loop.view.runID)
    ensures var r := RunFrom(config, first, inputs);
            && (r.exit.Finished? <==> exists k: nat :: DueAt(first.loop.follow, inputs, first.loop.view.runID, k))
            && (!r.exit.Finished? ==> r.exit.Live? && StillFollows(first.loop, r.loop, inputs))
  {
    if inputs != [] {
      var n, follow, runID := |inputs| - 1, first.loop.follow, first.loop.view.runID;
      assert inputs[n] in inputs && forall input <- inputs[..n] :: input in inputs;
      FollowedFinishesIff(config, first, inputs[..n]);
      forall k: nat | k < n ensures DueAt(follow, inputs[..n], runID, k) <==> DueAt(follow, inputs, runID, k) {
        DueAtPrefix(follow, inputs, runID, n, k);
      }
      var before := RunFrom(config, first, inputs[..n]);
      if before.exit.Live? {
        FollowedStep(config, before.loop, inputs[n]);
        assert DueAt(follow, inputs, runID, n) <==>
               before.loop.follow.attachment.value.observed
                 && WaitedAt(SinceOf(before.loop.follow.pending), inputs[n], runID);
      }
    }
  }

  lemma {:induction false} RunFromConcat(config: Config, first: Result, before: seq<Input>, inputs: seq<Input>)
    ensures RunFrom(config, first, before + inputs) == RunFrom(config, RunFrom(config, first, before), inputs)
  {
    if inputs == [] {
      assert before + inputs == before;
    } else {
      var n := |inputs| - 1;
      assert (before + inputs)[..|before| + n] == before + inputs[..n];
      RunFromConcat(config, first, before, inputs[..n]);
    }
  }

  lemma PollKeepsCapacity(config: Config, loop: Loop, view: View, now: int)
    ensures OnPolled(config, loop, view, now).loop.shown.capacity == loop.shown.capacity
  {
  }

  lemma OutputKeepsCapacity(config: Config, loop: Loop, event: RunOutputEvent)
    requires loop.follow.attachment.Some?
    ensures OnOutput(config, loop, event).loop.shown.capacity == loop.shown.capacity
  {
  }

  lemma StepKeepsCapacity(config: Config, loop: Loop, input: Input)
    ensures Step(config, loop, input).loop.shown.capacity == loop.shown.capacity
  {
    match input
    case Poll(now, _, _, _) =>
      if !PollFails(loop, input) {
        PollKeepsCapacity(config, loop, PolledView(loop, input), now);
      }
    case Output(runID, event) =>
      if Follows(loop.follow, TrimSpace(runID)) {
        OutputKeepsCapacity(config, loop, event);
      }
    case _ =>
  }

  lemma {:induction false} RunKeepsCapacity(config: Config, first: Result, inputs: seq<Input>)
    ensures RunFrom(config, first, inputs).loop.shown.capacity == first.loop.shown.capacity
  {
    if inputs != [] {
      RunKeepsCapacity(config, first, inputs[..|inputs| - 1]);
      StepKeepsCapacity(config, RunFrom(config, first, inputs[..|inputs| - 1]).loop, inputs[|inputs| - 1]);
    }
  }

  /**
   * From any live point of a run that follows the run it names, and for as
   * long as it goes on following it: the terminal event comes out if and only
   * if at some poll the turn is over, the stream's terminal result has been
   * received before, and the event has been held back for the whole wait.
   */
  lemma FollowedRunFinishesIff(config: Config, view: View, now: int, before: seq<Input>, inputs: seq<Input>)
    requires var head := Run(config, view, None, now, before);
             && head.exit.Live? && Follows(head.loop.follow, head.loop.view.runID)
             && forall input <- inputs :: KeepsFollowing(input, head.loop.view.runID)
    ensures var head := Run(config, view, None, now, before);
            Run(config, view, None, now, before + inputs).exit.Finished?
            <==> exists k: nat :: DueAt(head.loop.follow, inputs, head.loop.view.runID, k)
  {
    RunFromConcat(config, Start(config, view, None, now), before, inputs);
    RunKeepsCapacity(config, Start(config, view, None, now), before);
    FollowedFinishesIff(config, Run(config, view, None, now, before), inputs);
  }

  // ---------------------------------------------------------------- when it never does

  predicate Waiting(loop: Loop) { Follows(loop.follow, loop.view.runID) && !loop.follow.attachment.value.observed }

  lemma UneventfulStep(config: Config, loop: Loop, input: Input)
    requires Waiting(loop) && NothingNew(input, loop.view.runID)
    ensures var r := Step(config, loop, input);
            !r.exit.Finished? && (r.exit.Live? ==> Waiting(r.loop) && r.loop.view.runID == loop.view.runID)
  {
    if input.Poll? && !PollFails(loop, input) {
      var view := PolledView(loop, input);
      assert Refollowed(config.hasOutputs, loop.view.runID, loop.follow, view) == loop.follow;
      var wrote := EmitSnapshots(loop.shown, ProjectionOf(config, view, loop.follow.usage), ActivityOf(config, view));
      SettleGate(loop.follow, wrote.shown, TerminalOf(config, view), input.now);
    }
  }

  lemma {:induction false} WaitingStays(config: Config, first: Result, inputs: seq<Input>)
    requires first.exit.Live? && Waiting(first.loop)
    requires forall input <- inputs :: NothingNew(input, first.loop.view.runID)
    ensures var r := RunFrom(config, first, inputs);
            !r.exit.Finished? && (r.exit.Live? ==> Waiting(r.loop) && r.loop.view.runID == first.loop.view.runID)
  {
    if inputs != [] {
      var n := |inputs| - 1;
      assert inputs[n] in inputs && forall input <- inputs[..n] :: input in inputs;
      WaitingStays(config, first, inputs[..n]);
      var before := RunFrom(config, first, inputs[..n]);
      if before.exit.Live? {
        UneventfulStep(config, before.loop, inputs[n]);
      }
    }
  }

  /**
   * A stream that ends cleanly without a terminal result posts nothing to the
   * loop: from then on no polls, answered or failing, and whatever the browser
   * takes, let the terminal event out.
   */
  lemma CleanEndWaitsForever(config: Config, view: View, capacity: Option<nat>, now: int, before: seq<Input>,
                             inputs: seq<Input>)
    requires var head := Run(config, view, capacity, now, before);
             head.exit.Live? && Waiting(head.loop) && forall input <- inputs :: NothingNew(input, head.loop.view.runID)
    ensures !Run(config, view, capacity, now, before + inputs).exit.Finished?
  {
    RunFromConcat(config, Start(config, view, capacity, now), before, inputs);
    WaitingStays(config, Run(config, view, capacity, now, before), inputs);
  }

  const DONE_ACTION := ActionState("t", "a", Some(ActionStatus(Succeeded, "r", "", "", "", false, false, 0, 0, 0)))
  const DONE_RUN := RunState("r", [], None)

  function DonePolls(times: seq<int>): (inputs: seq<Input>)
    ensures |inputs| == |times| && forall input <- inputs :: exists now <- times :: input == DonePoll(now)
  {
    seq(|times|, i requires 0 <= i < |times| => DonePoll(times[i]))
  }

  function DonePoll(now: int): Input { Poll(now, Answer(None), Answer(Some(DONE_ACTION)), RunFound(Some(DONE_RUN))) }

  lemma {:induction false} HeldThroughout(since: int, inputs: seq<Input>, runID: string)
    requires forall input <- inputs :: ReportsOver(input, runID)
    ensures HeldFrom(Some(since), inputs, runID) == Some(since)
  {
    if inputs != [] {
      assert inputs[|inputs| - 1] in inputs && forall input <- inputs[..|inputs| - 1] :: input in inputs;
      HeldThroughout(since, inputs[..|inputs| - 1], runID);
    }
  }

  lemma {:induction false} NothingObserved(inputs: seq<Input>, runID: string)
    requires forall input <- inputs :: input.Poll?
    ensures forall k: nat :: k <= |inputs| ==> !ObservedFrom(false, inputs[..k], runID)
  {
    forall k: nat | k <= |inputs| ensures !ObservedFrom(false, inputs[..k], runID) {
      if k > 0 {
        var before := inputs[..k - 1];
        assert forall input <- before :: input in inputs;
        NothingObserved(before, runID);
        assert before[..k - 1] == before && inputs[..k][..k - 1] == before && inputs[k - 1] in inputs;
      }
    }
  }

  /** It happens: the turn is over from the start, and however often and late it is polled, its event is held back. */
  lemma WithheldForever(config: Config, now: int, times: seq<int>)
    requires config.hasOutputs
    ensures var view := View(None, Some(DONE_ACTION), Some(DONE_RUN), "r");
            var r := Run(config, view, None, now, DonePolls(times));
            && TerminalOf(config, view).Some?
            && r.exit.Live? && r.loop.follow.pending.Some? && r.loop.follow.pending.value.since == now
  {
    var view := View(None, Some(DONE_ACTION), Some(DONE_RUN), "r");
    var first := Start(config, view, None, now);
    TrimSpaceTrims("r");
    assert Trimmed("r");
    EmitsToOpenBrowser(Shown([], None, None, None), ProjectionOf(config, view, NEW_USAGE), ActivityOf(config, view));
    FollowedFinishesIff(config, first, DonePolls(times));
    NothingObserved(DonePolls(times), "r");
    HeldThroughout(now, DonePolls(times), "r");
  }
}
