/** What the run lifecycle loop passes on to the browser while it keeps following one run. */
module RunLifecycleOutput {
  import opened Text
  import opened RunOutputEvents
  import opened AguiState
  import opened AguiConsumer
  import opened AguiResume
  import opened RunLifecycle
  import opened RunLifecycleProofs
  import opened RunLifecycleGate
  import opened RunLifecycleWaiting

  // ---------------------------------------------------------------- what was passed on

  function Payloads(frames: seq<Frame>): seq<string> {
    if frames == [] then [] else
    var n := |frames| - 1;
    Payloads(frames[..n]) + if frames[n].OutputFrame? then [frames[n].payload] else []
  }

  function KeepAlives(frames: seq<Frame>): nat {
    if frames == [] then 0 else
    var n := |frames| - 1;
    KeepAlives(frames[..n]) + if frames[n].KeepAlive? then 1 else 0
  }

  /** Nothing but snapshots and terminal events has been written in between. */
  predicate PassesNothing(before: Shown, after: Shown) {
    Payloads(after.frames) == Payloads(before.frames) && KeepAlives(after.frames) == KeepAlives(before.frames)
  }

  lemma WritePasses(shown: Shown, frame: Frame)
    requires CanWrite(shown)
    ensures var w := Write(shown, frame).shown;
            && Payloads(w.frames) == Payloads(shown.frames) + (if frame.OutputFrame? then [frame.payload] else [])
            && KeepAlives(w.frames) == KeepAlives(shown.frames) + if frame.KeepAlive? then 1 else 0
  {
    assert (shown.frames + [frame])[..|shown.frames|] == shown.frames;
  }

  lemma OtherWrite(shown: Shown, frame: Frame)
    requires !frame.OutputFrame? && !frame.KeepAlive?
    ensures PassesNothing(shown, Write(shown, frame).shown)
  {
    if CanWrite(shown) {
      WritePasses(shown, frame);
    }
  }

  lemma SnapshotsPassNothing(shown: Shown, projection: Projection, activity: Option<Activity>)
    ensures PassesNothing(shown, EmitProjection(shown, projection).shown)
    ensures PassesNothing(shown, EmitSnapshots(shown, projection, activity).shown)
  {
    OtherWrite(shown.(lastProjection := Some(projection)), StateSnapshot(projection));
    var projected := EmitProjection(shown, projection).shown;
    if activity.Some? {
      OtherWrite(projected.(lastActivity := activity), ActivitySnapshot(activity.value));
    }
  }

  lemma TerminalPassesNothing(follow: Follow, shown: Shown, terminal: Option<TerminalEvent>, now: int)
    ensures PassesNothing(shown, Settle(follow, shown, terminal, now).shown)
    ensures PassesNothing(shown, Opening(follow, shown, terminal, now).shown)
    ensures terminal.Some? ==> PassesNothing(shown, WriteTerminal(follow, shown, terminal.value).shown)
  {
    if terminal.Some? {
      OtherWrite(shown, TerminalFrame(terminal.value));
    }
  }

  lemma PollPassesNothing(config: Config, loop: Loop, view: View, now: int)
    ensures PassesNothing(loop.shown, OnPolled(config, loop, view, now).loop.shown)
  {
    var follow := Refollowed(config.hasOutputs, loop.view.runID, loop.follow, view);
    var projection, activity := ProjectionOf(config, view, follow.usage), ActivityOf(config, view);
    SnapshotsPassNothing(loop.shown, projection, activity);
    TerminalPassesNothing(follow, EmitSnapshots(loop.shown, projection, activity).shown, TerminalOf(config, view), now);
  }

  // ---------------------------------------------------------------- the documents of a run

  /** The input is an output document of the run. */
  predicate IsDocument(input: Input, runID: string) {
    input.Output? && TrimSpace(input.runID) == runID && HasDocument(input.event)
  }

  /** Not numbered, or numbered above the cursor and above every earlier document of the run. */
  predicate IsNew(inputs: seq<Input>, runID: string, cursor: nat, i: nat)
    requires i < |inputs| && IsDocument(inputs[i], runID)
  {
    var sequence := SequenceOf(inputs[i].event);
    || sequence == 0
    || (sequence > cursor
        && forall j: nat :: j < i && IsDocument(inputs[j], runID) ==> SequenceOf(inputs[j].event) < sequence)
  }

  /** A new document of the run the browser is meant to see. */
  predicate IsWanted(inputs: seq<Input>, runID: string, cursor: nat, i: nat) {
    && i < |inputs| && IsDocument(inputs[i], runID) && IsNew(inputs, runID, cursor, i)
    && TrimSpace(DocumentOf(inputs[i].event).typeName) != "MESSAGES_SNAPSHOT"
  }

  predicate IsBroken(inputs: seq<Input>, runID: string, cursor: nat, i: nat) {
    IsWanted(inputs, runID, cursor, i) && !DocumentOf(inputs[i].event).decodes
  }

  function WantedPayloads(inputs: seq<Input>, runID: string, cursor: nat): seq<string> {
    if inputs == [] then [] else
    var n := |inputs| - 1;
    WantedPayloads(inputs[..n], runID, cursor)
    + if IsWanted(inputs, runID, cursor, n) then [DocumentOf(inputs[n].event).payload] else []
  }

  /** `highest` is the highest number seen so far. */
  predicate Highest(inputs: seq<Input>, runID: string, cursor: nat, highest: nat) {
    && cursor <= highest
    && (forall j: nat :: j < |inputs| && IsDocument(inputs[j], runID) ==> SequenceOf(inputs[j].event) <= highest)
    && (highest == cursor
        || exists j: nat :: j < |inputs| && IsDocument(inputs[j], runID) && SequenceOf(inputs[j].event) == highest)
  }

  /** Anything but cancellation, a failure of the run's own stream or of a poll, and polls naming another run. */
  predicate StaysWith(input: Input, runID: string) {
    || (NothingNew(input, runID) && (input.Poll? ==> !input.run.RunFailure?))
    || input.Output?
    || (input.OutputFailed? && TrimSpace(input.runID) != runID)
  }

  // ---------------------------------------------------------------- one output

  predicate Wants(cursor: nat, event: RunOutputEvent) {
    && HasDocument(event) && (SequenceOf(event) == 0 || SequenceOf(event) > cursor)
    && TrimSpace(DocumentOf(event).typeName) != "MESSAGES_SNAPSHOT"
  }

  lemma AppliesWanted(cursor: nat, event: RunOutputEvent)
    ensures var applied := ApplyOutput(cursor, event);
            && (applied.failed <==> Wants(cursor, event) && !DocumentOf(event).decodes)
            && applied.forwarded
               == (if Wants(cursor, event) && DocumentOf(event).decodes then Some(DocumentOf(event)) else None)
            && applied.lastSequence
               == if HasDocument(event) && SequenceOf(event) > cursor then SequenceOf(event) else cursor
  {
  }

  lemma OneOutput(config: Config, loop: Loop, event: RunOutputEvent)
    requires FollowsOpen(loop)
    ensures var cursor, r := loop.follow.attachment.value.lastSequence, OnOutput(config, loop, event);
            && (r.exit == if Wants(cursor, event) && !DocumentOf(event).decodes then Aborted else Live)
            && Payloads(r.loop.shown.frames)
               == Payloads(loop.shown.frames)
                  + (if Wants(cursor, event) && DocumentOf(event).decodes then [DocumentOf(event).payload] else [])
  {
    var cursor := loop.follow.attachment.value.lastSequence;
    AppliesWanted(cursor, event);
    var applied := ApplyOutput(cursor, event);
    if applied.forwarded.Some? {
      WritePasses(loop.shown, OutputFrame(applied.forwarded.value.payload));
    }
    var wrote := Forward(loop.shown, applied.forwarded).shown;
    assert wrote.capacity.None?;
    SnapshotsPassNothing(wrote, ProjectionOf(config, loop.view, ApplyUsage(loop.follow.usage, event)), None);
  }

  lemma OneOutputFollows(config: Config, loop: Loop, event: RunOutputEvent)
    requires FollowsOpen(loop)
    ensures var cursor, r := loop.follow.attachment.value.lastSequence, OnOutput(config, loop, event);
            r.exit.Live? ==>
              && FollowsOpen(r.loop) && r.loop.view == loop.view && r.loop.follow.pending == loop.follow.pending
              && r.loop.follow.attachment.value.observed == (loop.follow.attachment.value.observed || IsTerminal(event))
              && r.loop.follow.attachment.value.lastSequence
                 == if HasDocument(event) && SequenceOf(event) > cursor then SequenceOf(event) else cursor
  {
    AppliesWanted(loop.follow.attachment.value.lastSequence, event);
  }

  lemma NewIff(inputs: seq<Input>, runID: string, cursor: nat, n: nat, highest: nat)
    requires |inputs| == n + 1 && Highest(inputs[..n], runID, cursor, highest)
    ensures IsDocument(inputs[n], runID) ==>
              (IsNew(inputs, runID, cursor, n)
               <==> SequenceOf(inputs[n].event) == 0 || SequenceOf(inputs[n].event) > highest)
    ensures Highest(inputs, runID, cursor,
                    if IsDocument(inputs[n], runID) && SequenceOf(inputs[n].event) > highest
                    then SequenceOf(inputs[n].event) else highest)
  {
    assert forall j: nat :: j < n ==> inputs[..n][j] == inputs[j];
    if highest != cursor {
      var j: nat :| j < n && IsDocument(inputs[..n][j], runID) && SequenceOf(inputs[..n][j].event) == highest;
      assert IsDocument(inputs[j], runID) && SequenceOf(inputs[j].event) == highest;
    }
  }

  lemma PrefixWants(inputs: seq<Input>, runID: string, cursor: nat, n: nat, i: nat)
    requires i < n <= |inputs|
    ensures IsWanted(inputs[..n], runID, cursor, i) <==> IsWanted(inputs, runID, cursor, i)
    ensures IsBroken(inputs[..n], runID, cursor, i) <==> IsBroken(inputs, runID, cursor, i)
  {
    assert forall j: nat :: j <= i ==> inputs[..n][j] == inputs[j];
  }

  // ---------------------------------------------------------------- the whole stretch

  /** The loop after inputs that left it live: what it has passed on, seen, observed and held back. */
  predicate PassedOn(first: Loop, loop: Loop, inputs: seq<Input>)
    requires FollowsOpen(first)
  {
    var runID, cursor := first.view.runID, first.follow.attachment.value.lastSequence;
    && StillFollows(first, loop, inputs)
    && Highest(inputs, runID, cursor, loop.follow.attachment.value.lastSequence)
    && Payloads(loop.shown.frames) == Payloads(first.shown.frames) + WantedPayloads(inputs, runID, cursor)
  }

  /** Input n ends the loop: a wanted document that does not decode, or a poll at which the terminal event is due. */
  predicate EndsAt(first: Loop, inputs: seq<Input>, n: nat)
    requires FollowsOpen(first)
  {
    || IsBroken(inputs, first.view.runID, first.follow.attachment.value.lastSequence, n)
    || DueAt(first.follow, inputs, first.view.runID, n)
  }

  /** What input n does to a loop that all inputs before it have left live. */
  lemma NextInput(config: Config, first: Loop, loop: Loop, inputs: seq<Input>, n: nat)
    requires FollowsOpen(first) && |inputs| == n + 1 && PassedOn(first, loop, inputs[..n])
    requires StaysWith(inputs[n], first.view.runID)
    ensures var r := Step(config, loop, inputs[n]);
            && (EndsAt(first, inputs, n) ==>
                  && r.exit == (if inputs[n].Poll? then Finished else Aborted)
                  && Payloads(r.loop.shown.frames) == Payloads(loop.shown.frames))
            && (!EndsAt(first, inputs, n) ==> r.exit.Live? && PassedOn(first, r.loop, inputs))
  {
    var runID, cursor := first.view.runID, first.follow.attachment.value.lastSequence;
    var highest := loop.follow.attachment.value.lastSequence;
    NewIff(inputs, runID, cursor, n, highest);
    assert DueAt(first.follow, inputs, runID, n) <==>
           loop.follow.attachment.value.observed && WaitedAt(SinceOf(loop.follow.pending), inputs[n], runID);
    match inputs[n]
    case Poll(_, _, _, _) =>
      PollStays(config, first, loop, inputs, n);
    case Heartbeat =>
      WritePasses(loop.shown, KeepAlive);
    case Output(_, _) =>
      OutputStays(config, first, loop, inputs, n);
    case _ =>
  }

  lemma OutputStays(config: Config, first: Loop, loop: Loop, inputs: seq<Input>, n: nat)
    requires FollowsOpen(first) && |inputs| == n + 1 && PassedOn(first, loop, inputs[..n]) && inputs[n].Output?
    ensures var r := Step(config, loop, inputs[n]);
            && (EndsAt(first, inputs, n) ==>
                  r.exit.Aborted? && Payloads(r.loop.shown.frames) == Payloads(loop.shown.frames))
            && (!EndsAt(first, inputs, n) ==> r.exit.Live? && PassedOn(first, r.loop, inputs))
  {
    var runID := first.view.runID;
    NewIff(inputs, runID, first.follow.attachment.value.lastSequence, n, loop.follow.attachment.value.lastSequence);
    assert !WaitedAt(SinceOf(loop.follow.pending), inputs[n], runID);
    if TrimSpace(inputs[n].runID) == runID {
      RunOutputStays(config, first, loop, inputs, n);
    } else {
      assert Step(config, loop, inputs[n]) == Result(loop, Live);
    }
  }

  /** What the last input adds to the wanted payloads, by the highest number seen before it. */
  lemma WantedMore(inputs: seq<Input>, runID: string, cursor: nat, n: nat, highest: nat)
    requires |inputs| == n + 1 && Highest(inputs[..n], runID, cursor, highest)
    requires inputs[n].Output? && TrimSpace(inputs[n].runID) == runID
    ensures IsWanted(inputs, runID, cursor, n) <==> Wants(highest, inputs[n].event)
    ensures WantedPayloads(inputs, runID, cursor)
            == WantedPayloads(inputs[..n], runID, cursor)
               + if Wants(highest, inputs[n].event) then [DocumentOf(inputs[n].event).payload] else []
  {
    NewIff(inputs, runID, cursor, n, highest);
  }

  /** The loop has taken a document or a terminal result of its run, as OneOutput says. */
  predicate TookOutput(loop: Loop, event: RunOutputEvent, r: Result)
    requires FollowsOpen(loop)
  {
    var cursor := loop.follow.attachment.value.lastSequence;
    && (r.exit == if Wants(cursor, event) && !DocumentOf(event).decodes then Aborted else Live)
    && Payloads(r.loop.shown.frames)
       == Payloads(loop.shown.frames)
          + (if Wants(cursor, event) && DocumentOf(event).decodes then [DocumentOf(event).payload] else [])
    && (r.exit.Live? ==>
          && FollowsOpen(r.loop) && r.loop.view == loop.view && r.loop.follow.pending == loop.follow.pending
          && r.loop.follow.attachment.value.observed == (loop.follow.attachment.value.observed || IsTerminal(event))
          && r.loop.follow.attachment.value.lastSequence
             == if HasDocument(event) && SequenceOf(event) > cursor then SequenceOf(event) else cursor)
  }

  lemma TakenOutputStays(first: Loop, loop: Loop, inputs: seq<Input>, n: nat, r: Result)
    requires FollowsOpen(first) && |inputs| == n + 1 && PassedOn(first, loop, inputs[..n])
    requires inputs[n].Output? && TrimSpace(inputs[n].runID) == first.view.runID
    requires TookOutput(loop, inputs[n].event, r)
    ensures var broken := IsBroken(inputs, first.view.runID, first.follow.attachment.value.lastSequence, n);
            && (broken ==> r.exit.Aborted? && Payloads(r.loop.shown.frames) == Payloads(loop.shown.frames))
            && (!broken ==> r.exit.Live? && PassedOn(first, r.loop, inputs))
  {
    var runID, cursor := first.view.runID, first.follow.attachment.value.lastSequence;
    var highest := loop.follow.attachment.value.lastSequence;
    WantedMore(inputs, runID, cursor, n, highest);
    NewIff(inputs, runID, cursor, n, highest);
  }

  lemma RunOutputStays(config: Config, first: Loop, loop: Loop, inputs: seq<Input>, n: nat)
    requires FollowsOpen(first) && |inputs| == n + 1 && PassedOn(first, loop, inputs[..n])
    requires inputs[n].Output? && TrimSpace(inputs[n].runID) == first.view.runID
    ensures var r := Step(config, loop, inputs[n]);
            var broken := IsBroken(inputs, first.view.runID, first.follow.attachment.value.lastSequence, n);
            && (broken ==> r.exit.Aborted? && Payloads(r.loop.shown.frames) == Payloads(loop.shown.frames))
            && (!broken ==> r.exit.Live? && PassedOn(first, r.loop, inputs))
  {
    OneOutput(config, loop, inputs[n].event);
    OneOutputFollows(config, loop, inputs[n].event);
    TakenOutputStays(first, loop, inputs, n, OnOutput(config, loop, inputs[n].event));
  }

  lemma PollStays(config: Config, first: Loop, loop: Loop, inputs: seq<Input>, n: nat)
    requires FollowsOpen(first) && |inputs| == n + 1 && PassedOn(first, loop, inputs[..n])
    requires StaysWith(inputs[n], first.view.runID) && inputs[n].Poll?
    ensures var r := Step(config, loop, inputs[n]);
            && (EndsAt(first, inputs, n) ==>
                  r.exit.Finished? && Payloads(r.loop.shown.frames) == Payloads(loop.shown.frames))
            && (!EndsAt(first, inputs, n) ==> r.exit.Live? && PassedOn(first, r.loop, inputs))
  {
    var runID, cursor := first.view.runID, first.follow.attachment.value.lastSequence;
    NewIff(inputs, runID, cursor, n, loop.follow.attachment.value.lastSequence);
    FollowedStep(config, loop, inputs[n]);
    FollowedPoll(config, loop, inputs[n]);
    var view := PolledView(loop, inputs[n]);
    PollPassesNothing(config, loop, view, inputs[n].now);
    PollKeepsAttachment(config, loop, inputs[n]);
    assert DueAt(first.follow, inputs, runID, n) <==>
           loop.follow.attachment.value.observed && WaitedAt(SinceOf(loop.follow.pending), inputs[n], runID);
  }

  /** A poll that keeps naming the run leaves the attachment alone. */
  lemma PollKeepsAttachment(config: Config, loop: Loop, input: Input)
    requires FollowsOpen(loop) && input.Poll? && KeepsFollowing(input, loop.view.runID)
    ensures Step(config, loop, input).loop.follow.attachment == loop.follow.attachment
  {
    FollowedPoll(config, loop, input);
  }

  /** Input n is the first that ends the loop, if any does; `r` is the loop after all inputs. */
  predicate Stretch(first: Loop, r: Result, inputs: seq<Input>, n: nat)
    requires FollowsOpen(first)
  {
    && n <= |inputs| && (forall k: nat :: k < n ==> !EndsAt(first, inputs, k))
    && (n < |inputs| ==> EndsAt(first, inputs, n))
    && r.exit == (if n == |inputs| then Live else if inputs[n].Poll? then Finished else Aborted)
    && Payloads(r.loop.shown.frames)
       == Payloads(first.shown.frames)
          + WantedPayloads(inputs[..n], first.view.runID, first.follow.attachment.value.lastSequence)
    && (n == |inputs| ==> PassedOn(first, r.loop, inputs))
  }

  lemma PrefixEndsAt(first: Loop, inputs: seq<Input>, m: nat)
    requires FollowsOpen(first) && |inputs| == m + 1
    ensures forall k: nat :: k < m ==> (EndsAt(first, inputs[..m], k) <==> EndsAt(first, inputs, k))
  {
    forall k: nat | k < m ensures EndsAt(first, inputs[..m], k) <==> EndsAt(first, inputs, k) {
      PrefixWants(inputs, first.view.runID, first.follow.attachment.value.lastSequence, m, k);
      DueAtPrefix(first.follow, inputs, first.view.runID, m, k);
    }
  }

  lemma EndedStays(first: Loop, r: Result, inputs: seq<Input>, m: nat, n: nat)
    requires FollowsOpen(first) && |inputs| == m + 1 && n < m && Stretch(first, r, inputs[..m], n)
    ensures Stretch(first, r, inputs, n)
  {
    PrefixEndsAt(first, inputs, m);
    assert inputs[..m][..n] == inputs[..n] && inputs[..m][n] == inputs[n];
  }

  lemma StretchGrows(config: Config, first: Loop, r: Result, inputs: seq<Input>, m: nat)
    requires FollowsOpen(first) && |inputs| == m + 1 && Stretch(first, r, inputs[..m], m)
    requires StaysWith(inputs[m], first.view.runID)
    ensures Stretch(first, Step(config, r.loop, inputs[m]), inputs, if EndsAt(first, inputs, m) then m else m + 1)
  {
    PrefixEndsAt(first, inputs, m);
    NextInput(config, first, r.loop, inputs, m);
    assert inputs[..m + 1] == inputs && inputs[..m][..m] == inputs[..m];
  }

  lemma {:induction false} PassesOn(config: Config, first: Result, inputs: seq<Input>) returns (n: nat)
    requires first.exit.Live? && FollowsOpen(first.loop)
    requires forall input <- inputs :: StaysWith(input, first.loop.view.runID)
    ensures Stretch(first.loop, RunFrom(config, first, inputs), inputs, n)
  {
    if inputs == [] {
      n := 0;
    } else {
      var m := |inputs| - 1;
      assert inputs[m] in inputs && forall input <- inputs[..m] :: input in inputs;
      n := PassesOn(config, first, inputs[..m]);
      var r := RunFrom(config, first, inputs[..m]);
      if n == m {
        StretchGrows(config, first.loop, r, inputs, m);
        n := if EndsAt(first.loop, inputs, m) then m else m + 1;
      } else {
        EndedStays(first.loop, r, inputs, m, n);
      }
    }
  }

  /** How a stretch ended tells which kind of input ended it. */
  lemma StretchSays(first: Loop, r: Result, inputs: seq<Input>, n: nat)
    requires FollowsOpen(first) && Stretch(first, r, inputs, n)
    ensures var runID, cursor := first.view.runID, first.follow.attachment.value.lastSequence;
            && (forall k: nat :: k < n ==>
                !IsBroken(inputs, runID, cursor, k) && !DueAt(first.follow, inputs, runID, k))
            && (n == |inputs| ==>
                  && r.exit.Live? && Follows(r.loop.follow, runID)
                  && Highest(inputs, runID, cursor, r.loop.follow.attachment.value.lastSequence))
            && (n < |inputs| ==>
                  || (IsBroken(inputs, runID, cursor, n) && r.exit.Aborted?)
                  || (DueAt(first.follow, inputs, runID, n) && r.exit.Finished?))
  {
    forall k: nat | k < n
      ensures !IsBroken(inputs, first.view.runID, first.follow.attachment.value.lastSequence, k)
      ensures !DueAt(first.follow, inputs, first.view.runID, k)
    {
      assert !EndsAt(first, inputs, k);
    }
  }

  /**
   * From any live point of a run that follows the run it names, with an open
   * browser: input n is the first that is a new document of the run the
   * browser should see and that does not decode, or a poll at which the
   * terminal event is due. It ends the loop, and up to it the payloads of the
   * documents of the run have been passed on in order: every one once, but
   * for message snapshots and for numbers at or below one seen before.
   */
  lemma DocumentsArePassedOn(config: Config, view: View, now: int, before: seq<Input>, inputs: seq<Input>,
                             head: Result, after: Result)
    returns (n: nat)
    requires head == Run(config, view, None, now, before) && after == Run(config, view, None, now, before + inputs)
    requires head.exit.Live? && Follows(head.loop.follow, head.loop.view.runID)
    requires forall input <- inputs :: StaysWith(input, head.loop.view.runID)
    ensures n <= |inputs|
    ensures var follow, runID := head.loop.follow, head.loop.view.runID;
            var cursor := follow.attachment.value.lastSequence;
            && Payloads(after.loop.shown.frames)
               == Payloads(head.loop.shown.frames) + WantedPayloads(inputs[..n], runID, cursor)
            && (forall k: nat :: k < n ==> !IsBroken(inputs, runID, cursor, k) && !DueAt(follow, inputs, runID, k))
            && (n == |inputs| ==>
                  && after.exit.Live? && Follows(after.loop.follow, runID)
                  && Highest(inputs, runID, cursor, after.loop.follow.attachment.value.lastSequence))
            && (n < |inputs| ==>
                  || (IsBroken(inputs, runID, cursor, n) && after.exit.Aborted?)
                  || (DueAt(follow, inputs, runID, n) && after.exit.Finished?))
  {
    RunFromConcat(config, Start(config, view, None, now), before, inputs);
    RunKeepsCapacity(config, Start(config, view, None, now), before);
    n := PassesOn(config, head, inputs);
    StretchSays(head.loop, after, inputs, n);
  }

  // ---------------------------------------------------------------- usage

  /** The output events of the run, in order. */
  function EventsOf(inputs: seq<Input>, runID: string): seq<RunOutputEvent> {
    if inputs == [] then [] else
    var n := |inputs| - 1;
    EventsOf(inputs[..n], runID)
    + if inputs[n].Output? && TrimSpace(inputs[n].runID) == runID then [inputs[n].event] else []
  }

  /** The loop has counted what a consumer of these events counts. */
  predicate Counts(loop: Loop, runID: string, c: Consumer) {
    && FollowsOpen(loop) && loop.view.runID == runID && !c.failed
    && loop.follow.attachment.value.lastSequence == c.lastSequence && loop.follow.usage == c.usage
  }

  lemma StepCounts(config: Config, loop: Loop, input: Input, c: Consumer)
    requires Counts(loop, loop.view.runID, c) && StaysWith(input, loop.view.runID)
    ensures var r := Step(config, loop, input);
            r.exit.Live? ==>
              Counts(r.loop, loop.view.runID,
                     if input.Output? && TrimSpace(input.runID) == loop.view.runID then Consume(c, input.event) else c)
  {
    match input
    case Poll(_, _, _, _) =>
      FollowedPoll(config, loop, input);
      FollowedStep(config, loop, input);
      PollKeepsAttachment(config, loop, input);
    case Output(raw, event) =>
      if TrimSpace(raw) == loop.view.runID {
        AppliesWanted(c.lastSequence, event);
        OneOutput(config, loop, event);
        OneOutputFollows(config, loop, event);
      }
    case _ =>
  }

  lemma {:induction false} LoopConsumes(config: Config, first: Result, inputs: seq<Input>)
    requires first.exit.Live? && Counts(first.loop, first.loop.view.runID, NEW_CONSUMER)
    requires forall input <- inputs :: StaysWith(input, first.loop.view.runID)
    ensures var r := RunFrom(config, first, inputs);
            r.exit.Live? ==>
              Counts(r.loop, first.loop.view.runID, ConsumeAll(EventsOf(inputs, first.loop.view.runID)))
  {
    if inputs != [] {
      var n, runID := |inputs| - 1, first.loop.view.runID;
      assert inputs[n] in inputs && forall input <- inputs[..n] :: input in inputs;
      LoopConsumes(config, first, inputs[..n]);
      var before := RunFrom(config, first, inputs[..n]);
      if before.exit.Live? {
        var events := EventsOf(inputs[..n], runID);
        StepCounts(config, before.loop, inputs[n], ConsumeAll(events));
        if inputs[n].Output? && TrimSpace(inputs[n].runID) == runID {
          ConsumeAllAppend(events, inputs[n].event);
        } else {
          assert EventsOf(inputs, runID) == events;
        }
      }
    }
  }

  /**
   * From a freshly attached stream on, the state last shown to the browser
   * carries the latest usage: model and context from the run's last call
   * report, counters from its last turn report, tokens from the last of
   * either.
   */
  lemma LatestUsageIsShown(config: Config, view: View, now: int, before: seq<Input>, inputs: seq<Input>,
                           head: Result, after: Result)
    requires head == Run(config, view, None, now, before) && after == Run(config, view, None, now, before + inputs)
    requires head.exit.Live? && Follows(head.loop.follow, head.loop.view.runID)
    requires head.loop.follow.attachment.value.lastSequence == 0 && head.loop.follow.usage == NEW_USAGE
    requires forall input <- inputs :: StaysWith(input, head.loop.view.runID)
    requires NumberedReports(EventsOf(inputs, head.loop.view.runID))
    ensures var shown := Last(Snapshots(after.loop.shown.frames));
            var events := EventsOf(inputs, head.loop.view.runID);
            after.exit.Live? ==>
              && shown.Some?
              && ShowsLatest(UsageState(0, 0, shown.value.usage), LatestReport(events, "run.llm_usage"),
                             LatestReport(events, "run.turn_usage"), LatestTokens(events))
  {
    RunFromConcat(config, Start(config, view, None, now), before, inputs);
    RunKeepsCapacity(config, Start(config, view, None, now), before);
    LoopConsumes(config, head, inputs);
    if after.exit.Live? {
      UsageIsLatest(EventsOf(inputs, head.loop.view.runID));
      SnapshotsAgreeAtEveryHead(config, view, None, now, before + inputs);
    }
  }

  // ---------------------------------------------------------------- heartbeats

  function Heartbeats(inputs: seq<Input>): nat {
    if inputs == [] then 0 else
    Heartbeats(inputs[..|inputs| - 1]) + if inputs[|inputs| - 1].Heartbeat? then 1 else 0
  }

  lemma OutputKeepsAlives(config: Config, loop: Loop, event: RunOutputEvent)
    requires loop.follow.attachment.Some?
    ensures KeepAlives(OnOutput(config, loop, event).loop.shown.frames) == KeepAlives(loop.shown.frames)
  {
    var applied := ApplyOutput(loop.follow.attachment.value.lastSequence, event);
    if applied.forwarded.Some? && CanWrite(loop.shown) {
      WritePasses(loop.shown, OutputFrame(applied.forwarded.value.payload));
    }
    var wrote := Forward(loop.shown, applied.forwarded).shown;
    SnapshotsPassNothing(wrote, ProjectionOf(config, loop.view, ApplyUsage(loop.follow.usage, event)), None);
  }

  lemma StepKeepsAlives(config: Config, loop: Loop, input: Input)
    ensures var r := Step(config, loop, input);
            r.exit.Live? ==>
              KeepAlives(r.loop.shown.frames) == KeepAlives(loop.shown.frames) + if input.Heartbeat? then 1 else 0
  {
    match input
    case Poll(now, _, _, _) =>
      if !PollFails(loop, input) {
        PollPassesNothing(config, loop, PolledView(loop, input), now);
      }
    case Heartbeat =>
      if CanWrite(loop.shown) {
        WritePasses(loop.shown, KeepAlive);
      }
    case Output(raw, event) =>
      if Follows(loop.follow, TrimSpace(raw)) {
        OutputKeepsAlives(config, loop, event);
      }
    case _ =>
  }

  /** As long as the loop runs, every heartbeat has been written out once. */
  lemma {:induction false} HeartbeatsAreWritten(config: Config, view: View, capacity: Option<nat>, now: int,
                                                inputs: seq<Input>)
    ensures var r := Run(config, view, capacity, now, inputs);
            r.exit.Live? ==> KeepAlives(r.loop.shown.frames) == Heartbeats(inputs)
  {
    if inputs == [] {
      var shown := Shown([], capacity, None, None);
      var projection, activity := ProjectionOf(config, view, NEW_USAGE), ActivityOf(config, view);
      SnapshotsPassNothing(shown, projection, activity);
      TerminalPassesNothing(SwitchOutput(config.hasOutputs, NOT_FOLLOWING, view.runID, view.run),
                            EmitSnapshots(shown, projection, activity).shown, TerminalOf(config, view), now);
    } else {
      var n := |inputs| - 1;
      HeartbeatsAreWritten(config, view, capacity, now, inputs[..n]);
      var before := Run(config, view, capacity, now, inputs[..n]);
      if before.exit.Live? {
        StepKeepsAlives(config, before.loop, inputs[n]);
      }
    }
  }
}
