/**
 * What the browser is given across redeliveries and reconnects: feeding the
 * hub's stream through the per-attachment consumer.
 */
module AguiResume {
  import opened Text
  import opened RunOutputEvents
  import opened HubEntry
  import opened HubProtocol
  import opened HubDelivery
  import opened AguiState
  import opened AguiConsumer

  /** One attachment: its cursor, the documents forwarded so far, whether one failed to decode, and the usage state. */
  datatype Consumer = Consumer(lastSequence: nat, forwarded: seq<AguiEvent>, failed: bool, usage: UsageState)

  const NEW_CONSUMER := Consumer(0, [], false, NEW_USAGE)

  /** The loop applies output, then usage, and ends at the first output that fails to decode. */
  function Consume(c: Consumer, event: RunOutputEvent): Consumer {
    if c.failed then c else
    var applied := ApplyOutput(c.lastSequence, event);
    Consumer(applied.lastSequence,
             c.forwarded + (if applied.forwarded.Some? then [applied.forwarded.value] else []),
             applied.failed,
             if applied.failed then c.usage else ApplyUsage(c.usage, event))
  }

  function ConsumeAll(events: seq<RunOutputEvent>): Consumer {
    if events == [] then NEW_CONSUMER else Consume(ConsumeAll(events[..|events| - 1]), events[|events| - 1])
  }

  lemma ConsumeAllAppend(events: seq<RunOutputEvent>, event: RunOutputEvent)
    ensures ConsumeAll(events + [event]) == Consume(ConsumeAll(events), event)
  {
    assert (events + [event])[..|events|] == events;
  }

  // ---------------------------------------------------------------- redelivery

  predicate StrictlyNumbered(events: seq<RunOutputEvent>) {
    && (forall i :: 0 <= i < |events| ==> IsSequenced(events[i]))
    && (forall i, j :: 0 <= i < j < |events| ==> SequenceOf(events[i]) < SequenceOf(events[j]))
  }

  /** A delivery order over `n` events, as indices, in which first occurrences keep their order. */
  predicate FirstsInOrder(order: seq<nat>, n: nat) {
    && (forall p :: 0 <= p < |order| ==> order[p] < n)
    && (forall p, i: nat :: 0 <= p < |order| && i < order[p] ==> i in order[..p])
  }

  function Delivered(events: seq<RunOutputEvent>, order: seq<nat>): seq<RunOutputEvent>
    requires forall p :: 0 <= p < |order| ==> order[p] < |events|
  {
    seq(|order|, p requires 0 <= p < |order| => events[order[p]])
  }

  /** The consumer has seen exactly the first k events. */
  predicate Covers(c: Consumer, events: seq<RunOutputEvent>, k: nat)
    requires k <= |events|
  {
    && (forall i :: 0 <= i < k ==> SequenceOf(events[i]) <= c.lastSequence)
    && (c.lastSequence == 0 || exists i :: 0 <= i < k && c.lastSequence == SequenceOf(events[i]))
    && (forall i :: 0 <= i < k && IsUsage(events[i], RUN_LLM_USAGE) ==>
        SequenceOf(events[i]) <= c.usage.lastLLMSequence)
    && (forall i :: 0 <= i < k && IsUsage(events[i], RUN_TURN_USAGE) ==>
        SequenceOf(events[i]) <= c.usage.lastTurnSequence)
  }

  lemma NextIsCovered(c: Consumer, events: seq<RunOutputEvent>, k: nat)
    requires StrictlyNumbered(events) && k < |events| && Covers(c, events, k) && !c.failed
    ensures var next := Consume(c, events[k]); next.failed || Covers(next, events, k + 1)
  {
    var next := Consume(c, events[k]);
    assert IsSequenced(events[k]) && SequenceOf(events[k]) > c.lastSequence;
    assert next.lastSequence == SequenceOf(events[k]);
    var usage := ApplyUsage(c.usage, events[k]);
    assert usage.lastLLMSequence >= c.usage.lastLLMSequence && usage.lastTurnSequence >= c.usage.lastTurnSequence;
    assert IsUsage(events[k], RUN_LLM_USAGE) ==> SequenceOf(events[k]) <= usage.lastLLMSequence;
    assert IsUsage(events[k], RUN_TURN_USAGE) ==> SequenceOf(events[k]) <= usage.lastTurnSequence;
  }

  lemma {:induction false} PrefixIsCovered(events: seq<RunOutputEvent>, k: nat)
    requires StrictlyNumbered(events) && k <= |events|
    ensures var c := ConsumeAll(events[..k]); c.failed || Covers(c, events, k)
  {
    if k > 0 {
      PrefixIsCovered(events, k - 1);
      assert events[..k] == events[..k - 1] + [events[k - 1]];
      ConsumeAllAppend(events[..k - 1], events[k - 1]);
      if !ConsumeAll(events[..k - 1]).failed {
        NextIsCovered(ConsumeAll(events[..k - 1]), events, k - 1);
      }
    }
  }

  lemma RepeatChangesNothing(events: seq<RunOutputEvent>, k: nat, i: nat)
    requires StrictlyNumbered(events) && i < k <= |events|
    ensures Consume(ConsumeAll(events[..k]), events[i]) == ConsumeAll(events[..k])
  {
    PrefixIsCovered(events, k);
    assert IsSequenced(events[i]);
  }

  lemma PrefixInOrder(order: seq<nat>, m: nat, n: nat)
    requires FirstsInOrder(order, n) && m <= |order|
    ensures FirstsInOrder(order[..m], n)
  {
    forall p, i: nat | 0 <= p < m && i < order[..m][p] ensures i in order[..m][..p] {
      assert order[..m][..p] == order[..p];
    }
  }

  /** What has been delivered is always an initial segment of the events. */
  lemma {:induction false} SeenIsInitialSegment(order: seq<nat>, n: nat) returns (k: nat)
    requires FirstsInOrder(order, n)
    ensures k <= n && forall i: nat :: i in order <==> i < k
  {
    if order == [] {
      k := 0;
    } else {
      var m := |order| - 1;
      var before := order[..m];
      PrefixInOrder(order, m, n);
      k := SeenIsInitialSegment(before, n);
      assert order == before + [order[m]];
      assert k < order[m] ==> k in before;
      k := if order[m] == k then k + 1 else k;
    }
  }

  lemma {:induction false} RedeliveryMatchesPrefix(events: seq<RunOutputEvent>, order: seq<nat>, k: nat)
    requires StrictlyNumbered(events) && FirstsInOrder(order, |events|)
    requires k <= |events| && forall i: nat :: i in order <==> i < k
    ensures ConsumeAll(Delivered(events, order)) == ConsumeAll(events[..k])
  {
    if order == [] {
      assert k == 0 by { assert 0 < k ==> 0 in order; }
      assert Delivered(events, order) == [] == events[..k];
    } else {
      var m := |order| - 1;
      var before, last := order[..m], order[m];
      PrefixInOrder(order, m, |events|);
      var seen := SeenIsInitialSegment(before, |events|);
      RedeliveryMatchesPrefix(events, before, seen);
      assert order == before + [last];
      assert Delivered(events, order) == Delivered(events, before) + [events[last]];
      ConsumeAllAppend(Delivered(events, before), events[last]);
      AddedToSegment(before, last, seen, k);
      OneMoreDelivered(events, seen, last);
    }
  }

  /** After the first `seen` events, the next one extends the segment and an earlier one changes nothing. */
  lemma OneMoreDelivered(events: seq<RunOutputEvent>, seen: nat, last: nat)
    requires StrictlyNumbered(events) && last <= seen <= |events| && last < |events|
    ensures Consume(ConsumeAll(events[..seen]), events[last])
            == ConsumeAll(events[..if last == seen then seen + 1 else seen])
  {
    if last == seen {
      assert events[..seen + 1] == events[..seen] + [events[seen]];
      ConsumeAllAppend(events[..seen], events[seen]);
    } else {
      RepeatChangesNothing(events, seen, last);
    }
  }

  lemma AddedToSegment(before: seq<nat>, last: nat, seen: nat, k: nat)
    requires forall i: nat :: i in before <==> i < seen
    requires forall i: nat :: i in before + [last] <==> i < k
    ensures last <= seen && k == if last == seen then seen + 1 else seen
  {
    assert last in before + [last] && k !in before + [last];
    assert last < k && (seen < last ==> seen in before + [last]);
    assert seen < k ==> seen in before + [last];
    assert seen + 1 < k ==> seen + 1 in before + [last];
    assert k < seen ==> k in before;
  }

  /**
   * At-least-once in, exactly-once effect: any redelivery that keeps the order
   * of first occurrences and leaves nothing out forwards the same documents
   * and ends with the same resume cursor and usage as delivering each once.
   */
  lemma RedeliveryIsIdempotent(events: seq<RunOutputEvent>, order: seq<nat>)
    requires StrictlyNumbered(events) && FirstsInOrder(order, |events|)
    requires forall i: nat :: i < |events| ==> i in order
    ensures ConsumeAll(Delivered(events, order)) == ConsumeAll(events)
  {
    RedeliveryMatchesPrefix(events, order, |events|) by {
      forall i: nat ensures i in order <==> i < |events| {}
    }
    assert events[..|events|] == events;
  }

  // ---------------------------------------------------------------- what the usage shows

  /** A usage report of a kind, by the members of its document. */
  predicate Reports(event: RunOutputEvent, name: string) {
    && OutputOf(event).Some? && OutputOf(event).value.event.Some?
    && TrimSpace(OutputOf(event).value.event.value.typeName) == "CUSTOM"
    && TrimSpace(OutputOf(event).value.event.value.name) == name
  }

  /** The value of the last usage report of a kind. */
  function LatestReport(events: seq<RunOutputEvent>, name: string): Option<UsageValue> {
    if events == [] then None else
    var n := |events| - 1;
    if Reports(events[n], name) then Some(OutputOf(events[n]).value.event.value.value)
    else LatestReport(events[..n], name)
  }

  /** The token counts of the last usage report of either kind. */
  function LatestTokens(events: seq<RunOutputEvent>): Option<TokenUsage> {
    if events == [] then None else
    var n := |events| - 1;
    if Reports(events[n], "run.llm_usage") || Reports(events[n], "run.turn_usage")
    then Some(OutputOf(events[n]).value.event.value.value.usage) else LatestTokens(events[..n])
  }

  /** What each kind of report and the latest of both contribute to the projection. */
  predicate ShowsLatest(usage: UsageState, llm: Option<UsageValue>, turn: Option<UsageValue>,
                        tokens: Option<TokenUsage>) {
    var shown := UsageOf(usage);
    && (usage.projection.Some? <==> tokens.Some?)
    && shown.tokens == (if tokens.Some? then tokens.value else NO_USAGE.tokens)
    && (if llm.Some? then shown.modelID == FirstNonEmpty(llm.value.modelNames)
        && shown.contextWindowTokens == llm.value.contextWindowTokens
        else shown.modelID == "" && shown.contextWindowTokens == 0)
    && (if turn.Some? then shown.requestCount == turn.value.requestCount
        && shown.toolCallCount == turn.value.toolCallCount
        else shown.requestCount == 0 && shown.toolCallCount == 0)
  }

  predicate IsReport(event: RunOutputEvent) { IsUsage(event, RUN_LLM_USAGE) || IsUsage(event, RUN_TURN_USAGE) }

  /** The usage reports are numbered, in increasing order. */
  predicate NumberedReports(events: seq<RunOutputEvent>) {
    && (forall i :: 0 <= i < |events| && IsReport(events[i]) ==> SequenceOf(events[i]) != 0)
    && (forall i, j :: 0 <= i < j < |events| && IsReport(events[i]) && IsReport(events[j]) ==>
          SequenceOf(events[i]) < SequenceOf(events[j]))
  }

  predicate Reported(events: seq<RunOutputEvent>, sequence: nat) {
    sequence == 0 || exists i :: 0 <= i < |events| && IsReport(events[i]) && SequenceOf(events[i]) == sequence
  }

  /** The usage cursors are numbers of reports that have been seen. */
  predicate UsageBehind(usage: UsageState, events: seq<RunOutputEvent>) {
    Reported(events, usage.lastLLMSequence) && Reported(events, usage.lastTurnSequence)
  }

  lemma ReportedExtends(events: seq<RunOutputEvent>, n: nat, sequence: nat)
    requires n <= |events| && Reported(events[..n], sequence)
    ensures Reported(events, sequence)
  {
    if sequence != 0 {
      var i :| 0 <= i < n && IsReport(events[..n][i]) && SequenceOf(events[..n][i]) == sequence;
      assert IsReport(events[i]) && SequenceOf(events[i]) == sequence;
    }
  }

  lemma NextReportIsNew(usage: UsageState, events: seq<RunOutputEvent>, n: nat)
    requires NumberedReports(events) && |events| == n + 1 && UsageBehind(usage, events[..n]) && IsReport(events[n])
    ensures SequenceOf(events[n]) > usage.lastLLMSequence && SequenceOf(events[n]) > usage.lastTurnSequence
  {
  }

  lemma NewReportShows(usage: UsageState, events: seq<RunOutputEvent>, n: nat,
                       llm: Option<UsageValue>, turn: Option<UsageValue>, tokens: Option<TokenUsage>)
    requires NumberedReports(events) && |events| == n + 1 && UsageBehind(usage, events[..n])
    requires ShowsLatest(usage, llm, turn, tokens)
    ensures var value, next := events[n], ApplyUsage(usage, events[n]);
            ShowsLatest(next, if IsUsage(value, RUN_LLM_USAGE) then Some(OutputOf(value).value.event.value.value)
                        else llm,
                        if IsUsage(value, RUN_TURN_USAGE) then Some(OutputOf(value).value.event.value.value) else turn,
                        if IsUsage(value, RUN_LLM_USAGE) || IsUsage(value, RUN_TURN_USAGE)
                        then Some(OutputOf(value).value.event.value.value.usage) else tokens)
            && UsageBehind(next, events)
  {
    KindsDiffer(events[n]);
    ReportedExtends(events, n, usage.lastLLMSequence);
    ReportedExtends(events, n, usage.lastTurnSequence);
    if IsReport(events[n]) {
      NextReportIsNew(usage, events, n);
      assert Reported(events, SequenceOf(events[n]));
    }
  }

  lemma KindsDiffer(event: RunOutputEvent)
    ensures !(IsUsage(event, RUN_LLM_USAGE) && IsUsage(event, RUN_TURN_USAGE))
  {
    assert |RUN_LLM_USAGE| != |RUN_TURN_USAGE|;
  }

  /**
   * The usage shown is the latest there is: model and context from the last
   * call report, counters from the last turn report, tokens from the last of
   * either.
   */
  lemma {:induction false} UsageIsLatest(events: seq<RunOutputEvent>)
    requires NumberedReports(events) && !ConsumeAll(events).failed
    ensures ShowsLatest(ConsumeAll(events).usage, LatestReport(events, "run.llm_usage"),
                        LatestReport(events, "run.turn_usage"), LatestTokens(events))
    ensures UsageBehind(ConsumeAll(events).usage, events)
  {
    if events != [] {
      var n := |events| - 1;
      var before := events[..n];
      assert forall i :: 0 <= i < n ==> before[i] == events[i];
      UsageIsLatest(before);
      NewReportShows(ConsumeAll(before).usage, events, n, LatestReport(before, RUN_LLM_USAGE),
                     LatestReport(before, RUN_TURN_USAGE), LatestTokens(before));
    }
  }

  // ---------------------------------------------------------------- resume

  /** The source numbers every document it sends, with strictly increasing sequences. */
  predicate WellNumbered(events: seq<RunOutputEvent>) {
    && (forall i :: 0 <= i < |events| && HasDocument(events[i]) ==> SequenceOf(events[i]) != 0)
    && (forall i, j :: 0 <= i < j < |events| && SequenceOf(events[i]) != 0 && SequenceOf(events[j]) != 0 ==>
          SequenceOf(events[i]) < SequenceOf(events[j]))
  }

  /** The events the browser still has to see: forwardable and numbered above the cursor. */
  function Wanted(events: seq<RunOutputEvent>, after: nat): (r: seq<RunOutputEvent>)
    ensures forall e <- r :: e in events && IsForwardable(e) && SequenceOf(e) > after
    ensures |r| <= |events|
  {
    if events == [] then [] else
    (if IsForwardable(events[0]) && SequenceOf(events[0]) > after then [events[0]] else []) + Wanted(events[1..], after)
  }

  lemma {:induction false} WantedConcat(left: seq<RunOutputEvent>, right: seq<RunOutputEvent>, after: nat)
    ensures Wanted(left + right, after) == Wanted(left, after) + Wanted(right, after)
  {
    if left == [] {
      assert left + right == right;
    } else {
      assert (left + right)[1..] == left[1..] + right;
      WantedConcat(left[1..], right, after);
    }
  }

  lemma {:induction false} WantedOfReplay(buffer: seq<RunOutputEvent>, after: nat)
    ensures Wanted(Replay(buffer, after), 0) == Wanted(buffer, after)
  {
    if buffer != [] {
      WantedOfReplay(buffer[1..], after);
      var first := if Replayed(buffer[0], after) then [buffer[0]] else [];
      WantedConcat(first, Replay(buffer[1..], after), 0);
    }
  }

  /** A cursor behind every wanted event leaves the list alone; otherwise it gets shorter. */
  lemma {:induction false} WantedShrinks(events: seq<RunOutputEvent>, after: nat)
    ensures |Wanted(events, after)| <= |Wanted(events, 0)|
    ensures (forall e <- events :: IsForwardable(e) ==> SequenceOf(e) > after) ==>
              Wanted(events, after) == Wanted(events, 0)
    ensures (exists e <- events :: IsForwardable(e) && SequenceOf(e) <= after) ==>
              |Wanted(events, after)| < |Wanted(events, 0)|
  {
    if events != [] {
      WantedShrinks(events[1..], after);
      assert forall e :: e in events <==> e == events[0] || e in events[1..];
    }
  }

  lemma {:induction false} WantedEmpty(events: seq<RunOutputEvent>, after: nat)
    ensures Wanted(events, after) == [] <==> forall e <- events :: IsForwardable(e) ==> SequenceOf(e) <= after
  {
    if events != [] {
      WantedEmpty(events[1..], after);
      assert forall e :: e in events <==> e == events[0] || e in events[1..];
    }
  }

  predicate AllDecode(events: seq<RunOutputEvent>) { forall e <- events :: Decodes(e) }

  /** The documents of the events before the first one that does not decode. */
  function UpToFailure(events: seq<RunOutputEvent>): (r: seq<AguiEvent>)
    requires forall e <- events :: IsForwardable(e)
    ensures |r| <= |events| && (AllDecode(events) ==> |r| == |events|)
  {
    if events == [] then [] else
    var n := |events| - 1;
    assert IsForwardable(events[n]) && events[n] in events;
    assert forall e <- events[..n] :: e in events;
    UpToFailure(events[..n]) + if AllDecode(events) then [DocumentOf(events[n])] else []
  }

  predicate Bounded(c: Consumer, events: seq<RunOutputEvent>) {
    c.lastSequence == 0 || exists i :: 0 <= i < |events| && SequenceOf(events[i]) == c.lastSequence
  }

  predicate Matches(c: Consumer, wanted: seq<RunOutputEvent>)
    requires forall e <- wanted :: IsForwardable(e)
  {
    c.forwarded == UpToFailure(wanted) && c.failed == !AllDecode(wanted)
  }

  lemma ConsumeMatches(c: Consumer, wanted: seq<RunOutputEvent>, event: RunOutputEvent, more: seq<RunOutputEvent>)
    requires (forall e <- wanted :: IsForwardable(e)) && Matches(c, wanted)
    requires HasDocument(event) ==> SequenceOf(event) > c.lastSequence
    requires more == wanted + if IsForwardable(event) then [event] else []
    ensures (forall e <- more :: IsForwardable(e)) && Matches(Consume(c, event), more)
  {
    if IsForwardable(event) {
      assert more[..|wanted|] == wanted;
      assert forall e :: e in more <==> e in wanted || e == event;
      assert AllDecode(more) <==> AllDecode(wanted) && Decodes(event);
    } else {
      assert more == wanted;
    }
  }

  lemma LastIsNew(events: seq<RunOutputEvent>, c: Consumer)
    requires WellNumbered(events) && events != [] && Bounded(c, events[..|events| - 1])
    ensures WellNumbered(events[..|events| - 1])
    ensures HasDocument(events[|events| - 1]) ==> SequenceOf(events[|events| - 1]) > c.lastSequence
    ensures Bounded(Consume(c, events[|events| - 1]), events)
  {
    var n := |events| - 1;
    var before := events[..n];
    assert forall i :: 0 <= i < n ==> before[i] == events[i];
    var next := Consume(c, events[n]);
    assert next.lastSequence == c.lastSequence || next.lastSequence == SequenceOf(events[n]);
  }

  lemma WantedAppend(events: seq<RunOutputEvent>, event: RunOutputEvent)
    requires HasDocument(event) ==> SequenceOf(event) != 0
    ensures Wanted(events + [event], 0) == Wanted(events, 0) + if IsForwardable(event) then [event] else []
  {
    WantedConcat(events, [event], 0);
    assert Wanted([event][1..], 0) == [];
  }

  lemma PrefixIsWellNumbered(events: seq<RunOutputEvent>, n: nat)
    requires WellNumbered(events) && n <= |events|
    ensures WellNumbered(events[..n])
  {
    assert forall i :: 0 <= i < n ==> events[..n][i] == events[i];
  }

  /** A fresh consumer forwards the wanted documents of a well-numbered stream, up to the first that does not decode. */
  lemma {:induction false} ConsumeWellNumbered(events: seq<RunOutputEvent>)
    requires WellNumbered(events)
    ensures Matches(ConsumeAll(events), Wanted(events, 0)) && Bounded(ConsumeAll(events), events)
  {
    if events == [] {
      assert UpToFailure([]) == [];
    } else {
      var n := |events| - 1;
      var before, last := events[..n], events[n];
      assert events == before + [last];
      PrefixIsWellNumbered(events, n);
      ConsumeWellNumbered(before);
      var c := ConsumeAll(before);
      LastIsNew(events, c);
      ConsumeAllAppend(before, last);
      WantedAppend(before, last);
      ConsumeMatches(c, Wanted(before, 0), last, Wanted(events, 0));
    }
  }

  // ---------------------------------------------------------------- end to end

  /** What Stream yields to a subscriber: the replay of what was published before it, then the live events. */
  function StreamOf(published: seq<RunOutputEvent>, live: seq<RunOutputEvent>, after: nat): seq<RunOutputEvent> {
    Replay(Window(published), after) + live
  }

  function Evicted(published: seq<RunOutputEvent>): seq<RunOutputEvent> {
    published[..|published| - |Window(published)|]
  }

  /** Resuming after `after` is exact: nothing wanted has left the window, and nothing live is behind the cursor. */
  predicate CanResume(published: seq<RunOutputEvent>, live: seq<RunOutputEvent>, after: nat) {
    && (forall e <- Evicted(published) :: IsForwardable(e) ==> SequenceOf(e) <= after)
    && (forall e <- live :: IsForwardable(e) ==> SequenceOf(e) > after)
  }

  lemma {:induction false} ReplayIsWellNumbered(buffer: seq<RunOutputEvent>, after: nat)
    requires WellNumbered(buffer)
    ensures WellNumbered(Replay(buffer, after)) && forall e <- Replay(buffer, after) :: e in buffer
  {
    if buffer != [] {
      var rest := buffer[1..];
      assert forall i :: 0 <= i < |rest| ==> rest[i] == buffer[i + 1];
      ReplayIsWellNumbered(rest, after);
      if Replayed(buffer[0], after) {
        var replay := Replay(rest, after);
        forall j | 0 <= j < |replay| && SequenceOf(buffer[0]) != 0 && SequenceOf(replay[j]) != 0
          ensures SequenceOf(buffer[0]) < SequenceOf(replay[j])
        {
          assert replay[j] in rest;
        }
      }
    }
  }

  predicate NumberedBefore(left: seq<RunOutputEvent>, right: seq<RunOutputEvent>) {
    forall i, j :: 0 <= i < |left| && 0 <= j < |right| && SequenceOf(left[i]) != 0 && SequenceOf(right[j]) != 0 ==>
      SequenceOf(left[i]) < SequenceOf(right[j])
  }

  lemma WellNumberedConcat(left: seq<RunOutputEvent>, right: seq<RunOutputEvent>)
    requires WellNumbered(left) && WellNumbered(right) && NumberedBefore(left, right)
    ensures WellNumbered(left + right)
  {
  }

  /** Of a well-numbered stream, the window and what follows it are well numbered, one before the other. */
  lemma WindowIsWellNumbered(published: seq<RunOutputEvent>, live: seq<RunOutputEvent>)
    requires WellNumbered(published + live)
    ensures WellNumbered(Window(published)) && WellNumbered(live) && NumberedBefore(Window(published), live)
  {
    var all, k := published + live, |published| - |Window(published)|;
    assert forall i :: 0 <= i < |Window(published)| ==> Window(published)[i] == all[k + i];
    assert forall i :: 0 <= i < |live| ==> live[i] == all[|published| + i];
  }

  lemma StreamIsWellNumbered(published: seq<RunOutputEvent>, live: seq<RunOutputEvent>, after: nat)
    requires WellNumbered(published + live)
    ensures WellNumbered(StreamOf(published, live, after))
  {
    var window := Window(published);
    WindowIsWellNumbered(published, live);
    ReplayIsWellNumbered(window, after);
    var replay := Replay(window, after);
    forall i, j | 0 <= i < |replay| && 0 <= j < |live| && SequenceOf(replay[i]) != 0 && SequenceOf(live[j]) != 0
      ensures SequenceOf(replay[i]) < SequenceOf(live[j])
    {
      assert replay[i] in window;
    }
    WellNumberedConcat(replay, live);
  }

  lemma SplitAtWindow(published: seq<RunOutputEvent>)
    ensures published == Evicted(published) + Window(published)
  {
  }

  /** The wanted events a stream carries, and the wanted events there are, split at the window. */
  lemma WantedOfStream(published: seq<RunOutputEvent>, live: seq<RunOutputEvent>, after: nat)
    ensures Wanted(StreamOf(published, live, after), 0) == Wanted(Window(published), after) + Wanted(live, 0)
    ensures Wanted(published + live, after)
            == Wanted(Evicted(published), after) + Wanted(Window(published), after) + Wanted(live, after)
  {
    var evicted, window := Evicted(published), Window(published);
    var replay := Replay(window, after);
    WantedConcat(replay, live, 0);
    WantedOfReplay(window, after);
    SplitAtWindow(published);
    WantedConcat(published, live, after);
    WantedConcat(evicted, window, after);
  }

  lemma CanResumeKeepsWanted(published: seq<RunOutputEvent>, live: seq<RunOutputEvent>, after: nat)
    requires CanResume(published, live, after)
    ensures Wanted(StreamOf(published, live, after), 0) == Wanted(published + live, after)
  {
    WantedOfStream(published, live, after);
    WantedEmpty(Evicted(published), after);
    WantedShrinks(live, after);
    assert [] + Wanted(Window(published), after) == Wanted(Window(published), after);
  }

  /** A live event behind the cursor means nothing published before was wanted. */
  lemma BehindMeansNothingWanted(published: seq<RunOutputEvent>, live: seq<RunOutputEvent>, after: nat,
                                 e: RunOutputEvent)
    requires WellNumbered(published + live) && e in live && IsForwardable(e) && SequenceOf(e) <= after
    ensures Wanted(Evicted(published), after) == []
  {
    EarlierIsBehind(published, live, e);
    WantedEmpty(Evicted(published), after);
    assert forall x <- Evicted(published) :: x in published;
  }

  lemma CannotResumeChangesWanted(published: seq<RunOutputEvent>, live: seq<RunOutputEvent>, after: nat)
    requires WellNumbered(published + live) && !CanResume(published, live, after)
    ensures |Wanted(StreamOf(published, live, after), 0)| != |Wanted(published + live, after)|
  {
    WantedOfStream(published, live, after);
    WantedShrinks(live, after);
    if forall e <- live :: IsForwardable(e) ==> SequenceOf(e) > after {
      WantedEmpty(Evicted(published), after);
    } else {
      var e :| e in live && IsForwardable(e) && SequenceOf(e) <= after;
      BehindMeansNothingWanted(published, live, after, e);
    }
  }

  lemma EarlierIsBehind(published: seq<RunOutputEvent>, live: seq<RunOutputEvent>, e: RunOutputEvent)
    requires WellNumbered(published + live) && e in live && IsForwardable(e)
    ensures forall x <- published :: SequenceOf(x) < SequenceOf(e)
  {
    var all := published + live;
    var j :| 0 <= j < |live| && live[j] == e;
    forall x <- published ensures SequenceOf(x) < SequenceOf(e) {
      var i :| 0 <= i < |published| && published[i] == x;
      assert all[i] == x && all[|published| + j] == e;
    }
  }

  /** The documents the browser should get: those after its cursor, up to the first that fails to decode. */
  function Expected(published: seq<RunOutputEvent>, live: seq<RunOutputEvent>, after: nat): seq<AguiEvent> {
    UpToFailure(Wanted(published + live, after))
  }

  /**
   * Reconnecting with cursor `after`: a new consumer fed from the hub forwards
   * exactly the expected documents, once each and in order.
   */
  lemma ResumeIsExact(published: seq<RunOutputEvent>, live: seq<RunOutputEvent>, after: nat)
    requires WellNumbered(published + live) && CanResume(published, live, after)
    ensures ConsumeAll(StreamOf(published, live, after)).forwarded == Expected(published, live, after)
  {
    StreamIsWellNumbered(published, live, after);
    ConsumeWellNumbered(StreamOf(published, live, after));
    CanResumeKeepsWanted(published, live, after);
  }

  /** When every document decodes, the condition is also necessary: anything else loses or repeats output. */
  lemma ResumeIsExactIff(published: seq<RunOutputEvent>, live: seq<RunOutputEvent>, after: nat)
    requires WellNumbered(published + live)
    requires forall e <- published + live :: IsForwardable(e) ==> Decodes(e)
    ensures ConsumeAll(StreamOf(published, live, after)).forwarded == Expected(published, live, after)
            <==> CanResume(published, live, after)
  {
    if CanResume(published, live, after) {
      ResumeIsExact(published, live, after);
    } else {
      StreamIsWellNumbered(published, live, after);
      ConsumeWellNumbered(StreamOf(published, live, after));
      CannotResumeChangesWanted(published, live, after);
      StreamEventsDecode(published, live, after);
    }
  }

  lemma StreamEventsDecode(published: seq<RunOutputEvent>, live: seq<RunOutputEvent>, after: nat)
    requires WellNumbered(published + live)
    requires forall e <- published + live :: IsForwardable(e) ==> Decodes(e)
    ensures AllDecode(Wanted(StreamOf(published, live, after), 0)) && AllDecode(Wanted(published + live, after))
  {
    WantedOfStream(published, live, after);
    forall e <- Wanted(StreamOf(published, live, after), 0) ensures Decodes(e) {
      if e in Wanted(Window(published), after) {
        assert e in published;
      }
      assert e in published + live;
    }
  }

  /** A cursor the hub has reached can be resumed from, as long as the window has not overflowed past it. */
  lemma ReachedCursorCanResume(published: seq<RunOutputEvent>, live: seq<RunOutputEvent>, after: nat, i: nat)
    requires WellNumbered(published + live)
    requires i < |published| && after <= SequenceOf(published[i])
    requires |published| <= BUFFER_SIZE || forall e <- published[..|published| - BUFFER_SIZE] :: SequenceOf(e) <= after
    ensures CanResume(published, live, after)
  {
    forall e <- live | IsForwardable(e) ensures SequenceOf(e) > after {
      EarlierIsBehind(published, live, e);
      assert published[i] in published;
    }
  }

  lemma {:induction false} ForwardedGrows(events: seq<RunOutputEvent>, more: seq<RunOutputEvent>)
    ensures ConsumeAll(events).forwarded <= ConsumeAll(events + more).forwarded
  {
    if more == [] {
      assert events + more == events;
    } else {
      var n := |more| - 1;
      ForwardedGrows(events, more[..n]);
      assert events + more == events + more[..n] + [more[n]];
      ConsumeAllAppend(events + more[..n], more[n]);
    }
  }

  lemma PublishedIsWellNumbered(history: seq<RunOutputEvent>, joined: nat, live: seq<RunOutputEvent>)
    requires WellNumbered(history) && joined <= |history| && live <= history[joined..]
    ensures WellNumbered(history[..joined] + live)
  {
    assert forall i :: 0 <= i < joined + |live| ==> (history[..joined] + live)[i] == history[i];
  }

  /** A caller still inside its replay has been given a first part of it, and nothing live. */
  lemma InsideReplay(stream: Stream, published: seq<RunOutputEvent>)
    requires InReplay(stream) && stream.received == []
             && stream.replay == Replay(Window(published), stream.afterSequence)
    requires WellNumbered(published + []) && CanResume(published, [], stream.afterSequence)
    ensures ConsumeAll(Yielded(stream)).forwarded <= Expected(published, [], stream.afterSequence)
  {
    var rest := stream.replay[stream.replayed..];
    assert Yielded(stream) + rest == stream.replay == StreamOf(published, [], stream.afterSequence);
    ForwardedGrows(Yielded(stream), rest);
    ResumeIsExact(published, [], stream.afterSequence);
  }

  /**
   * The same for a real stream of the concurrent hub, at any point of any
   * interleaving: exact once the replay has been yielded, and a first part of
   * what is expected while it has not.
   */
  lemma HubResumeIsExact(p: Protocol, id: SubscriberId)
    requires Reachable(p) && id in p.streams && WellNumbered(p.history)
    ensures var stream := p.streams[id];
            var live := EventsIn(stream.received);
            && stream.joined <= |p.history| && stream.replayed <= |stream.replay|
            && live <= p.history[stream.joined..]
            && (CanResume(p.history[..stream.joined], live, stream.afterSequence) ==>
                  var forwarded := ConsumeAll(Yielded(stream)).forwarded;
                  var expected := Expected(p.history[..stream.joined], live, stream.afterSequence);
                  if InReplay(stream) then forwarded <= expected else forwarded == expected)
  {
    StreamYieldsReplayThenLivePrefix(p, id);
    ReachableStream(p, id);
    var stream := p.streams[id];
    var published, live := p.history[..stream.joined], EventsIn(stream.received);
    assert live <= p.history[stream.joined..] by {
      assert Span(p.history, stream) <= p.history[stream.joined..];
    }
    PublishedIsWellNumbered(p.history, stream.joined, live);
    if CanResume(published, live, stream.afterSequence) {
      if InReplay(stream) {
        InsideReplay(stream, published);
      } else {
        assert stream.replay[..stream.replayed] == stream.replay;
        ResumeIsExact(published, live, stream.afterSequence);
      }
    }
  }

  // ---------------------------------------------------------------- resuming that is not exact

  /** A text document with this number. */
  function Numbered(n: nat): RunOutputEvent {
    var usage := UsageValue([], 0, TokenUsage(0, 0, 0, 0), 0, 0);
    var output := RunOutput(n, Some(AguiEvent("T", true, "", "", usage)));
    RunOutputEvent(Some(RunDelta(Some(output))), None)
  }

  lemma NumberedIsForwardable(n: nat)
    ensures n > 0 ==> IsForwardable(Numbered(n)) && Decodes(Numbered(n)) && SequenceOf(Numbered(n)) == n
  {
    TrimSpaceTrims("T");
    assert Trimmed("T") && |MESSAGES_SNAPSHOT| > 1;
  }

  function NumberedTo(n: nat): (events: seq<RunOutputEvent>)
    ensures |events| == n
  {
    seq(n, i requires 0 <= i < n => Numbered(i + 1))
  }

  lemma NumberedAreGood(events: seq<RunOutputEvent>, n: nat)
    requires events == NumberedTo(n)
    ensures WellNumbered(events) && forall e <- events :: IsForwardable(e) && Decodes(e)
  {
    forall i | 0 <= i < n ensures IsForwardable(events[i]) && Decodes(events[i]) && SequenceOf(events[i]) == i + 1 {
      NumberedIsForwardable(i + 1);
    }
  }

  /** A cursor ahead of what the hub has published repeats output: event 1 again after cursor 1. */
  lemma CursorAheadRepeats()
    ensures WellNumbered([] + [Numbered(1)]) && !CanResume([], [Numbered(1)], 1)
    ensures ConsumeAll(StreamOf([], [Numbered(1)], 1)).forwarded != Expected([], [Numbered(1)], 1)
  {
    var live := [Numbered(1)];
    NumberedIsForwardable(1);
    assert [] + live == live == NumberedTo(1);
    NumberedAreGood(live, 1);
    assert live[0] in live;
    ResumeIsExactIff([], live, 1);
  }

  /** One event more than the window holds loses output: a new reader never gets event 1. */
  lemma EvictedEventIsLost()
    ensures var published := NumberedTo(BUFFER_SIZE + 1);
            && WellNumbered(published + []) && !CanResume(published, [], 0)
            && ConsumeAll(StreamOf(published, [], 0)).forwarded != Expected(published, [], 0)
  {
    var published := NumberedTo(BUFFER_SIZE + 1);
    NumberedAreGood(published, BUFFER_SIZE + 1);
    assert published + [] == published;
    assert Evicted(published)[0] == published[0] == Numbered(1) && Evicted(published)[0] in Evicted(published);
    NumberedIsForwardable(1);
    ResumeIsExactIff(published, [], 0);
  }
}
