/**
 * What streams are told about the end of the source, going by the steps of
 * the run alone: the error its own Finish step carries, and the events its
 * Publish steps carry.
 */
module HubErrors {
  import opened Text
  import opened RunOutputEvents
  import opened HubEntry
  import opened HubProtocol
  import opened HubDelivery

  // ---------------------------------------------------------------- what the steps say

  /** The events the source published, in order. */
  function PublishedBy(steps: seq<Step>): seq<RunOutputEvent> {
    if steps == [] then [] else
    var n := |steps| - 1;
    PublishedBy(steps[..n]) + if steps[n].Publish? then [steps[n].event] else []
  }

  /** The source returned with this error, or cleanly. */
  predicate Returned(steps: seq<Step>, err: Option<Error>) { exists step <- steps :: step.Finish? && step.err == err }

  predicate HasReturned(steps: seq<Step>) { exists step <- steps :: step.Finish? }

  predicate PublishedTerminal(steps: seq<Step>) { exists event <- PublishedBy(steps) :: IsTerminal(event) }

  // ---------------------------------------------------------------- the invariant

  /** Every done notice sent or to be sent, and the recorded error, are those of the run's Finish step. */
  predicate ToldInv(p: Protocol, steps: seq<Step>) {
    && p.history == PublishedBy(steps)
    && (SourceRunning(p) <==> !HasReturned(steps))
    && (p.publisher.Finishing? || p.publisher.Closing? ==> Returned(steps, p.publisher.done.err))
    && (forall id <- p.streams :: p.streams[id].notice.Some? ==> Returned(steps, p.streams[id].notice.value.err))
    && (p.entry.err.Some? ==> Returned(steps, p.entry.err) && !PublishedTerminal(steps))
    && (p.entry.err.None? ==> forall step <- steps :: step.Finish? && step.err.Some? ==> PublishedTerminal(steps))
  }

  predicate RefusalsInv(p: Protocol) {
    forall id <- p.streams :: p.streams[id].refusal == if p.streams[id].subscribed then None else p.entry.err
  }

  lemma StepsAppend(steps: seq<Step>, step: Step)
    ensures PublishedBy(steps + [step]) == PublishedBy(steps) + if step.Publish? then [step.event] else []
    ensures HasReturned(steps + [step]) <==> HasReturned(steps) || step.Finish?
    ensures forall err :: Returned(steps + [step], err) <==> Returned(steps, err) || (step.Finish? && step.err == err)
    ensures PublishedTerminal(steps + [step]) <==> PublishedTerminal(steps) || (step.Publish? && IsTerminal(step.event))
  {
    var more := steps + [step];
    assert more[..|steps|] == steps;
    assert forall x :: x in more <==> x in steps || x == step;
    assert forall e :: e in PublishedBy(more) <==> e in PublishedBy(steps) || (step.Publish? && e == step.event);
  }

  /** Only a finish gives streams their notice. */
  lemma StepKeepsNotices(p: Protocol, step: Step, id: SubscriberId)
    requires Enabled(p, step) && id in Next(p, step).streams
    ensures !step.Finish? && id in p.streams ==> Next(p, step).streams[id].notice == p.streams[id].notice
    ensures step.Finish? && Next(p, step).streams[id].notice.Some? ==>
              Next(p, step).streams[id].notice.value.err == step.err
                || (id in p.streams && Next(p, step).streams[id].notice == p.streams[id].notice)
    ensures id !in p.streams ==> Next(p, step).streams[id].notice.None?
  {
  }

  lemma FinishKeepsTold(p: Protocol, steps: seq<Step>, step: Step)
    requires ToldInv(p, steps) && EntryInv(p) && Enabled(p, step) && step.Finish?
    ensures ToldInv(Next(p, step), steps + [step])
  {
    var next := Next(p, step);
    StepsAppend(steps, step);
    forall id <- next.streams | next.streams[id].notice.Some?
      ensures Returned(steps + [step], next.streams[id].notice.value.err) {
      StepKeepsNotices(p, step, id);
    }
    assert PublishedTerminal(steps) <==> p.entry.terminal;
    assert forall x <- steps :: !x.Finish?;
  }

  /** Only a publish adds to the history, and only a finish ends the source or records its error. */
  lemma StepKeepsSource(p: Protocol, step: Step)
    requires Enabled(p, step) && !step.Finish?
    ensures var next := Next(p, step);
            && next.history == p.history + (if step.Publish? then [step.event] else [])
            && next.entry.err == p.entry.err
            && SourceRunning(next) == SourceRunning(p)
            && (next.publisher.Finishing? || next.publisher.Closing? ==>
                  (p.publisher.Finishing? || p.publisher.Closing?) && next.publisher.done == p.publisher.done)
  {
  }

  lemma OtherStepsKeepTold(p: Protocol, steps: seq<Step>, step: Step)
    requires ToldInv(p, steps) && EntryInv(p) && Enabled(p, step) && !step.Finish?
    ensures ToldInv(Next(p, step), steps + [step])
  {
    var next := Next(p, step);
    StepsAppend(steps, step);
    StepKeepsSource(p, step);
    forall id <- next.streams | next.streams[id].notice.Some?
      ensures Returned(steps + [step], next.streams[id].notice.value.err)
    {
      StepKeepsNotices(p, step, id);
    }
    assert p.entry.err.Some? ==> !step.Publish?;
    assert forall x <- steps + [step] :: x.Finish? ==> x in steps;
  }

  lemma StepKeepsRefusals(p: Protocol, step: Step)
    requires RefusalsInv(p) && EntryInv(p) && Enabled(p, step)
    requires forall id <- p.streams :: !p.streams[id].subscribed ==> HubEntry.Ended(p.entry)
    ensures RefusalsInv(Next(p, step))
    ensures forall id <- Next(p, step).streams :: !Next(p, step).streams[id].subscribed ==>
              HubEntry.Ended(Next(p, step).entry)
  {
  }

  lemma {:induction false} RunKeepsTold(steps: seq<Step>)
    requires IsRun(INITIAL, steps)
    ensures var p := After(INITIAL, steps);
            && Inv(p) && ToldInv(p, steps) && RefusalsInv(p)
            && forall id <- p.streams :: !p.streams[id].subscribed ==> HubEntry.Ended(p.entry)
  {
    if steps == [] {
      assert After(INITIAL, steps) == INITIAL;
    } else {
      var before, step := steps[..|steps| - 1], steps[|steps| - 1];
      assert steps == before + [step];
      RunSplits(INITIAL, before, step);
      RunKeepsTold(before);
      var p := After(INITIAL, before);
      StepKeepsInv(p, step, Next(p, step));
      StepKeepsRefusals(p, step);
      if step.Finish? {
        FinishKeepsTold(p, before, step);
      } else {
        OtherStepsKeepTold(p, before, step);
      }
    }
  }

  /** A run can be cut anywhere. */
  lemma {:induction false} RunCut(p: Protocol, steps: seq<Step>, k: nat)
    requires IsRun(p, steps) && k <= |steps|
    ensures IsRun(p, steps[..k]) && IsRun(After(p, steps[..k]), steps[k..])
    ensures After(p, steps) == After(After(p, steps[..k]), steps[k..])
    decreases k
  {
    if k == 0 {
      assert steps[k..] == steps;
    } else {
      assert steps[..k][1..] == steps[1..][..k - 1] && steps[1..][k - 1..] == steps[k..];
      RunCut(Next(p, steps[0]), steps[1..], k - 1);
      RunCons(p, steps[..k], Next(p, steps[0]));
    }
  }

  /** A run is its first steps and then its last one. */
  lemma RunSplits(p: Protocol, steps: seq<Step>, step: Step)
    requires IsRun(p, steps + [step])
    ensures IsRun(p, steps) && Enabled(After(p, steps), step) && After(p, steps + [step]) == Next(After(p, steps), step)
  {
    var all := steps + [step];
    RunCut(p, all, |steps|);
    assert all[..|steps|] == steps && all[|steps|..] == [step];
    OneStepRun(After(p, steps), step);
  }

  // ---------------------------------------------------------------- what streams are told

  /** A source returns once. */
  lemma ReturnsOnce(steps: seq<Step>, i: nat, j: nat)
    requires IsRun(INITIAL, steps) && i < |steps| && j < |steps| && steps[i].Finish? && steps[j].Finish?
    ensures i == j
  {
    NoLaterFinish(steps, if i < j then i else j, if i < j then j else i);
  }

  lemma NoLaterFinish(steps: seq<Step>, i: nat, j: nat)
    requires IsRun(INITIAL, steps) && i <= j < |steps| && steps[i].Finish?
    ensures i < j ==> !steps[j].Finish?
  {
    if i < j {
      PrefixRuns(steps, j);
      RunKeepsTold(steps[..j]);
      assert steps[..j][i] == steps[i] && steps[i] in steps[..j];
    }
  }

  lemma PrefixRuns(steps: seq<Step>, k: nat)
    requires IsRun(INITIAL, steps) && k < |steps|
    ensures IsRun(INITIAL, steps[..k]) && Enabled(After(INITIAL, steps[..k]), steps[k])
  {
    RunCut(INITIAL, steps, k);
    assert steps[k..][0] == steps[k];
  }

  /** A stream that has read a done notice was told exactly what the source returned: its error, or none. */
  lemma DoneTellsTheError(steps: seq<Step>, id: SubscriberId, i: nat)
    requires IsRun(INITIAL, steps) && id in After(INITIAL, steps).streams
    requires var received := After(INITIAL, steps).streams[id].received; i < |received| && received[i].done
    ensures Returned(steps, After(INITIAL, steps).streams[id].received[i].err)
    ensures forall step <- steps :: step.Finish? ==> step.err == After(INITIAL, steps).streams[id].received[i].err
  {
    RunKeepsTold(steps);
    var p := After(INITIAL, steps);
    DoneIsNotice(p.history, SourceRunning(p), id in p.entry.subscribers, Pending(p.publisher, id), p.streams[id], i);
    var err := p.streams[id].received[i].err;
    var k :| 0 <= k < |steps| && steps[k].Finish? && steps[k].err == err;
    forall step <- steps | step.Finish? ensures step.err == err {
      var j :| 0 <= j < |steps| && steps[j] == step;
      ReturnsOnce(steps, j, k);
    }
  }

  lemma DoneIsNotice(history: seq<RunOutputEvent>, running: bool, registered: bool, pending: seq<Delivery>,
                     stream: Stream, i: nat)
    requires StreamOk(history, running, registered, pending, stream)
    requires i < |stream.received| && stream.received[i].done
    ensures stream.notice == Some(stream.received[i])
  {
    DoneIsLast(history, running, registered, pending, stream, i);
    var all := Deliveries(Span(history, stream)) + NoticeOf(stream);
    assert all == stream.received + stream.channel.queue + pending;
    assert all[i] == stream.received[i];
  }

  /** What a stream reads before that are events, with no error. */
  lemma EventsCarryNoError(steps: seq<Step>, id: SubscriberId, i: nat)
    requires IsRun(INITIAL, steps) && id in After(INITIAL, steps).streams
    requires var received := After(INITIAL, steps).streams[id].received; i < |received| && !received[i].done
    ensures var delivery := After(INITIAL, steps).streams[id].received[i];
            delivery.err.None? && delivery.event.Some? && delivery.event.value in PublishedBy(steps)
  {
    RunKeepsTold(steps);
    var p := After(INITIAL, steps);
    var stream := p.streams[id];
    assert StreamInv(p, id);
    var all := Deliveries(Span(p.history, stream)) + NoticeOf(stream);
    assert all == stream.received + stream.channel.queue + Pending(p.publisher, id);
    assert all[i] == stream.received[i];
    assert i < |Span(p.history, stream)|;
    assert Span(p.history, stream)[i] in p.history;
  }

  // ---------------------------------------------------------------- when a stream ends

  /** A stream reads on until its caller leaves or it has read a done notice or an error. */
  predicate ReadsOn(stream: Stream, left: bool) {
    stream.reading <==> !left && forall d <- stream.received :: !d.done && d.err.None?
  }

  predicate ReadersInv(p: Protocol, steps: seq<Step>) {
    && (forall step <- steps :: step.Leave? ==> step.id in p.streams)
    && (forall id <- p.streams :: ReadsOn(p.streams[id], Leave(id) in steps))
  }

  lemma ReadKeepsReadsOn(stream: Stream, left: bool)
    requires ReadsOn(stream, left) && stream.reading && stream.channel.queue != []
    ensures ReadsOn(Read(stream), left)
  {
    var next := Read(stream);
    assert forall d :: d in next.received <==> d in stream.received || d == stream.channel.queue[0];
  }

  /** Only the reader's own steps touch what it has read and whether it reads on. */
  lemma StepKeepsReader(p: Protocol, step: Step, id: SubscriberId)
    requires Enabled(p, step) && id in p.streams
    requires !((step.Receive? || step.Leave?) && step.id == id)
    ensures id in Next(p, step).streams
    ensures var before, after := p.streams[id], Next(p, step).streams[id];
            after.received == before.received && after.reading == before.reading
  {
  }

  lemma StepKeepsReaders(p: Protocol, steps: seq<Step>, step: Step)
    requires ReadersInv(p, steps) && Enabled(p, step)
    ensures ReadersInv(Next(p, step), steps + [step])
  {
    var next, more := Next(p, step), steps + [step];
    assert forall x :: x in more <==> x in steps || x == step;
    forall id <- next.streams ensures ReadsOn(next.streams[id], Leave(id) in more) {
      if id !in p.streams {
        StepAddsStreams(p, step, id);
      } else if step.Receive? && step.id == id {
        ReadKeepsReadsOn(p.streams[id], Leave(id) in steps);
      } else if step != Leave(id) {
        StepKeepsReader(p, step, id);
      }
    }
    forall x <- more | x.Leave? ensures x.id in next.streams {
      if x in steps {
        StepKeepsOpening(p, step, x.id);
      }
    }
  }

  lemma {:induction false} RunKeepsReaders(steps: seq<Step>)
    requires IsRun(INITIAL, steps)
    ensures ReadersInv(After(INITIAL, steps), steps)
  {
    if steps == [] {
      assert After(INITIAL, steps) == INITIAL;
    } else {
      var before, step := steps[..|steps| - 1], steps[|steps| - 1];
      assert steps == before + [step];
      RunSplits(INITIAL, before, step);
      RunKeepsReaders(before);
      StepKeepsReaders(After(INITIAL, before), before, step);
    }
  }

  /** A stream's call goes on exactly until its caller leaves or the done notice has been read. */
  lemma ReadsUntilDoneIff(steps: seq<Step>, id: SubscriberId)
    requires IsRun(INITIAL, steps) && id in After(INITIAL, steps).streams
    ensures var stream := After(INITIAL, steps).streams[id];
            stream.reading <==> Leave(id) !in steps && forall d <- stream.received :: !d.done
  {
    RunKeepsReaders(steps);
    var stream := After(INITIAL, steps).streams[id];
    forall d <- stream.received | !d.done ensures d.err.None? {
      var i :| 0 <= i < |stream.received| && stream.received[i] == d;
      EventsCarryNoError(steps, id, i);
    }
  }

  // ---------------------------------------------------------------- how late streams are answered

  lemma EntryEndedIff(p: Protocol, steps: seq<Step>)
    requires ToldInv(p, steps) && EntryInv(p)
    ensures p.entry.terminal <==> PublishedTerminal(steps)
    ensures HubEntry.Ended(p.entry) <==>
            PublishedTerminal(steps) || exists step <- steps :: step.Finish? && step.err.Some?
  {
  }

  /** Whether a stream that subscribes at this point is refused, by what the source has done before. */
  lemma SubscribesIff(steps: seq<Step>, k: nat)
    requires IsRun(INITIAL, steps) && k < |steps| && steps[k].Subscribe?
    ensures IsRun(INITIAL, steps[..k]) && Enabled(After(INITIAL, steps[..k]), steps[k])
    ensures steps[k].id in Next(After(INITIAL, steps[..k]), steps[k]).streams
    ensures Next(After(INITIAL, steps[..k]), steps[k]).streams[steps[k].id].subscribed <==>
            !PublishedTerminal(steps[..k]) && forall step <- steps[..k] :: step.Finish? ==> step.err.None?
  {
    PrefixRuns(steps, k);
    RunKeepsTold(steps[..k]);
    EntryEndedIff(After(INITIAL, steps[..k]), steps[..k]);
  }

  /**
   * And with which error: after a terminal event with none; otherwise with
   * the one the source has returned, and with none while it has not.
   */
  lemma RefusalIs(steps: seq<Step>, k: nat)
    requires IsRun(INITIAL, steps) && k < |steps| && steps[k].Subscribe?
    ensures IsRun(INITIAL, steps[..k]) && Enabled(After(INITIAL, steps[..k]), steps[k])
    ensures steps[k].id in Next(After(INITIAL, steps[..k]), steps[k]).streams
    ensures var refusal := Next(After(INITIAL, steps[..k]), steps[k]).streams[steps[k].id].refusal;
            && (PublishedTerminal(steps[..k]) ==> refusal.None?)
            && (!HasReturned(steps[..k]) ==> refusal.None?)
            && (forall step <- steps[..k] :: step.Finish? && !PublishedTerminal(steps[..k]) ==> refusal == step.err)
  {
    var before := steps[..k];
    PrefixRuns(steps, k);
    RunKeepsTold(before);
    var p := After(INITIAL, before);
    EntryEndedIff(p, before);
    forall step <- before | step.Finish? && !PublishedTerminal(before) ensures p.entry.err == step.err {
      if p.entry.err.Some? {
        OneError(before, step, p.entry.err);
      }
    }
  }

  lemma OneError(steps: seq<Step>, step: Step, err: Option<Error>)
    requires IsRun(INITIAL, steps) && step in steps && step.Finish? && Returned(steps, err)
    ensures step.err == err
  {
    var i :| 0 <= i < |steps| && steps[i] == step;
    var j :| 0 <= j < |steps| && steps[j].Finish? && steps[j].err == err;
    ReturnsOnce(steps, i, j);
  }

  /** What a stream was answered at its subscription it keeps. */
  lemma StepKeepsAnswer(p: Protocol, step: Step, id: SubscriberId)
    requires Enabled(p, step) && id in p.streams
    ensures id in Next(p, step).streams
    ensures Next(p, step).streams[id].subscribed == p.streams[id].subscribed
            && Next(p, step).streams[id].refusal == p.streams[id].refusal
  {
  }

  lemma {:induction false} RunKeepsAnswer(p: Protocol, steps: seq<Step>, id: SubscriberId)
    requires IsRun(p, steps) && id in p.streams
    ensures var streams := After(p, steps).streams;
            && id in streams && streams[id].subscribed == p.streams[id].subscribed
            && streams[id].refusal == p.streams[id].refusal
    decreases |steps|
  {
    if steps != [] {
      StepKeepsAnswer(p, steps[0], id);
      RunKeepsAnswer(Next(p, steps[0]), steps[1..], id);
    }
  }

  /** In a run, a stream keeps the answer its Subscribe step gave it. */
  lemma AnswerIsKept(steps: seq<Step>, k: nat)
    requires IsRun(INITIAL, steps) && k < |steps| && steps[k].Subscribe?
    ensures IsRun(INITIAL, steps[..k]) && Enabled(After(INITIAL, steps[..k]), steps[k])
    ensures var id := steps[k].id;
            var first, now := Next(After(INITIAL, steps[..k]), steps[k]).streams, After(INITIAL, steps).streams;
            && id in first && id in now
            && now[id].subscribed == first[id].subscribed && now[id].refusal == first[id].refusal
  {
    RunCut(INITIAL, steps, k);
    var p, rest := After(INITIAL, steps[..k]), steps[k..];
    assert rest[0] == steps[k];
    RunKeepsAnswer(Next(p, rest[0]), rest[1..], steps[k].id);
  }

  /**
   * After a source that returned an error without a terminal event, every
   * later stream is refused with that error; after a terminal event every
   * later stream is refused without one.
   */
  lemma LateStreamsAreRefused(steps: seq<Step>, j: nat, k: nat)
    requires IsRun(INITIAL, steps) && j < k < |steps| && steps[k].Subscribe?
    requires steps[j].Finish? || (steps[j].Publish? && IsTerminal(steps[j].event))
    ensures steps[k].id in After(INITIAL, steps).streams
    ensures var stream := After(INITIAL, steps).streams[steps[k].id];
            && (steps[j].Publish? ==> !stream.subscribed && stream.refusal.None?)
            && (steps[j].Finish? && steps[j].err.Some? && !PublishedTerminal(steps[..k]) ==>
                  !stream.subscribed && stream.refusal == steps[j].err)
  {
    SubscribesIff(steps, k);
    RefusalIs(steps, k);
    AnswerIsKept(steps, k);
    assert steps[..k][j] == steps[j] && steps[j] in steps[..k];
    if steps[j].Publish? {
      PublishedIsIn(steps[..k], j);
    }
  }

  lemma {:induction false} PublishedIsIn(steps: seq<Step>, j: nat)
    requires j < |steps| && steps[j].Publish?
    ensures steps[j].event in PublishedBy(steps)
  {
    if j < |steps| - 1 {
      PublishedIsIn(steps[..|steps| - 1], j);
    }
  }

  // ---------------------------------------------------------------- after leaving

  function Handed(p: Protocol, id: SubscriberId): seq<Delivery>
    requires id in p.streams
  {
    p.streams[id].received + p.streams[id].channel.queue + Pending(p.publisher, id)
  }

  /** A stream that has been taken out of the subscriber set is handed nothing new. */
  lemma {:induction false} UnsubscribedGetsNoMore(p: Protocol, id: SubscriberId, steps: seq<Step>)
    requires Reachable(p) && Enabled(p, Unsubscribe(id)) && IsRun(Next(p, Unsubscribe(id)), steps)
    ensures var q := Next(p, Unsubscribe(id));
            id in After(q, steps).streams && Handed(After(q, steps), id) == Handed(p, id)
  {
    var q := Next(p, Unsubscribe(id));
    ReachableNext(p, Unsubscribe(id));
    ReachableKeepsInv(q);
    assert Handed(q, id) == Handed(p, id);
    GoneGetsNoMore(q, id, steps);
  }

  lemma {:induction false} GoneGetsNoMore(p: Protocol, id: SubscriberId, steps: seq<Step>)
    requires Inv(p) && id in p.streams && id !in p.entry.subscribers && IsRun(p, steps)
    ensures id in After(p, steps).streams && Handed(After(p, steps), id) == Handed(p, id)
    decreases |steps|
  {
    if steps != [] {
      var next := Next(p, steps[0]);
      StepKeepsInv(p, steps[0], next);
      StepHandsNothing(p, steps[0], id);
      GoneGetsNoMore(next, id, steps[1..]);
    }
  }

  lemma SendHandsNothing(p: Protocol, step: Step, id: SubscriberId)
    requires (step.SendEvent? || step.SendDone?) && Enabled(p, step) && Distinct(p.publisher.todo) && id in p.streams
    ensures id in Next(p, step).streams && Handed(Next(p, step), id) == Handed(p, id)
  {
    var next := Next(p, step);
    var target, rest := p.publisher.todo[0], p.publisher.todo[1..];
    assert p.publisher.todo == [target] + rest && target !in rest;
    if id == target {
      var delivery := if step.SendEvent? then EventDelivery(p.publisher.event) else p.publisher.done;
      assert Pending(p.publisher, id) == [delivery] && Pending(next.publisher, id) == [];
      assert next.streams[id] == Enqueued(p.streams[id], delivery);
    } else {
      assert id in rest <==> id in p.publisher.todo;
      assert Pending(next.publisher, id) == Pending(p.publisher, id) && next.streams[id] == p.streams[id];
    }
  }

  lemma ReaderHandsNothing(p: Protocol, step: Step, id: SubscriberId)
    requires Enabled(p, step) && id in p.streams
    requires step.YieldReplay? || step.Receive? || step.Leave? || step.Unsubscribe? || step.Subscribe?
    ensures id in Next(p, step).streams && Handed(Next(p, step), id) == Handed(p, id)
  {
    if step.Receive? && step.id == id {
      var queue := p.streams[id].channel.queue;
      assert queue == [queue[0]] + queue[1..];
      assert Next(p, step).streams[id] == Read(p.streams[id]);
    }
  }

  lemma SourceHandsNothing(p: Protocol, step: Step, id: SubscriberId)
    requires Enabled(p, step) && id in p.streams && id !in p.entry.subscribers
    requires step.Publish? || step.Finish? || step.CloseChannel?
    ensures id in Next(p, step).streams && Handed(Next(p, step), id) == Handed(p, id)
  {
    assert step.Publish? || step.Finish? ==> id !in step.order;
  }

  lemma StepHandsNothing(p: Protocol, step: Step, id: SubscriberId)
    requires PublisherInv(p) && Enabled(p, step) && id in p.streams && id !in p.entry.subscribers
    ensures id in Next(p, step).streams && id !in Next(p, step).entry.subscribers
    ensures Handed(Next(p, step), id) == Handed(p, id)
  {
    if step.SendEvent? || step.SendDone? {
      SendHandsNothing(p, step, id);
    } else if step.Publish? || step.Finish? || step.CloseChannel? {
      SourceHandsNothing(p, step, id);
    } else {
      ReaderHandsNothing(p, step, id);
    }
  }
}
