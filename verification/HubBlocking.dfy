/**
 * What the hub does not promise: when the source can go on, and when a stream
 * that subscribes after the source has ended waits for nothing.
 */
module HubBlocking {
  import opened Text
  import opened RunOutputEvents
  import opened HubEntry
  import opened HubProtocol
  import opened HubDelivery

  // ---------------------------------------------------------------- when the source can go on

  /** The publisher's next operation is a send, of an event or of a done notice, to this subscriber. */
  predicate AboutToSend(p: Protocol, id: SubscriberId) {
    (p.publisher.Sending? || p.publisher.Finishing?) && p.publisher.todo != [] && p.publisher.todo[0] == id
  }

  /** The subscriber's call has returned and its channel is full. */
  predicate Blocked(p: Protocol, id: SubscriberId) {
    && AboutToSend(p, id)
    && id in p.streams && !p.streams[id].reading && |p.streams[id].channel.queue| == SUBSCRIBER_BUFFER
  }

  /** Once blocked the source goroutine never moves again, whoever subscribes, reads, leaves or unsubscribes. */
  lemma {:induction false} BlockedForever(p: Protocol, id: SubscriberId, steps: seq<Step>)
    requires Blocked(p, id) && IsRun(p, steps)
    ensures Blocked(After(p, steps), id)
    ensures After(p, steps).publisher == p.publisher && After(p, steps).history == p.history
    decreases |steps|
  {
    if steps != [] {
      BlockedForever(Next(p, steps[0]), id, steps[1..]);
    }
  }

  function SendStep(p: Protocol): Step { if p.publisher.Sending? then SendEvent else SendDone }

  lemma SendMoves(p: Protocol, id: SubscriberId)
    requires AboutToSend(p, id) && HasRoom(p, id)
    ensures Enabled(p, SendStep(p)) && Next(p, SendStep(p)).publisher != p.publisher
  {
    assert |p.publisher.todo[1..]| < |p.publisher.todo|;
  }

  /** The caller of Stream takes what is left of its replay. */
  lemma {:induction false} FinishReplay(p: Protocol, id: SubscriberId) returns (steps: seq<Step>)
    requires id in p.streams && p.streams[id].reading && p.streams[id].replayed <= |p.streams[id].replay|
    ensures IsRun(p, steps)
    ensures After(p, steps) == p.(streams := p.streams[id := p.streams[id].(replayed := |p.streams[id].replay|)])
    decreases |p.streams[id].replay| - p.streams[id].replayed
  {
    if InReplay(p.streams[id]) {
      var next := Next(p, YieldReplay(id));
      var rest := FinishReplay(next, id);
      StepThenRun(p, YieldReplay(id), rest);
      steps := [YieldReplay(id)] + rest;
      assert next.streams[id := After(next, rest).streams[id]] == p.streams[id := After(next, rest).streams[id]];
    } else {
      steps := [];
      assert p.streams == p.streams[id := p.streams[id]];
    }
  }

  /** A stream the publisher has something for was given a subscriber. */
  lemma TargetIsSubscribed(p: Protocol, id: SubscriberId)
    requires Reachable(p) && AboutToSend(p, id)
    ensures id in p.streams && p.streams[id].subscribed
    ensures p.streams[id].replayed <= |p.streams[id].replay| && |p.streams[id].channel.queue| <= SUBSCRIBER_BUFFER
  {
    ReachablePublisher(p);
    assert id in p.publisher.todo;
    ReachableStream(p, id);
    var stream := p.streams[id];
    assert |stream.received + stream.channel.queue + Pending(p.publisher, id)| >= 1;
    assert |Span(p.history, stream)| == Until(p.history, stream) - stream.joined;
  }

  /** A reader that is still there can empty its channel by one delivery, and the send goes through. */
  lemma ReaderMakesRoom(p: Protocol, id: SubscriberId) returns (steps: seq<Step>)
    requires Reachable(p) && AboutToSend(p, id) && id in p.streams && p.streams[id].reading && !HasRoom(p, id)
    ensures IsRun(p, steps) && After(p, steps).publisher != p.publisher
  {
    TargetIsSubscribed(p, id);
    var replay := FinishReplay(p, id);
    var ready := After(p, replay);
    assert Enabled(ready, Receive(id));
    var read := Next(ready, Receive(id));
    assert read.publisher == p.publisher && HasRoom(read, id);
    SendMoves(read, id);
    RunThenStep(p, replay, Receive(id));
    RunThenStep(p, replay + [Receive(id)], SendStep(read));
    steps := replay + [Receive(id)] + [SendStep(read)];
  }

  /**
   * The source can get past its next send if and only if the channel has room
   * or its reader is still there.
   */
  lemma PublisherCanMoveIff(p: Protocol, id: SubscriberId)
    requires Reachable(p) && AboutToSend(p, id)
    ensures id in p.streams
    ensures (exists steps: seq<Step> :: IsRun(p, steps) && After(p, steps).publisher != p.publisher)
            <==> HasRoom(p, id) || p.streams[id].reading
  {
    TargetIsSubscribed(p, id);
    if HasRoom(p, id) {
      SendMoves(p, id);
      OneStepRun(p, SendStep(p));
    } else if p.streams[id].reading {
      var steps := ReaderMakesRoom(p, id);
    } else {
      forall steps: seq<Step> | IsRun(p, steps) ensures After(p, steps).publisher == p.publisher {
        BlockedForever(p, id, steps);
      }
    }
  }

  /** `n` times, a publish to the only subscriber followed by its send. */
  lemma {:induction false} FillQueue(event: RunOutputEvent, n: nat) returns (steps: seq<Step>)
    requires n <= SUBSCRIBER_BUFFER && !IsTerminal(event)
    ensures IsRun(INITIAL, steps)
    ensures var p := After(INITIAL, steps);
            && p.publisher.Idle? && p.entry.subscribers == {0} && p.streams.Keys == {0}
            && p.streams[0].reading && |p.streams[0].channel.queue| == n && !HubEntry.Ended(p.entry)
  {
    if n == 0 {
      steps := [Subscribe(0, 0)];
      OneStepRun(INITIAL, Subscribe(0, 0));
    } else {
      var before := FillQueue(event, n - 1);
      var publish := Publish(event, [0]);
      RunThenStep(INITIAL, before, publish);
      RunThenStep(INITIAL, before + [publish], SendEvent);
      steps := before + [publish] + [SendEvent];
    }
  }

  /** The only subscriber has gone with a full channel, and the source is between two sends. */
  predicate GoneFull(p: Protocol) {
    && p.publisher.Idle? && p.entry.subscribers == {0} && p.streams.Keys == {0}
    && !p.streams[0].reading && |p.streams[0].channel.queue| == SUBSCRIBER_BUFFER && !HubEntry.Ended(p.entry)
  }

  lemma PublishBlocks(p: Protocol, event: RunOutputEvent)
    requires GoneFull(p)
    ensures var publish := Publish(event, [0]);
            Enabled(p, publish) && Blocked(Next(p, publish), 0) && Next(p, publish).publisher.Sending?
  {
  }

  lemma FinishBlocks(p: Protocol)
    requires GoneFull(p)
    ensures var finish := Finish(None, [0]);
            && Enabled(p, finish) && Blocked(Next(p, finish), 0) && Next(p, finish).publisher.Finishing?
            && Next(p, finish).streams.Keys == {0} && !HubEntry.Ended(Next(p, finish).entry)
  {
  }

  /** A reader leaves with a full channel. */
  lemma FullAndGone(event: RunOutputEvent) returns (steps: seq<Step>)
    requires !IsTerminal(event)
    ensures IsRun(INITIAL, steps) && GoneFull(After(INITIAL, steps))
  {
    var before := FillQueue(event, SUBSCRIBER_BUFFER);
    RunThenStep(INITIAL, before, Leave(0));
    steps := before + [Leave(0)];
  }

  /** Blocked states are reachable: an event is published, or the source ends, before the reader has unsubscribed. */
  lemma PublisherCanBlock(event: RunOutputEvent) returns (sending: seq<Step>, finishing: seq<Step>)
    requires !IsTerminal(event)
    ensures IsRun(INITIAL, sending) && Blocked(After(INITIAL, sending), 0) && After(INITIAL, sending).publisher.Sending?
    ensures IsRun(INITIAL, finishing) && Blocked(After(INITIAL, finishing), 0)
            && After(INITIAL, finishing).publisher.Finishing?
    ensures After(INITIAL, finishing).streams.Keys == {0} && !HubEntry.Ended(After(INITIAL, finishing).entry)
  {
    var before := FullAndGone(event);
    PublishBlocks(After(INITIAL, before), event);
    FinishBlocks(After(INITIAL, before));
    RunThenStep(INITIAL, before, Publish(event, [0]));
    RunThenStep(INITIAL, before, Finish(None, [0]));
    sending, finishing := before + [Publish(event, [0])], before + [Finish(None, [0])];
  }

  // ---------------------------------------------------------------- joining after the end

  /** The call of Stream is registered and still running, and nothing has ever been sent to it. */
  predicate Waiting(p: Protocol, id: SubscriberId) {
    && id in p.streams && id in p.entry.subscribers
    && p.streams[id].reading && p.streams[id].received == []
    && p.streams[id].channel == Channel([], false)
  }

  /** However the run goes on, the call keeps waiting until its caller stops it. */
  ghost predicate WaitsForNothing(p: Protocol, id: SubscriberId) {
    forall steps: seq<Step> :: IsRun(p, steps) && Leave(id) !in steps ==> Waiting(After(p, steps), id)
  }

  /** The source has returned, and finish has nothing left to do for this stream. */
  predicate PassedOver(publisher: Publisher, id: SubscriberId) {
    match publisher
    case Finishing(_, todo) => id !in todo
    case Closing(_, current, todo) => id != current && id !in todo
    case Ended => true
    case _ => false
  }

  lemma WaitingStep(p: Protocol, id: SubscriberId, step: Step)
    requires PassedOver(p.publisher, id) && Waiting(p, id) && Enabled(p, step) && step != Leave(id)
    ensures PassedOver(Next(p, step).publisher, id) && Waiting(Next(p, step), id)
  {
    if p.publisher.Finishing? && p.publisher.todo != [] {
      assert p.publisher.todo[0] in p.publisher.todo;
      assert forall other <- p.publisher.todo[1..] :: other in p.publisher.todo;
    }
  }

  lemma {:induction false} WaitingStays(p: Protocol, id: SubscriberId, steps: seq<Step>)
    requires PassedOver(p.publisher, id) && Waiting(p, id) && IsRun(p, steps) && Leave(id) !in steps
    ensures Waiting(After(p, steps), id)
    decreases |steps|
  {
    if steps != [] {
      assert steps[0] in steps;
      WaitingStep(p, id, steps[0]);
      WaitingStays(Next(p, steps[0]), id, steps[1..]);
    }
  }

  /**
   * A stream that subscribes after the source has returned, while finish is
   * still sending and closing or later, waits for ever if and only if the
   * entry records neither a terminal result nor an error, which is what a
   * clean end without a result leaves behind.
   */
  lemma JoinedAfterEndIff(p: Protocol, id: SubscriberId, afterSequence: nat)
    requires Reachable(p) && !SourceRunning(p) && id !in p.streams
    ensures WaitsForNothing(Next(p, Subscribe(id, afterSequence)), id) <==> !HubEntry.Ended(p.entry)
  {
    var q := Next(p, Subscribe(id, afterSequence));
    ReachableKeepsInv(p);
    NewcomerIsPassedOver(p, id);
    if HubEntry.Ended(p.entry) {
      var none: seq<Step> := [];
      assert IsRun(q, none) && After(q, none) == q && Leave(id) !in none;
      assert id !in q.entry.subscribers;
    } else {
      forall steps: seq<Step> | IsRun(q, steps) && Leave(id) !in steps ensures Waiting(After(q, steps), id) {
        WaitingStays(q, id, steps);
      }
    }
  }

  lemma NewcomerIsPassedOver(p: Protocol, id: SubscriberId)
    requires PublisherInv(p) && !SourceRunning(p) && id !in p.streams
    ensures PassedOver(p.publisher, id)
  {
  }

  /** It happens: the source ends cleanly before anyone subscribes. */
  lemma JoinedAfterCleanEnd() returns (steps: seq<Step>)
    ensures steps == [Finish(None, []), Subscribe(0, 0)]
    ensures IsRun(INITIAL, steps) && WaitsForNothing(After(INITIAL, steps), 0)
  {
    var finish, subscribe := Finish(None, []), Subscribe(0, 0);
    OneStepRun(INITIAL, finish);
    RunThenStep(INITIAL, [finish], subscribe);
    steps := [finish] + [subscribe];
    assert Reachable(Next(INITIAL, finish));
    JoinedAfterEndIff(Next(INITIAL, finish), 0, 0);
  }
}
