/** Delivery guarantees of the hub entry over every interleaving. */
module HubDelivery {
  import opened Text
  import opened RunOutputEvents
  import opened HubEntry
  import opened HubProtocol

  // ---------------------------------------------------------------- one stream

  lemma DeliveriesAppend(events: seq<RunOutputEvent>, event: RunOutputEvent)
    ensures Deliveries(events + [event]) == Deliveries(events) + [EventDelivery(event)]
  {
  }

  lemma StreamSurvivesPublish(history: seq<RunOutputEvent>, registered: bool, stream: Stream, event: RunOutputEvent)
    requires StreamOk(history, true, registered, [], stream)
    ensures StreamOk(history + [event], true, registered, if registered then [EventDelivery(event)] else [], stream)
  {
    assert stream.notice.None? && NoticeOf(stream) == [];
    if registered {
      var before := stream.received + stream.channel.queue;
      assert Span(history + [event], stream) == Span(history, stream) + [event];
      DeliveriesAppend(Span(history, stream), event);
      assert before == before + [] == Deliveries(Span(history, stream)) + [] == Deliveries(Span(history, stream));
    } else {
      assert Span(history + [event], stream) == Span(history, stream);
    }
  }

  lemma StreamSurvivesSend(history: seq<RunOutputEvent>, running: bool, registered: bool, stream: Stream,
                           delivery: Delivery)
    requires StreamOk(history, running, registered, [delivery], stream)
    requires |stream.channel.queue| < SUBSCRIBER_BUFFER
    ensures StreamOk(history, running, registered, [], Enqueued(stream, delivery))
  {
    var next := Enqueued(stream, delivery);
    assert Span(history, next) == Span(history, stream);
    assert stream.received + stream.channel.queue + [delivery] == next.received + next.channel.queue + [];
  }

  lemma StreamSurvivesNotice(history: seq<RunOutputEvent>, stream: Stream, done: Delivery)
    requires StreamOk(history, true, true, [], stream) && done.done && done.event.None?
    ensures StreamOk(history, false, false, [done], stream.(left := Some(|history|), notice := Some(done)))
  {
    var next := stream.(left := Some(|history|), notice := Some(done));
    assert Span(history, next) == Span(history, stream);
    var before := stream.received + stream.channel.queue;
    assert before + [] == before && NoticeOf(stream) == [];
    assert before == Deliveries(Span(history, stream));
  }

  lemma StreamSurvivesRead(history: seq<RunOutputEvent>, running: bool, registered: bool, pending: seq<Delivery>,
                           stream: Stream)
    requires StreamOk(history, running, registered, pending, stream) && stream.channel.queue != []
    ensures StreamOk(history, running, registered, pending, Read(stream))
  {
    var next := Read(stream);
    assert Span(history, next) == Span(history, stream);
    assert stream.received + stream.channel.queue == next.received + next.channel.queue;
  }

  lemma StreamSurvivesDeparture(history: seq<RunOutputEvent>, running: bool, registered: bool, pending: seq<Delivery>,
                                stream: Stream)
    requires StreamOk(history, running, registered, pending, stream)
    ensures StreamOk(history, running, registered, pending, stream.(reading := false))
    ensures stream.left.None? ==> StreamOk(history, running, false, pending, stream.(left := Some(|history|)))
  {
    assert Span(history, stream.(reading := false)) == Span(history, stream);
    assert Span(history, stream.(left := Some(|history|))) == Span(history, stream) || stream.left.Some?;
  }

  // ---------------------------------------------------------------- one step, one stream

  lemma PublishKeepsStream(p: Protocol, step: Step, id: SubscriberId)
    requires step.Publish? && Enabled(p, step) && id in p.streams && StreamInv(p, id)
    ensures StreamInv(Next(p, step), id)
  {
    var next := Next(p, step);
    var registered := id in p.entry.subscribers;
    StreamSurvivesPublish(p.history, registered, p.streams[id], step.event);
    assert id in step.order <==> registered;
    assert Pending(next.publisher, id) == if registered then [EventDelivery(step.event)] else [];
    assert registered == (id in next.entry.subscribers) && next.streams[id] == p.streams[id];
  }

  lemma SendKeepsStream(p: Protocol, step: Step, id: SubscriberId)
    requires (step.SendEvent? || step.SendDone?) && Enabled(p, step) && Distinct(p.publisher.todo)
    requires id in p.streams && StreamInv(p, id)
    ensures StreamInv(Next(p, step), id)
  {
    var target, rest := p.publisher.todo[0], p.publisher.todo[1..];
    assert p.publisher.todo == [target] + rest && target !in rest;
    var next := Next(p, step);
    var delivery := if step.SendEvent? then EventDelivery(p.publisher.event) else p.publisher.done;
    assert SourceRunning(next) == SourceRunning(p) && next.entry == p.entry;
    if id == target {
      assert Pending(p.publisher, id) == [delivery] && Pending(next.publisher, id) == [];
      assert next.streams[id] == Enqueued(p.streams[id], delivery);
      StreamSurvivesSend(p.history, SourceRunning(p), id in p.entry.subscribers, p.streams[id], delivery);
    } else {
      assert id in rest <==> id in p.publisher.todo;
      assert Pending(next.publisher, id) == Pending(p.publisher, id) && next.streams[id] == p.streams[id];
    }
  }

  lemma FinishKeepsStream(p: Protocol, step: Step, id: SubscriberId)
    requires step.Finish? && Enabled(p, step) && id in p.streams && StreamInv(p, id)
    ensures StreamInv(Next(p, step), id)
  {
    var next := Next(p, step);
    var done := DoneDelivery(step.err);
    assert id in step.order <==> id in p.entry.subscribers;
    assert !SourceRunning(next) && id !in next.entry.subscribers;
    if id in step.order {
      StreamSurvivesNotice(p.history, p.streams[id], done);
      assert Pending(next.publisher, id) == [done];
      assert next.streams[id] == p.streams[id].(left := Some(|p.history|), notice := Some(done));
    } else {
      assert Pending(next.publisher, id) == [] && next.streams[id] == p.streams[id];
    }
  }

  lemma CloseKeepsStream(p: Protocol, id: SubscriberId)
    requires Enabled(p, CloseChannel) && PublisherInv(p) && id in p.streams && StreamInv(p, id)
    ensures StreamInv(Next(p, CloseChannel), id)
  {
    var stream := p.streams[id];
    if id == p.publisher.current {
      assert Span(p.history, stream.(channel := stream.channel.(closed := true))) == Span(p.history, stream);
    }
  }

  lemma ReaderKeepsStream(p: Protocol, step: Step, id: SubscriberId)
    requires (step.YieldReplay? || step.Receive? || step.Leave? || step.Unsubscribe?) && Enabled(p, step)
    requires id in p.streams && StreamInv(p, id)
    ensures StreamInv(Next(p, step), id)
  {
    var next := Next(p, step);
    var registered, pending := id in p.entry.subscribers, Pending(p.publisher, id);
    assert next.publisher == p.publisher && next.history == p.history;
    if id == step.id && step.Receive? {
      StreamSurvivesRead(p.history, SourceRunning(p), registered, pending, p.streams[id]);
      assert next.streams[id] == Read(p.streams[id]);
    } else if id == step.id && step.YieldReplay? {
      assert Span(p.history, next.streams[id]) == Span(p.history, p.streams[id]);
    } else if id == step.id {
      StreamSurvivesDeparture(p.history, SourceRunning(p), registered, pending, p.streams[id]);
    } else {
      assert next.streams[id] == p.streams[id] && (id in next.entry.subscribers) == registered;
    }
  }

  lemma StepKeepsStream(p: Protocol, step: Step, id: SubscriberId)
    requires Enabled(p, step) && PublisherInv(p) && id in p.streams && StreamInv(p, id)
    ensures StreamInv(Next(p, step), id)
  {
    match step
    case Publish(_, _) => PublishKeepsStream(p, step, id);
    case SendEvent => SendKeepsStream(p, step, id);
    case SendDone => SendKeepsStream(p, step, id);
    case Finish(_, _) => FinishKeepsStream(p, step, id);
    case CloseChannel => CloseKeepsStream(p, id);
    case Subscribe(_, _) =>
    case _ => ReaderKeepsStream(p, step, id);
  }

  lemma OpenedStreamOk(p: Protocol, id: SubscriberId, afterSequence: nat)
    requires EntryInv(p) && PublisherInv(p) && Enabled(p, Subscribe(id, afterSequence))
    ensures StreamInv(Next(p, Subscribe(id, afterSequence)), id)
  {
    assert id !in p.entry.subscribers;
    assert Pending(p.publisher, id) == [];
  }

  // ---------------------------------------------------------------- one step

  lemma StepKeepsStreams(p: Protocol, step: Step, next: Protocol)
    requires EntryInv(p) && PublisherInv(p) && StreamsInv(p) && Enabled(p, step) && next == Next(p, step)
    ensures StreamsInv(next)
  {
    forall id <- next.streams ensures StreamInv(next, id) {
      if id in p.streams {
        StepKeepsStream(p, step, id);
      } else {
        OpenedStreamOk(p, id, step.afterSequence);
      }
    }
  }

  lemma ReplaySurvives(history: seq<RunOutputEvent>, later: seq<RunOutputEvent>, stream: Stream, next: Stream)
    requires ReplayOk(history, stream) && history <= later
    requires next.joined == stream.joined && next.replay == stream.replay && next.afterSequence == stream.afterSequence
    requires stream.replayed <= next.replayed <= |next.replay|
    requires next.received != stream.received ==> !InReplay(stream)
    ensures ReplayOk(later, next)
  {
    assert later[..stream.joined] == history[..stream.joined];
  }

  lemma OpenedReplayOk(p: Protocol, afterSequence: nat)
    requires EntryInv(p)
    ensures ReplayOk(p.history, OpenedStream(p, afterSequence))
  {
    assert p.history[..|p.history|] == p.history;
  }

  /** No step changes what a stream was opened with, the replay only advances, and the history only grows. */
  lemma StepKeepsOpening(p: Protocol, step: Step, id: SubscriberId)
    requires Enabled(p, step) && id in p.streams
    ensures p.history <= Next(p, step).history && id in Next(p, step).streams
    ensures Next(p, step).streams[id].joined == p.streams[id].joined
    ensures Next(p, step).streams[id].replay == p.streams[id].replay
    ensures Next(p, step).streams[id].afterSequence == p.streams[id].afterSequence
    ensures Next(p, step).streams[id].received != p.streams[id].received ==> !InReplay(p.streams[id])
    ensures var now, later := p.streams[id].replayed, Next(p, step).streams[id].replayed;
            later == now || (later == now + 1 && InReplay(p.streams[id]))
  {
  }

  lemma StepAddsStreams(p: Protocol, step: Step, id: SubscriberId)
    requires Enabled(p, step) && id in Next(p, step).streams && id !in p.streams
    ensures step.Subscribe? && step.id == id
    ensures Next(p, step).history == p.history && Next(p, step).streams[id] == OpenedStream(p, step.afterSequence)
  {
  }

  lemma StepKeepsReplay(p: Protocol, step: Step, next: Protocol, id: SubscriberId)
    requires EntryInv(p) && Enabled(p, step) && next == Next(p, step) && id in next.streams
    requires id in p.streams ==> ReplayOk(p.history, p.streams[id])
    ensures ReplayOk(next.history, next.streams[id])
  {
    if id in p.streams {
      StepKeepsOpening(p, step, id);
      ReplaySurvives(p.history, next.history, p.streams[id], next.streams[id]);
    } else {
      StepAddsStreams(p, step, id);
      OpenedReplayOk(p, step.afterSequence);
    }
  }

  lemma StepKeepsReplays(p: Protocol, step: Step, next: Protocol)
    requires EntryInv(p) && Enabled(p, step) && next == Next(p, step) && ReplaysInv(p)
    ensures ReplaysInv(next)
  {
    forall id <- next.streams ensures ReplayOk(next.history, next.streams[id]) {
      StepKeepsReplay(p, step, next, id);
    }
  }

  lemma StepKeepsEntry(p: Protocol, step: Step, next: Protocol)
    requires EntryInv(p) && Enabled(p, step) && next == Next(p, step)
    ensures EntryInv(next)
  {
    if step.Publish? {
      assert forall e :: e in p.history + [step.event] <==> e in p.history || e == step.event;
    }
  }

  lemma PublishStartsSending(p: Protocol, step: Step)
    requires EntryInv(p) && PublisherInv(p) && Enabled(p, step) && (step.Publish? || step.Finish?)
    ensures PublisherInv(Next(p, step))
  {
    assert forall id <- step.order :: id in p.entry.subscribers;
  }

  lemma SendKeepsPublisher(p: Protocol, step: Step)
    requires PublisherInv(p) && Enabled(p, step) && (step.SendEvent? || step.SendDone?)
    requires !p.streams[p.publisher.todo[0]].channel.closed
    ensures PublisherInv(Next(p, step))
  {
    var target, rest, next := p.publisher.todo[0], p.publisher.todo[1..], Next(p, step);
    assert p.publisher.todo == [target] + rest && target in p.publisher.todo;
    assert Distinct(rest) && target !in rest;
    assert next.streams[target].notice == p.streams[target].notice;
    assert forall id <- rest :: id in p.publisher.todo && next.streams[id] == p.streams[id];
  }

  lemma CloseKeepsPublisher(p: Protocol)
    requires PublisherInv(p) && Enabled(p, CloseChannel)
    ensures PublisherInv(Next(p, CloseChannel))
  {
  }

  predicate ByReader(step: Step) {
    step.Subscribe? || step.YieldReplay? || step.Receive? || step.Leave? || step.Unsubscribe?
  }

  /** What the publisher relies on, and no reader touches. */
  predicate SameNotices(p: Protocol, next: Protocol) {
    && next.publisher == p.publisher && p.streams.Keys <= next.streams.Keys
    && forall id <- p.streams :: next.streams[id].notice == p.streams[id].notice
                                 && next.streams[id].channel.closed == p.streams[id].channel.closed
  }

  lemma ReaderKeepsNotices(p: Protocol, step: Step)
    requires Enabled(p, step) && ByReader(step)
    ensures SameNotices(p, Next(p, step))
  {
  }

  lemma ReaderKeepsPublisher(p: Protocol, next: Protocol)
    requires PublisherInv(p) && SameNotices(p, next)
    ensures PublisherInv(next)
  {
  }

  lemma OpenWhilePending(p: Protocol, id: SubscriberId)
    requires StreamsInv(p) && id in p.streams && Pending(p.publisher, id) != []
    ensures !p.streams[id].channel.closed
  {
    assert StreamInv(p, id);
  }

  lemma StepKeepsPublisher(p: Protocol, step: Step, next: Protocol)
    requires EntryInv(p) && PublisherInv(p) && StreamsInv(p) && Enabled(p, step) && next == Next(p, step)
    ensures PublisherInv(next)
  {
    if ByReader(step) {
      ReaderKeepsNotices(p, step);
      ReaderKeepsPublisher(p, next);
    } else if step.Publish? || step.Finish? {
      PublishStartsSending(p, step);
    } else if step.CloseChannel? {
      CloseKeepsPublisher(p);
    } else {
      OpenWhilePending(p, p.publisher.todo[0]);
      SendKeepsPublisher(p, step);
    }
  }

  lemma StepKeepsInv(p: Protocol, step: Step, next: Protocol)
    requires Inv(p) && Enabled(p, step) && next == Next(p, step)
    ensures Inv(next)
  {
    StepKeepsStreams(p, step, next);
    StepKeepsReplays(p, step, next);
    StepKeepsEntry(p, step, next);
    StepKeepsPublisher(p, step, next);
  }

  // ---------------------------------------------------------------- whole runs

  lemma {:induction false} RunKeepsInv(p: Protocol, steps: seq<Step>)
    requires Inv(p) && IsRun(p, steps)
    ensures Inv(After(p, steps))
    decreases |steps|
  {
    if steps != [] {
      StepKeepsInv(p, steps[0], Next(p, steps[0]));
      RunKeepsInv(Next(p, steps[0]), steps[1..]);
    }
  }

  /** Reachable states are the ones some run from the fresh entry ends in. */
  ghost predicate Reachable(p: Protocol) {
    exists steps: seq<Step> :: IsRun(INITIAL, steps) && After(INITIAL, steps) == p
  }

  lemma RunCons(p: Protocol, steps: seq<Step>, next: Protocol)
    requires steps != [] && Enabled(p, steps[0]) && next == Next(p, steps[0]) && IsRun(next, steps[1..])
    ensures IsRun(p, steps) && After(p, steps) == After(next, steps[1..])
  {
  }

  lemma {:induction false} RunConcat(p: Protocol, steps: seq<Step>, more: seq<Step>)
    requires IsRun(p, steps) && IsRun(After(p, steps), more)
    ensures IsRun(p, steps + more) && After(p, steps + more) == After(After(p, steps), more)
    decreases |steps|
  {
    if steps == [] {
      assert steps + more == more;
    } else {
      var next := Next(p, steps[0]);
      assert (steps + more)[0] == steps[0] && (steps + more)[1..] == steps[1..] + more;
      RunConcat(next, steps[1..], more);
      RunCons(p, steps + more, next);
    }
  }

  lemma OneStepRun(p: Protocol, step: Step)
    requires Enabled(p, step)
    ensures IsRun(p, [step]) && After(p, [step]) == Next(p, step)
  {
    var none: seq<Step> := [];
    assert [step][1..] == none;
    assert IsRun(Next(p, step), none) && After(Next(p, step), none) == Next(p, step);
  }

  lemma StepThenRun(p: Protocol, step: Step, rest: seq<Step>)
    requires Enabled(p, step) && IsRun(Next(p, step), rest)
    ensures IsRun(p, [step] + rest) && After(p, [step] + rest) == After(Next(p, step), rest)
  {
    assert ([step] + rest)[1..] == rest;
    RunCons(p, [step] + rest, Next(p, step));
  }

  lemma RunThenStep(p: Protocol, steps: seq<Step>, step: Step)
    requires IsRun(p, steps) && Enabled(After(p, steps), step)
    ensures IsRun(p, steps + [step]) && After(p, steps + [step]) == Next(After(p, steps), step)
  {
    OneStepRun(After(p, steps), step);
    RunConcat(p, steps, [step]);
  }

  lemma InitialIsReachable()
    ensures Reachable(INITIAL)
  {
    var none: seq<Step> := [];
    assert IsRun(INITIAL, none) && After(INITIAL, none) == INITIAL;
  }

  lemma ReachableNext(p: Protocol, step: Step)
    requires Reachable(p) && Enabled(p, step)
    ensures Reachable(Next(p, step))
  {
    var steps: seq<Step> :| IsRun(INITIAL, steps) && After(INITIAL, steps) == p;
    RunThenStep(INITIAL, steps, step);
  }

  lemma ReachableKeepsInv(p: Protocol)
    requires Reachable(p)
    ensures Inv(p)
  {
    var steps: seq<Step> :| IsRun(INITIAL, steps) && After(INITIAL, steps) == p;
    RunKeepsInv(INITIAL, steps);
  }

  lemma ReachableStream(p: Protocol, id: SubscriberId)
    requires Reachable(p) && id in p.streams
    ensures StreamInv(p, id) && ReplayOk(p.history, p.streams[id])
  {
    ReachableKeepsInv(p);
  }

  lemma ReachablePublisher(p: Protocol)
    requires Reachable(p)
    ensures PublisherInv(p)
  {
    ReachableKeepsInv(p);
  }

  // ---------------------------------------------------------------- what the reader sees

  lemma {:induction false} EventsInPrefix(events: seq<RunOutputEvent>, notice: seq<Delivery>, read: seq<Delivery>)
    requires read <= Deliveries(events) + notice
    requires |notice| <= 1 && forall d <- notice :: d.event.None?
    ensures EventsIn(read) <= events
    ensures |read| > |events| ==> EventsIn(read) == events
    ensures |read| <= |events| ==> |EventsIn(read)| == |read|
  {
    if read != [] {
      if events == [] {
        assert read[0] == notice[0];
        assert |read| == 1;
        assert EventsIn(read[1..]) == [];
      } else {
        assert read[0] == EventDelivery(events[0]);
        assert Deliveries(events)[1..] == Deliveries(events[1..]);
        assert (Deliveries(events) + notice)[1..] == Deliveries(events[1..]) + notice;
        EventsInPrefix(events[1..], notice, read[1..]);
      }
    }
  }

  /**
   * Whatever the interleaving, and wherever the caller stops, it has been
   * given a prefix, in order and without loss or repetition, of: the filtered
   * last 1024 events published before it subscribed, followed by what was
   * published from then until it left.
   */
  lemma StreamYieldsReplayThenLivePrefix(p: Protocol, id: SubscriberId)
    requires Reachable(p) && id in p.streams
    ensures var stream := p.streams[id];
            && SpanOk(p.history, stream)
            && stream.replayed <= |stream.replay|
            && Yielded(stream) <= Replay(LastN(p.history[..stream.joined], 1024), stream.afterSequence)
               + Span(p.history, stream)
            && EventsIn(stream.received) <= Span(p.history, stream)
            && (stream.received != [] ==> !InReplay(stream))
  {
    ReachableStream(p, id);
    var stream := p.streams[id];
    assert stream.received <= stream.received + stream.channel.queue + Pending(p.publisher, id);
    EventsInPrefix(Span(p.history, stream), NoticeOf(stream), stream.received);
    if stream.received != [] {
      assert stream.replay[..stream.replayed] == stream.replay;
    }
  }

  lemma DoneIsLast(history: seq<RunOutputEvent>, running: bool, registered: bool, pending: seq<Delivery>,
                   stream: Stream, i: nat)
    requires StreamOk(history, running, registered, pending, stream)
    requires i < |stream.received| && stream.received[i].done
    ensures i == |stream.received| - 1 && stream.channel.queue == [] && !running
    ensures EventsIn(stream.received) == history[stream.joined..]
  {
    var span := Span(history, stream);
    var all := Deliveries(span) + NoticeOf(stream);
    assert all == stream.received + stream.channel.queue + pending;
    assert all[i] == stream.received[i];
    assert i == |span| && |all| == i + 1;
    assert |all| == |stream.received| + |stream.channel.queue| + |pending|;
    assert stream.received <= all;
    EventsInPrefix(span, NoticeOf(stream), stream.received);
  }

  /**
   * The done notice is read last, and only after the caller has been given
   * the whole replay and everything published from its subscription to the
   * end of the source.
   */
  lemma DoneMeansComplete(p: Protocol, id: SubscriberId, i: nat)
    requires Reachable(p) && id in p.streams
    requires i < |p.streams[id].received| && p.streams[id].received[i].done
    ensures var stream := p.streams[id];
            && i == |stream.received| - 1
            && stream.joined <= |p.history|
            && !InReplay(stream)
            && EventsIn(stream.received) == p.history[stream.joined..]
            && stream.channel.queue == []
            && !SourceRunning(p)
  {
    ReachableStream(p, id);
    DoneIsLast(p.history, SourceRunning(p), id in p.entry.subscribers, Pending(p.publisher, id), p.streams[id], i);
  }

  /** No send ever targets a closed channel, and no channel is closed twice: Go would panic on either. */
  lemma ChannelsAreUsedSafely(p: Protocol, step: Step)
    requires Reachable(p) && Enabled(p, step)
    ensures step.SendEvent? || step.SendDone? ==> !p.streams[p.publisher.todo[0]].channel.closed
    ensures step.CloseChannel? ==> !p.streams[p.publisher.current].channel.closed
  {
    ReachablePublisher(p);
    if step.SendEvent? || step.SendDone? {
      assert p.publisher.todo[0] in p.publisher.todo;
      ReachableStream(p, p.publisher.todo[0]);
    }
  }
}
