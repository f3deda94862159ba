/**
 * The concurrent life of one hub entry: the source goroutine publishes under
 * the entry lock and sends to each subscriber after releasing it, while any
 * number of streams subscribe, read and leave in between. A run is an
 * arbitrary interleaving of the atomic steps below.
 */
module HubProtocol {
  import opened Text
  import opened RunOutputEvents
  import opened HubEntry

  /** A subscriber's buffered Go channel. */
  datatype Channel = Channel(queue: seq<Delivery>, closed: bool)

  /**
   * One call of Stream on this entry. `joined` and `left` are the history
   * lengths at which it entered and left the subscriber set, `notice` is the
   * done delivery finish decided to send it, `received` what it has read.
   * `replayed` counts the replayed events already passed to the caller,
   * `subscribed` is false for a call that was refused a subscriber, `refusal`
   * is the error subscribe answered with, and `reading` is true until the call
   * returns.
   */
  datatype Stream = Stream(
    afterSequence: nat,
    replay: seq<RunOutputEvent>,
    replayed: nat,
    subscribed: bool,
    refusal: Option<Error>,
    joined: nat,
    left: Option<nat>,
    notice: Option<Delivery>,
    channel: Channel,
    received: seq<Delivery>,
    reading: bool)

  /** Where the source goroutine is; `todo` are the sends still to be made. */
  datatype Publisher =
    | Idle
    | Sending(event: RunOutputEvent, todo: seq<SubscriberId>)
    | Finishing(done: Delivery, todo: seq<SubscriberId>)
    | Closing(done: Delivery, current: SubscriberId, todo: seq<SubscriberId>)
    | Ended

  datatype Protocol = Protocol(
    entry: EntryState,
    history: seq<RunOutputEvent>,
    publisher: Publisher,
    streams: map<SubscriberId, Stream>)

  const INITIAL := Protocol(EMPTY_ENTRY, [], Idle, map[])

  datatype Step =
    | Publish(event: RunOutputEvent, order: seq<SubscriberId>)
    | SendEvent
    | Finish(err: Option<Error>, order: seq<SubscriberId>)
    | SendDone
    | CloseChannel
    | Subscribe(id: SubscriberId, afterSequence: nat)
    | YieldReplay(id: SubscriberId)
    | Receive(id: SubscriberId)
    | Leave(id: SubscriberId)
    | Unsubscribe(id: SubscriberId)

  predicate SourceRunning(p: Protocol) { p.publisher.Idle? || p.publisher.Sending? }

  predicate HasRoom(p: Protocol, id: SubscriberId) {
    id in p.streams && |p.streams[id].channel.queue| < SUBSCRIBER_BUFFER
  }

  predicate InReplay(stream: Stream) { stream.replayed < |stream.replay| }

  /**
   * A channel send blocks while the queue is full; receive blocks while it is
   * empty. A stream leaves when its caller stops it, inside the replay or
   * after it, and at the latest when a refused one has replayed everything.
   */
  predicate Enabled(p: Protocol, step: Step) {
    match step
    case Publish(_, order) => p.publisher.Idle? && Enumerates(order, p.entry.subscribers)
    case SendEvent => p.publisher.Sending? && p.publisher.todo != [] && HasRoom(p, p.publisher.todo[0])
    case Finish(_, order) => p.publisher.Idle? && Enumerates(order, p.entry.subscribers)
    case SendDone => p.publisher.Finishing? && p.publisher.todo != [] && HasRoom(p, p.publisher.todo[0])
    case CloseChannel => p.publisher.Closing? && p.publisher.current in p.streams
    case Subscribe(id, _) => id !in p.streams
    case YieldReplay(id) => id in p.streams && p.streams[id].reading && InReplay(p.streams[id])
    case Receive(id) =>
      && id in p.streams && p.streams[id].reading && p.streams[id].subscribed
      && !InReplay(p.streams[id]) && p.streams[id].channel.queue != []
    case Leave(id) => id in p.streams && p.streams[id].reading
    case Unsubscribe(id) => id in p.streams && p.streams[id].subscribed && !p.streams[id].reading
  }

  function AfterSend(event: RunOutputEvent, todo: seq<SubscriberId>): Publisher {
    if todo == [] then Idle else Sending(event, todo)
  }

  function AfterClose(done: Delivery, todo: seq<SubscriberId>): Publisher {
    if todo == [] then Ended else Finishing(done, todo)
  }

  function Enqueued(stream: Stream, delivery: Delivery): Stream {
    stream.(channel := stream.channel.(queue := stream.channel.queue + [delivery]))
  }

  /** The select loop of Stream reads one delivery and decides whether to go on. */
  function Read(stream: Stream): Stream
    requires stream.channel.queue != []
  {
    var delivery := stream.channel.queue[0];
    stream.(channel := stream.channel.(queue := stream.channel.queue[1..]),
            received := stream.received + [delivery],
            reading := !delivery.done && delivery.err.None?)
  }

  function OpenedStream(p: Protocol, afterSequence: nat): Stream {
    var ended := HubEntry.Ended(p.entry);
    Stream(afterSequence, Replay(p.entry.buffer, afterSequence), 0, !ended, if ended then p.entry.err
           else None, |p.history|,
           if ended then Some(|p.history|) else None, None, Channel([], false), [], true)
  }

  /** finish hands every registered subscriber its done delivery and empties the set. */
  function Noticed(p: Protocol, done: Delivery): map<SubscriberId, Stream> {
    map id | id in p.streams ::
      if id in p.entry.subscribers
      then p.streams[id].(left := Some(|p.history|), notice := Some(done))
      else p.streams[id]
  }

  function Departed(p: Protocol, stream: Stream): Stream {
    if stream.left.None? then stream.(left := Some(|p.history|)) else stream
  }

  function Next(p: Protocol, step: Step): Protocol
    requires Enabled(p, step)
  {
    match step
    case Publish(event, order) =>
      p.(entry := Published(p.entry, event), history := p.history + [event], publisher := AfterSend(event, order))
    case SendEvent =>
      var id := p.publisher.todo[0];
      p.(publisher := AfterSend(p.publisher.event, p.publisher.todo[1..]),
         streams := p.streams[id := Enqueued(p.streams[id], EventDelivery(p.publisher.event))])
    case Finish(err, order) =>
      var done := DoneDelivery(err);
      p.(entry := Finished(p.entry, err), publisher := AfterClose(done, order), streams := Noticed(p, done))
    case SendDone =>
      var id := p.publisher.todo[0];
      p.(publisher := Closing(p.publisher.done, id, p.publisher.todo[1..]),
         streams := p.streams[id := Enqueued(p.streams[id], p.publisher.done)])
    case CloseChannel =>
      var id := p.publisher.current;
      p.(publisher := AfterClose(p.publisher.done, p.publisher.todo),
         streams := p.streams[id := p.streams[id].(channel := p.streams[id].channel.(closed := true))])
    case Subscribe(id, afterSequence) =>
      p.(entry := Subscribed(p.entry, id), streams := p.streams[id := OpenedStream(p, afterSequence)])
    case YieldReplay(id) =>
      p.(streams := p.streams[id := p.streams[id].(replayed := p.streams[id].replayed + 1)])
    case Receive(id) => p.(streams := p.streams[id := Read(p.streams[id])])
    case Leave(id) => p.(streams := p.streams[id := p.streams[id].(reading := false)])
    case Unsubscribe(id) =>
      p.(entry := Unsubscribed(p.entry, id), streams := p.streams[id := Departed(p, p.streams[id])])
  }

  // ---------------------------------------------------------------- runs

  predicate IsRun(p: Protocol, steps: seq<Step>)
    decreases |steps|
  {
    steps == [] || (Enabled(p, steps[0]) && IsRun(Next(p, steps[0]), steps[1..]))
  }

  function After(p: Protocol, steps: seq<Step>): Protocol
    requires IsRun(p, steps)
    decreases |steps|
  {
    if steps == [] then p else After(Next(p, steps[0]), steps[1..])
  }

  // ---------------------------------------------------------------- the delivery invariant

  function Deliveries(events: seq<RunOutputEvent>): (r: seq<Delivery>)
    ensures |r| == |events|
  {
    seq(|events|, i requires 0 <= i < |events| => EventDelivery(events[i]))
  }

  /** The events of the deliveries a stream passes to its caller. */
  function EventsIn(deliveries: seq<Delivery>): seq<RunOutputEvent> {
    if deliveries == [] then [] else
    (if deliveries[0].event.Some? then [deliveries[0].event.value] else []) + EventsIn(deliveries[1..])
  }

  /** Everything the stream's caller has been given: the replay so far, then the live events. */
  function Yielded(stream: Stream): seq<RunOutputEvent>
    requires stream.replayed <= |stream.replay|
  {
    stream.replay[..stream.replayed] + EventsIn(stream.received)
  }

  /** Sends already decided on but not yet made. */
  function Pending(publisher: Publisher, id: SubscriberId): seq<Delivery> {
    match publisher
    case Sending(event, todo) => if id in todo then [EventDelivery(event)] else []
    case Finishing(done, todo) => if id in todo then [done] else []
    case Closing(done, _, todo) => if id in todo then [done] else []
    case _ => []
  }

  function Until(history: seq<RunOutputEvent>, stream: Stream): nat {
    if stream.left.Some? then stream.left.value else |history|
  }

  predicate SpanOk(history: seq<RunOutputEvent>, stream: Stream) {
    stream.joined <= Until(history, stream) <= |history|
  }

  /** The events published while the stream was registered. */
  function Span(history: seq<RunOutputEvent>, stream: Stream): seq<RunOutputEvent>
    requires SpanOk(history, stream)
  {
    history[stream.joined..Until(history, stream)]
  }

  function NoticeOf(stream: Stream): seq<Delivery> {
    if stream.notice.Some? then [stream.notice.value] else []
  }

  /** Received, queued and pending deliveries add up to the events of the stream's span, then its done notice. */
  predicate Conserved(history: seq<RunOutputEvent>, pending: seq<Delivery>, stream: Stream) {
    && SpanOk(history, stream)
    && stream.received + stream.channel.queue + pending == Deliveries(Span(history, stream)) + NoticeOf(stream)
  }

  /** What holds of one stream, given whether it is registered and what is pending for it. */
  predicate StreamOk(history: seq<RunOutputEvent>, running: bool, registered: bool, pending: seq<Delivery>,
                     stream: Stream) {
    && Conserved(history, pending, stream)
    && (registered <==> stream.left.None?)
    && (stream.left.None? ==> stream.notice.None?)
    && (stream.notice.Some? ==>
          stream.notice.value.done && stream.notice.value.event.None? && stream.left == Some(|history|) && !running)
    && (stream.channel.closed ==> stream.notice.Some? && pending == [])
    && |stream.channel.queue| <= SUBSCRIBER_BUFFER
    && (!stream.subscribed ==> stream.left == Some(stream.joined) && stream.notice.None?)
  }

  predicate StreamInv(p: Protocol, id: SubscriberId)
    requires id in p.streams
  {
    StreamOk(p.history, SourceRunning(p), id in p.entry.subscribers, Pending(p.publisher, id), p.streams[id])
  }

  predicate Distinct(ids: seq<SubscriberId>) { forall i, j :: 0 <= i < j < |ids| ==> ids[i] != ids[j] }

  predicate IsNoticed(p: Protocol, id: SubscriberId, done: Delivery) {
    id in p.streams && p.streams[id].notice == Some(done)
  }

  predicate PublisherInv(p: Protocol) {
    match p.publisher
    case Idle => true
    case Sending(_, todo) => todo != [] && Distinct(todo) && forall id <- todo :: id in p.streams
    case Finishing(done, todo) => todo != [] && Distinct(todo) && forall id <- todo :: IsNoticed(p, id, done)
    case Closing(done, current, todo) =>
      && current !in todo && Distinct(todo)
      && IsNoticed(p, current, done) && !p.streams[current].channel.closed
      && forall id <- todo :: IsNoticed(p, id, done)
    case Ended => true
  }

  predicate EntryInv(p: Protocol) {
    && p.entry.buffer == Window(p.history)
    && (p.entry.terminal <==> exists event <- p.history :: IsTerminal(event))
    && (p.entry.err.Some? ==> !SourceRunning(p))
    && p.entry.subscribers <= p.streams.Keys
  }

  predicate StreamsInv(p: Protocol) { forall id <- p.streams :: StreamInv(p, id) }

  /**
   * The replay is the filtered window of what had been published when the
   * stream subscribed, and nothing live is read before it has been yielded.
   */
  predicate ReplayOk(history: seq<RunOutputEvent>, stream: Stream) {
    && stream.joined <= |history|
    && stream.replay == Replay(Window(history[..stream.joined]), stream.afterSequence)
    && stream.replayed <= |stream.replay|
    && (stream.received != [] ==> !InReplay(stream))
  }

  predicate ReplaysInv(p: Protocol) { forall id <- p.streams :: ReplayOk(p.history, p.streams[id]) }

  predicate Inv(p: Protocol) { EntryInv(p) && PublisherInv(p) && StreamsInv(p) && ReplaysInv(p) }
}
