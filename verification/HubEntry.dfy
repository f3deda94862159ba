/**
 * One hub entry: the bounded window of published events, the registered
 * subscribers and the terminal/error flags, as guarded by the entry's mutex.
 * Each method is one critical section of the entry.
 */
module HubEntry {
  import opened Text
  import opened RunOutputEvents

  const BUFFER_SIZE := 1024
  const SUBSCRIBER_BUFFER := 256

  /** A subscriber is identified by its channel pointer. */
  type SubscriberId = nat
  type Error = string

  /** runOutputDelivery: what travels on a subscriber's channel. */
  datatype Delivery = Delivery(event: Option<RunOutputEvent>, err: Option<Error>, done: bool)

  function EventDelivery(event: RunOutputEvent): Delivery { Delivery(Some(event), None, false) }

  function DoneDelivery(err: Option<Error>): Delivery { Delivery(None, err, true) }

  datatype EntryState = EntryState(
    buffer: seq<RunOutputEvent>,
    subscribers: set<SubscriberId>,
    terminal: bool,
    err: Option<Error>)

  const EMPTY_ENTRY := EntryState([], {}, false, None)

  /** What subscribe hands back; the subscriber is absent once the entry has ended. */
  datatype Subscription = Subscription(subscriber: Option<SubscriberId>, replay: seq<RunOutputEvent>, terminal: bool,
                                       err: Option<Error>)

  /** The longest suffix of `s` with at most `n` elements. */
  function LastN<T>(s: seq<T>, n: nat): (r: seq<T>)
    ensures |r| == if |s| <= n then |s| else n
    ensures r == s[|s| - |r|..]
  {
    if |s| <= n then s else s[|s| - n..]
  }

  /** The window of a history: what the entry keeps of everything it published. */
  function Window(history: seq<RunOutputEvent>): seq<RunOutputEvent> { LastN(history, BUFFER_SIZE) }

  predicate Replayed(event: RunOutputEvent, afterSequence: nat) {
    !(SequenceOf(event) != 0 && SequenceOf(event) <= afterSequence)
  }

  function Replay(buffer: seq<RunOutputEvent>, afterSequence: nat): seq<RunOutputEvent> {
    if buffer == [] then [] else
    (if Replayed(buffer[0], afterSequence) then [buffer[0]] else []) + Replay(buffer[1..], afterSequence)
  }

  lemma {:induction false} ReplayConcat(left: seq<RunOutputEvent>, right: seq<RunOutputEvent>, afterSequence: nat)
    ensures Replay(left + right, afterSequence) == Replay(left, afterSequence) + Replay(right, afterSequence)
  {
    if left == [] {
      assert left + right == right;
    } else {
      assert (left + right)[1..] == left[1..] + right;
      ReplayConcat(left[1..], right, afterSequence);
    }
  }

  predicate Ended(entry: EntryState) { entry.terminal || entry.err.Some? }

  function Subscribed(entry: EntryState, id: SubscriberId): EntryState {
    if Ended(entry) then entry else entry.(subscribers := entry.subscribers + {id})
  }

  function Unsubscribed(entry: EntryState, id: SubscriberId): EntryState {
    entry.(subscribers := entry.subscribers - {id})
  }

  function Published(entry: EntryState, event: RunOutputEvent): EntryState {
    entry.(buffer := LastN(entry.buffer + [event], BUFFER_SIZE), terminal := entry.terminal || IsTerminal(event))
  }

  function Finished(entry: EntryState, err: Option<Error>): EntryState {
    entry.(subscribers := {}, err := if err.Some? && !entry.terminal then err else entry.err)
  }

  /** An enumeration of a finite set: Go's unspecified map order. */
  predicate Enumerates(order: seq<SubscriberId>, ids: set<SubscriberId>) {
    && (forall i, j :: 0 <= i < j < |order| ==> order[i] != order[j])
    && ids == set id | id in order
  }

  lemma EnumeratesMore(out: seq<SubscriberId>, all: set<SubscriberId>, rest: set<SubscriberId>, id: SubscriberId)
    requires rest <= all && id in rest && Enumerates(out, all - rest)
    ensures Enumerates(out + [id], all - (rest - {id}))
  {
    assert all - (rest - {id}) == (all - rest) + {id};
    assert (set x | x in out + [id]) == (set x | x in out) + {id};
  }

  class RunOutputHubEntry {
    var buffer: seq<RunOutputEvent>
    var subscribers: set<SubscriberId>
    var terminal: bool
    var err: Option<Error>

    function State(): EntryState reads this { EntryState(buffer, subscribers, terminal, err) }

    constructor ()
      ensures State() == EMPTY_ENTRY
    {
      buffer, subscribers, terminal, err := [], {}, false, None;
    }

    /** subscribe: the replay and the registration are one atomic step. */
    method Subscribe(afterSequence: nat, channel: SubscriberId) returns (subscription: Subscription)
      modifies this
      ensures State() == Subscribed(old(State()), channel)
      ensures subscription.replay == Replay(old(buffer), afterSequence)
      ensures subscription.subscriber == if Ended(old(State())) then None else Some(channel)
      ensures subscription.terminal == old(terminal) && subscription.err == old(err)
    {
      var replay := [];
      for i := 0 to |buffer|
        invariant State() == old(State())
        invariant i <= |buffer| && replay == Replay(buffer[..i], afterSequence)
      {
        var event := buffer[i];
        assert buffer[..i + 1] == buffer[..i] + [event];
        ReplayConcat(buffer[..i], [event], afterSequence);
        var sequence := SequenceOf(event);
        if sequence != 0 && sequence <= afterSequence {
          continue;
        }
        replay := replay + [event];
      }
      assert buffer[..|buffer|] == buffer;
      if terminal || err.Some? {
        return Subscription(None, replay, terminal, err);
      }
      subscribers := subscribers + {channel};
      return Subscription(Some(channel), replay, false, None);
    }

    method Unsubscribe(channel: SubscriberId)
      modifies this
      ensures State() == Unsubscribed(old(State()), channel)
    {
      subscribers := subscribers - {channel};
    }

    /** The locked part of publish: the targets are sent to after the lock is released. */
    method Publish(event: RunOutputEvent) returns (targets: seq<SubscriberId>)
      modifies this
      ensures State() == Published(old(State()), event)
      ensures Enumerates(targets, subscribers)
    {
      buffer := buffer + [event];
      if |buffer| > BUFFER_SIZE {
        buffer := buffer[|buffer| - BUFFER_SIZE..];
      }
      if IsTerminal(event) {
        terminal := true;
      }
      targets := SubscriberList();
    }

    /** The locked part of finish. */
    method Finish(cause: Option<Error>) returns (isTerminal: bool, targets: seq<SubscriberId>)
      modifies this
      ensures State() == Finished(old(State()), cause)
      ensures isTerminal == old(terminal)
      ensures Enumerates(targets, old(subscribers))
    {
      if cause.Some? && !terminal {
        err := cause;
      }
      isTerminal := terminal;
      targets := SubscriberList();
      subscribers := {};
    }

    method SubscriberList() returns (out: seq<SubscriberId>)
      ensures Enumerates(out, subscribers)
    {
      out := [];
      var rest := subscribers;
      while rest != {}
        invariant rest <= subscribers
        invariant Enumerates(out, subscribers - rest)
        decreases |rest|
      {
        var id :| id in rest;
        EnumeratesMore(out, subscribers, rest, id);
        rest := rest - {id};
        out := out + [id];
      }
    }
  }
}
