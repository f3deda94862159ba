/** The hub: one live entry per run id, created on demand and removed after it ends. */
module HubRegistry {
  import opened Text
  import opened RunOutputEvents
  import opened HubEntry
  import opened HubProtocol
  import opened HubDelivery
  import opened HubBlocking

  /** An entry is identified by its pointer. */
  type EntryId = nat

  datatype Slot = Slot(runID: string, protocol: Protocol, removed: bool)

  /** `entries` is the hub's map; `slots` are all entries ever created, with their goroutines. */
  datatype Hub = Hub(entries: map<string, EntryId>, slots: map<EntryId, Slot>)

  const EMPTY_HUB := Hub(map[], map[])

  datatype HubStep =
    | Open(runID: string, newEntry: EntryId)
    | Inner(entry: EntryId, step: Step)
    | Remove(entry: EntryId)

  function EntryOf(entries: map<string, EntryId>, runID: string, newEntry: EntryId): EntryId {
    if runID in entries then entries[runID] else newEntry
  }

  function WithEntry(entries: map<string, EntryId>, runID: string, newEntry: EntryId): map<string, EntryId> {
    if runID in entries then entries else entries[runID := newEntry]
  }

  function WithoutEntry(entries: map<string, EntryId>, runID: string, entry: EntryId): map<string, EntryId> {
    if runID in entries && entries[runID] == entry then entries - {runID} else entries
  }

  class RunOutputHub {
    var entries: map<string, EntryId>

    constructor ()
      ensures entries == map[]
    {
      entries := map[];
    }

    /** entry: get or create; a created entry starts its own source goroutine. */
    method Entry(runID: string, newEntry: EntryId) returns (entry: EntryId, created: bool)
      modifies this
      ensures entries == WithEntry(old(entries), runID, newEntry)
      ensures entry == EntryOf(old(entries), runID, newEntry)
      ensures created <==> runID !in old(entries)
    {
      if runID in entries {
        return entries[runID], false;
      }
      entries := entries[runID := newEntry];
      return newEntry, true;
    }

    method Remove(runID: string, entry: EntryId)
      modifies this
      ensures entries == WithoutEntry(old(entries), runID, entry)
    {
      if runID in entries && entries[runID] == entry {
        entries := entries - {runID};
      }
    }
  }

  /** finish calls remove once, when the source has ended: at once, or a minute after a terminal event. */
  predicate HubEnabled(hub: Hub, step: HubStep) {
    match step
    case Open(runID, newEntry) => TrimSpace(runID) != "" && newEntry !in hub.slots
    case Inner(entry, inner) => entry in hub.slots && Enabled(hub.slots[entry].protocol, inner)
    case Remove(entry) => entry in hub.slots && hub.slots[entry].protocol.publisher.Ended? && !hub.slots[entry].removed
  }

  function HubNext(hub: Hub, step: HubStep): Hub
    requires HubEnabled(hub, step)
  {
    match step
    case Open(rawID, newEntry) =>
      var runID := TrimSpace(rawID);
      Hub(WithEntry(hub.entries, runID, newEntry),
          if runID in hub.entries then hub.slots else hub.slots[newEntry := Slot(runID, INITIAL, false)])
    case Inner(entry, inner) =>
      var slot := hub.slots[entry];
      hub.(slots := hub.slots[entry := slot.(protocol := Next(slot.protocol, inner))])
    case Remove(entry) =>
      var slot := hub.slots[entry];
      Hub(WithoutEntry(hub.entries, slot.runID, entry), hub.slots[entry := slot.(removed := true)])
  }

  predicate IsHubRun(hub: Hub, steps: seq<HubStep>)
    decreases |steps|
  {
    steps == [] || (HubEnabled(hub, steps[0]) && IsHubRun(HubNext(hub, steps[0]), steps[1..]))
  }

  function HubAfter(hub: Hub, steps: seq<HubStep>): Hub
    requires IsHubRun(hub, steps)
    decreases |steps|
  {
    if steps == [] then hub else HubAfter(HubNext(hub, steps[0]), steps[1..])
  }

  predicate Registered(hub: Hub, entry: EntryId)
    requires entry in hub.slots
  {
    hub.slots[entry].runID in hub.entries && hub.entries[hub.slots[entry].runID] == entry
  }

  /** An entry is in the map exactly until it removes itself, which is after its source has ended. */
  ghost predicate HubInv(hub: Hub) {
    && (forall runID <- hub.entries :: hub.entries[runID] in hub.slots && hub.slots[hub.entries[runID]].runID == runID)
    && (forall entry <- hub.slots :: hub.slots[entry].removed <==> !Registered(hub, entry))
    && (forall entry <- hub.slots :: hub.slots[entry].removed ==> hub.slots[entry].protocol.publisher.Ended?)
    && (forall entry <- hub.slots :: Reachable(hub.slots[entry].protocol))
  }

  lemma EndedStaysEnded(p: Protocol, step: Step)
    requires p.publisher.Ended? && Enabled(p, step)
    ensures Next(p, step).publisher.Ended?
  {
  }

  lemma OpenKeepsInv(hub: Hub, step: HubStep)
    requires HubInv(hub) && HubEnabled(hub, step) && step.Open?
    ensures HubInv(HubNext(hub, step))
  {
    InitialIsReachable();
    var runID, next := TrimSpace(step.runID), HubNext(hub, step);
    if runID !in hub.entries {
      forall entry <- next.slots ensures next.slots[entry].removed <==> !Registered(next, entry) {
        if entry != step.newEntry {
          assert hub.slots[entry].removed <==> !Registered(hub, entry);
        }
      }
    }
  }

  lemma InnerKeepsInv(hub: Hub, step: HubStep)
    requires HubInv(hub) && HubEnabled(hub, step) && step.Inner?
    ensures HubInv(HubNext(hub, step))
  {
    var p := hub.slots[step.entry].protocol;
    ReachableNext(p, step.step);
    if hub.slots[step.entry].removed {
      EndedStaysEnded(p, step.step);
    }
    var next := HubNext(hub, step);
    forall entry <- next.slots ensures next.slots[entry].removed <==> !Registered(next, entry) {
      assert hub.slots[entry].removed <==> !Registered(hub, entry);
    }
  }

  lemma RemoveKeepsInv(hub: Hub, step: HubStep)
    requires HubInv(hub) && HubEnabled(hub, step) && step.Remove?
    ensures HubInv(HubNext(hub, step))
  {
    assert Registered(hub, step.entry);
    var next := HubNext(hub, step);
    forall entry <- next.slots ensures next.slots[entry].removed <==> !Registered(next, entry) {
      assert hub.slots[entry].removed <==> !Registered(hub, entry);
    }
  }

  lemma HubStepKeepsInv(hub: Hub, step: HubStep)
    requires HubInv(hub) && HubEnabled(hub, step)
    ensures HubInv(HubNext(hub, step))
  {
    match step
    case Open(_, _) => OpenKeepsInv(hub, step);
    case Inner(_, _) => InnerKeepsInv(hub, step);
    case Remove(_) => RemoveKeepsInv(hub, step);
  }

  lemma {:induction false} HubRunKeepsInv(hub: Hub, steps: seq<HubStep>)
    requires HubInv(hub) && IsHubRun(hub, steps)
    ensures HubInv(HubAfter(hub, steps))
    decreases |steps|
  {
    if steps != [] {
      HubStepKeepsInv(hub, steps[0]);
      HubRunKeepsInv(HubNext(hub, steps[0]), steps[1..]);
    }
  }

  /** At any moment of any run, at most one source stream is running per run id. */
  lemma OneSourcePerRun(steps: seq<HubStep>, first: EntryId, second: EntryId)
    requires IsHubRun(EMPTY_HUB, steps)
    requires var slots := HubAfter(EMPTY_HUB, steps).slots;
             && first in slots && second in slots && slots[first].runID == slots[second].runID
             && SourceRunning(slots[first].protocol) && SourceRunning(slots[second].protocol)
    ensures first == second
  {
    HubRunKeepsInv(EMPTY_HUB, steps);
    var hub := HubAfter(EMPTY_HUB, steps);
    assert Registered(hub, first) && Registered(hub, second);
  }

  /** However long a removal is delayed, it takes out the remover's own mapping and nobody else's. */
  lemma RemoveTakesOnlyItsOwn(steps: seq<HubStep>, entry: EntryId)
    requires IsHubRun(EMPTY_HUB, steps) && HubEnabled(HubAfter(EMPTY_HUB, steps), Remove(entry))
    ensures var hub := HubAfter(EMPTY_HUB, steps);
            var next := HubNext(hub, Remove(entry));
            && next.entries == hub.entries - {hub.slots[entry].runID}
            && forall other <- hub.slots :: other != entry && Registered(hub, other) ==> Registered(next, other)
  {
    HubRunKeepsInv(EMPTY_HUB, steps);
    var hub := HubAfter(EMPTY_HUB, steps);
    assert Registered(hub, entry);
  }

  // ---------------------------------------------------------------- a blocked entry

  lemma {:induction false} BlockedSlotStays(hub: Hub, entry: EntryId, id: SubscriberId, steps: seq<HubStep>)
    requires entry in hub.slots && Blocked(hub.slots[entry].protocol, id) && IsHubRun(hub, steps)
    ensures entry in HubAfter(hub, steps).slots && Blocked(HubAfter(hub, steps).slots[entry].protocol, id)
    ensures HubAfter(hub, steps).slots[entry].runID == hub.slots[entry].runID
    decreases |steps|
  {
    if steps != [] {
      if steps[0].Inner? && steps[0].entry == entry {
        OneStepRun(hub.slots[entry].protocol, steps[0].step);
        BlockedForever(hub.slots[entry].protocol, id, [steps[0].step]);
      }
      BlockedSlotStays(HubNext(hub, steps[0]), entry, id, steps[1..]);
    }
  }

  /**
   * An entry whose source goroutine is blocked, on an event or on its done
   * notice, keeps its run id for good: it is never removed, and every later
   * stream of that run joins it.
   */
  lemma BlockedEntryStaysRegistered(hub: Hub, entry: EntryId, id: SubscriberId, steps: seq<HubStep>)
    requires HubInv(hub) && entry in hub.slots && Blocked(hub.slots[entry].protocol, id) && IsHubRun(hub, steps)
    ensures var next, runID := HubAfter(hub, steps), hub.slots[entry].runID;
            && runID in next.entries && next.entries[runID] == entry
            && !HubEnabled(next, Remove(entry))
            && forall newEntry :: EntryOf(next.entries, runID, newEntry) == entry
  {
    HubRunKeepsInv(hub, steps);
    BlockedSlotStays(hub, entry, id, steps);
    assert Registered(HubAfter(hub, steps), entry);
  }

  lemma HubRunCons(hub: Hub, step: HubStep, rest: seq<HubStep>)
    requires HubEnabled(hub, step) && IsHubRun(HubNext(hub, step), rest)
    ensures IsHubRun(hub, [step] + rest) && HubAfter(hub, [step] + rest) == HubAfter(HubNext(hub, step), rest)
  {
    assert ([step] + rest)[1..] == rest;
  }

  /** A run of one entry is a run of the hub that leaves everything else alone. */
  lemma {:induction false} EntryRunIsHubRun(hub: Hub, entry: EntryId, steps: seq<Step>) returns (inner: seq<HubStep>)
    requires entry in hub.slots && IsRun(hub.slots[entry].protocol, steps)
    ensures IsHubRun(hub, inner)
    ensures var slot := hub.slots[entry];
            HubAfter(hub, inner) == hub.(slots := hub.slots[entry := slot.(protocol := After(slot.protocol, steps))])
    decreases |steps|
  {
    if steps == [] {
      inner := [];
      assert hub.slots == hub.slots[entry := hub.slots[entry]];
    } else {
      var step := Inner(entry, steps[0]);
      var next := HubNext(hub, step);
      var rest := EntryRunIsHubRun(next, entry, steps[1..]);
      HubRunCons(hub, step, rest);
      inner := [step] + rest;
      var last := HubAfter(next, rest).slots[entry];
      assert next.slots[entry := last] == hub.slots[entry := last];
    }
  }

  /** It happens: a reader that leaves with a full channel keeps a finishing source, and its entry, in the hub. */
  lemma FinishedEntryCanStay(event: RunOutputEvent) returns (steps: seq<HubStep>)
    requires !IsTerminal(event)
    ensures IsHubRun(EMPTY_HUB, steps)
    ensures var hub := HubAfter(EMPTY_HUB, steps);
            && 0 in hub.slots && hub.slots[0].protocol.publisher.Finishing? && Blocked(hub.slots[0].protocol, 0)
            && hub.entries == map["run" := 0]
            && hub.slots[0].protocol.streams.Keys == {0} && !HubEntry.Ended(hub.slots[0].protocol.entry)
  {
    var open := Open("run", 0);
    var hub := HubNext(EMPTY_HUB, open);
    var sending, finishing := PublisherCanBlock(event);
    var inner := EntryRunIsHubRun(hub, 0, finishing);
    HubRunCons(EMPTY_HUB, open, inner);
    steps := [open] + inner;
  }

  /** What a new stream of a run whose entry is in the map subscribes to. */
  function Joined(hub: Hub, entry: EntryId, id: SubscriberId, afterSequence: nat): Hub
    requires entry in hub.slots && id !in hub.slots[entry].protocol.streams
  {
    HubNext(hub, Inner(entry, Subscribe(id, afterSequence)))
  }

  lemma {:induction false} WaitingSlotStays(hub: Hub, entry: EntryId, id: SubscriberId, steps: seq<HubStep>)
    requires entry in hub.slots && WaitsForNothing(hub.slots[entry].protocol, id) && IsHubRun(hub, steps)
    requires Inner(entry, Leave(id)) !in steps
    ensures entry in HubAfter(hub, steps).slots && Waiting(HubAfter(hub, steps).slots[entry].protocol, id)
    decreases |steps|
  {
    var p := hub.slots[entry].protocol;
    if steps == [] {
      var none: seq<Step> := [];
      assert IsRun(p, none) && After(p, none) == p && Leave(id) !in none;
    } else {
      assert steps[0] in steps;
      if steps[0].Inner? && steps[0].entry == entry {
        WaitsAfterStep(p, id, steps[0].step);
      }
      WaitingSlotStays(HubNext(hub, steps[0]), entry, id, steps[1..]);
    }
  }

  lemma WaitsAfterStep(p: Protocol, id: SubscriberId, step: Step)
    requires WaitsForNothing(p, id) && Enabled(p, step) && step != Leave(id)
    ensures WaitsForNothing(Next(p, step), id)
  {
    forall rest: seq<Step> | IsRun(Next(p, step), rest) && Leave(id) !in rest
      ensures Waiting(After(Next(p, step), rest), id) {
      StepThenRun(p, step, rest);
      assert Leave(id) !in [step] + rest;
    }
  }

  /**
   * A stream of a run whose entry is blocked on a done notice joins that
   * entry, whatever the hub did in between, and if the source had ended
   * without a terminal result or an error it then waits for nothing.
   */
  lemma JoinedBlockedEntryWaits(hub: Hub, entry: EntryId, full: SubscriberId, before: seq<HubStep>,
                                id: SubscriberId, afterSequence: nat, later: seq<HubStep>)
    requires HubInv(hub) && entry in hub.slots && Blocked(hub.slots[entry].protocol, full)
    requires hub.slots[entry].protocol.publisher.Finishing? && !HubEntry.Ended(hub.slots[entry].protocol.entry)
    requires IsHubRun(hub, before)
    requires var now := HubAfter(hub, before);
             entry in now.slots && id !in now.slots[entry].protocol.streams
               && IsHubRun(Joined(now, entry, id, afterSequence), later)
    requires Inner(entry, Leave(id)) !in later
    ensures var now := HubAfter(hub, before);
            && (forall newEntry :: EntryOf(now.entries, hub.slots[entry].runID, newEntry) == entry)
            && var end := HubAfter(Joined(now, entry, id, afterSequence), later);
               entry in end.slots && Waiting(end.slots[entry].protocol, id)
  {
    BlockedEntryStaysRegistered(hub, entry, full, before);
    BlockedEndStays(hub, entry, full, before);
    HubRunKeepsInv(hub, before);
    var now := HubAfter(hub, before);
    JoinedAfterEndIff(now.slots[entry].protocol, id, afterSequence);
    WaitingSlotStays(Joined(now, entry, id, afterSequence), entry, id, later);
  }

  /** In the hub FinishedEntryCanStay ends in, the next stream of the run is such a one. */
  lemma NextStreamWaits(event: RunOutputEvent, later: seq<HubStep>) returns (steps: seq<HubStep>)
    requires !IsTerminal(event) && Inner(0, Leave(1)) !in later
    ensures IsHubRun(EMPTY_HUB, steps)
    ensures var hub := HubAfter(EMPTY_HUB, steps);
            && hub.entries == map["run" := 0] && 0 in hub.slots && 1 !in hub.slots[0].protocol.streams
            && (IsHubRun(Joined(hub, 0, 1, 0), later) ==>
                  var end := HubAfter(Joined(hub, 0, 1, 0), later);
                  0 in end.slots && Waiting(end.slots[0].protocol, 1))
  {
    steps := FinishedEntryCanStay(event);
    var hub := HubAfter(EMPTY_HUB, steps);
    HubRunKeepsInv(EMPTY_HUB, steps);
    if IsHubRun(Joined(hub, 0, 1, 0), later) {
      var none: seq<HubStep> := [];
      assert IsHubRun(hub, none) && HubAfter(hub, none) == hub;
      JoinedBlockedEntryWaits(hub, 0, 0, none, 1, 0, later);
    }
  }

  /** What the entry recorded when its source ended stays as it is. */
  lemma {:induction false} BlockedEndStays(hub: Hub, entry: EntryId, full: SubscriberId, steps: seq<HubStep>)
    requires entry in hub.slots && Blocked(hub.slots[entry].protocol, full)
             && hub.slots[entry].protocol.publisher.Finishing?
    requires IsHubRun(hub, steps)
    ensures entry in HubAfter(hub, steps).slots
    ensures var p := HubAfter(hub, steps).slots[entry].protocol;
            && p.publisher.Finishing? && HubEntry.Ended(p.entry) == HubEntry.Ended(hub.slots[entry].protocol.entry)
    decreases |steps|
  {
    if steps != [] {
      BlockedEndStays(HubNext(hub, steps[0]), entry, full, steps[1..]);
    }
  }

  /** What one stream of one entry is promised, for any entry and stream of any hub run. */
  lemma EveryEntryDelivers(steps: seq<HubStep>, entry: EntryId, id: SubscriberId)
    requires IsHubRun(EMPTY_HUB, steps)
    requires entry in HubAfter(EMPTY_HUB, steps).slots
    requires id in HubAfter(EMPTY_HUB, steps).slots[entry].protocol.streams
    ensures var p := HubAfter(EMPTY_HUB, steps).slots[entry].protocol;
            var stream := p.streams[id];
            && SpanOk(p.history, stream)
            && stream.replayed <= |stream.replay|
            && Yielded(stream) <= Replay(LastN(p.history[..stream.joined], 1024), stream.afterSequence)
               + Span(p.history, stream)
            && EventsIn(stream.received) <= Span(p.history, stream)
  {
    HubRunKeepsInv(EMPTY_HUB, steps);
    StreamYieldsReplayThenLivePrefix(HubAfter(EMPTY_HUB, steps).slots[entry].protocol, id);
  }
}
