/** The stored form of a session, and its conversion to and from the session state. */
module SessionResource {
  import opened Text
  import opened Decimal
  import opened SessionTypes

  datatype StoredCondition = StoredCondition(
    conditionType: string, status: string, reason: string, message: string,
    observedGeneration: int, lastTransitionTime: TimeText)

  datatype StoredStatus = StoredStatus(
    observed: Observed, conditions: seq<StoredCondition>, phase: string, activeRunID: string, updatedAt: TimeText)

  const NEW_STATUS := StoredStatus(NOTHING_OBSERVED, [], "", "", NoText)

  datatype Metadata = Metadata(name: string, namespace: string, generation: int, resourceVersion: string)

  /** The row's JSON payload; the session is absent when the payload holds none. */
  datatype Resource = Resource(metadata: Metadata, session: Option<Spec>, status: StoredStatus)

  // ---------------------------------------------------------------- enum texts

  /** resourcePhase. */
  function PhaseText(phase: int): string {
    if phase == PHASE_PENDING then "PENDING"
    else if phase == PHASE_READY then "READY"
    else if phase == PHASE_RUNNING then "RUNNING"
    else if phase == PHASE_FAILED then "FAILED"
    else ""
  }

  /** sessionPhase. */
  function PhaseOf(text: string): int {
    var phase := TrimSpace(text);
    if phase == "PENDING" then PHASE_PENDING
    else if phase == "READY" then PHASE_READY
    else if phase == "RUNNING" then PHASE_RUNNING
    else if phase == "FAILED" then PHASE_FAILED
    else PHASE_UNSPECIFIED
  }

  /** resourceConditionStatus. */
  function ConditionText(status: int): string {
    if status == STATUS_TRUE then "True"
    else if status == STATUS_FALSE then "False"
    else if status == STATUS_UNKNOWN then "Unknown"
    else ""
  }

  /** conditionStatusFromResource. */
  function ConditionOf(text: string): int {
    var status := TrimSpace(text);
    if status in {"True", "true", "CONDITION_STATUS_TRUE"} then STATUS_TRUE
    else if status in {"False", "false", "CONDITION_STATUS_FALSE"} then STATUS_FALSE
    else if status in {"Unknown", "unknown", "CONDITION_STATUS_UNKNOWN"} then STATUS_UNKNOWN
    else STATUS_UNSPECIFIED
  }

  // ---------------------------------------------------------------- conditions

  function TimeTextOf(time: Option<Timestamp>): TimeText { if time.None? then NoText else FormatTime(time.value) }

  function Stored(condition: Condition): StoredCondition {
    StoredCondition(condition.conditionType, ConditionText(condition.status), condition.reason, condition.message,
                    condition.observedGeneration, TimeTextOf(condition.lastTransitionTime))
  }

  function Loaded(condition: StoredCondition): Condition {
    Condition(condition.conditionType, ConditionOf(condition.status), condition.reason, condition.message,
              condition.observedGeneration, ParseTime(condition.lastTransitionTime))
  }

  /** Nil entries are dropped on the way in. */
  function StoredConditions(items: seq<Option<Condition>>): seq<StoredCondition> {
    if items == [] then [] else
    var n := |items| - 1;
    StoredConditions(items[..n]) + if items[n].Some? then [Stored(items[n].value)] else []
  }

  function LoadedConditions(items: seq<StoredCondition>): (r: seq<Option<Condition>>)
    ensures |r| == |items|
  {
    seq(|items|, i requires 0 <= i < |items| => Some(Loaded(items[i])))
  }

  method ConditionsToResource(items: seq<Option<Condition>>) returns (out: seq<StoredCondition>)
    ensures out == StoredConditions(items)
  {
    out := [];
    for i := 0 to |items|
      invariant out == StoredConditions(items[..i])
    {
      assert items[..i + 1][..i] == items[..i];
      if items[i].None? {
        continue;
      }
      out := out + [Stored(items[i].value)];
    }
    assert items[..|items|] == items;
  }

  method ConditionsFromResource(items: seq<StoredCondition>) returns (out: seq<Option<Condition>>)
    ensures out == LoadedConditions(items)
  {
    out := [];
    for i := 0 to |items|
      invariant out == LoadedConditions(items[..i])
    {
      out := out + [Some(Loaded(items[i]))];
    }
    assert items[..|items|] == items;
  }

  // ---------------------------------------------------------------- statuses and states

  /** resourceStatusFromProto. */
  function StoredStatusOf(status: Status): StoredStatus {
    StoredStatus(status.observed, StoredConditions(status.conditions), PhaseText(status.phase),
                 if status.activeRun.Some? then TrimSpace(status.activeRun.value) else "",
                 TimeTextOf(status.updatedAt))
  }

  function StatusOf(sessionID: string, stored: StoredStatus): Status {
    Status(sessionID, PhaseOf(stored.phase), stored.observed,
           if TrimSpace(stored.activeRunID) == "" then None else Some(TrimSpace(stored.activeRunID)),
           LoadedConditions(stored.conditions), ParseTime(stored.updatedAt))
  }

  function StateSessionID(resource: Resource): string
    requires resource.session.Some?
  {
    if resource.session.value.sessionID == "" then resource.metadata.name else resource.session.value.sessionID
  }

  /** stateFromAgentSessionResource. */
  function StateOf(resource: Resource, generation: int): Outcome<State> {
    if resource.session.None? then Err(InvalidArgument) else
    var sessionID := StateSessionID(resource);
    Ok(State(generation, resource.session.value.(sessionID := sessionID), StatusOf(sessionID, resource.status)))
  }

  /** newAgentSessionResource. */
  function NewResource(namespace: string, session: Spec, generation: int): Resource {
    Resource(Metadata(session.sessionID, namespace, generation, FormatInt(generation)), Some(session), NEW_STATUS)
  }

  // ---------------------------------------------------------------- round trip

  /** What the stored form can hold: enum values it has names for, no nil entries, times that print as RFC 3339. */
  predicate Storable(condition: Option<Condition>) {
    && condition.Some?
    && condition.value.status in {STATUS_UNSPECIFIED, STATUS_TRUE, STATUS_FALSE, STATUS_UNKNOWN}
    && (condition.value.lastTransitionTime.Some? ==> WellFormedTime(condition.value.lastTransitionTime.value))
  }

  predicate StorableStatus(status: Status) {
    && status.phase in {PHASE_UNSPECIFIED, PHASE_PENDING, PHASE_READY, PHASE_RUNNING, PHASE_FAILED}
    && (status.activeRun.Some? ==> status.activeRun.value != "" && Trimmed(status.activeRun.value))
    && (forall c <- status.conditions :: Storable(c))
    && (status.updatedAt.Some? ==> WellFormedTime(status.updatedAt.value))
  }

  lemma PhaseRoundTrip(phase: int)
    ensures PhaseOf(PhaseText(phase)) == phase
            <==> phase in {PHASE_UNSPECIFIED, PHASE_PENDING, PHASE_READY, PHASE_RUNNING, PHASE_FAILED}
  {
    TrimSpaceTrims(PhaseText(phase));
  }

  lemma ConditionTextRoundTrip(status: int)
    ensures ConditionOf(ConditionText(status)) == status
            <==> status in {STATUS_UNSPECIFIED, STATUS_TRUE, STATUS_FALSE, STATUS_UNKNOWN}
  {
    TrimSpaceTrims(ConditionText(status));
  }

  lemma TimeParses(t: Timestamp)
    ensures ParseTime(FormatTime(t)) == Some(t) <==> WellFormedTime(t)
    ensures WellFormedTime(t) ==> AsTime(t) == t
  {
  }

  lemma ConditionRoundTrip(condition: Condition)
    ensures Loaded(Stored(condition)) == condition <==> Storable(Some(condition))
  {
    ConditionTextRoundTrip(condition.status);
    if condition.lastTransitionTime.Some? {
      TimeParses(condition.lastTransitionTime.value);
    }
  }

  lemma {:induction false} StoredConditionsLength(items: seq<Option<Condition>>)
    ensures |StoredConditions(items)| <= |items|
    ensures |StoredConditions(items)| == |items| <==> forall c <- items :: c.Some?
    ensures |StoredConditions(items)| == |items| ==>
              forall i :: 0 <= i < |items| ==> items[i].Some? && StoredConditions(items)[i] == Stored(items[i].value)
  {
    if items != [] {
      var n := |items| - 1;
      StoredConditionsLength(items[..n]);
      assert items == items[..n] + [items[n]];
    }
  }

  lemma ConditionsRoundTrip(items: seq<Option<Condition>>)
    ensures LoadedConditions(StoredConditions(items)) == items <==> forall c <- items :: Storable(c)
  {
    StoredConditionsLength(items);
    forall i | 0 <= i < |items| && items[i].Some? ensures Loaded(Stored(items[i].value)) == items[i].value
      <==> Storable(items[i]) {
      ConditionRoundTrip(items[i].value);
    }
    var back := LoadedConditions(StoredConditions(items));
    if back == items {
      assert forall i :: 0 <= i < |items| ==> items[i] == Some(Loaded(StoredConditions(items)[i]));
      assert forall c <- items :: c.Some?;
    }
  }

  lemma ActiveRunRoundTrip(run: string)
    ensures TrimSpace(TrimSpace(run)) == TrimSpace(run)
    ensures run != "" && TrimSpace(run) == run <==> run != "" && Trimmed(run)
  {
    TrimSpaceTrims(run);
  }

  /** A status is read back as written exactly when the stored form can hold it. */
  lemma StatusRoundTrip(status: Status)
    ensures StatusOf(status.sessionID, StoredStatusOf(status)) == status <==> StorableStatus(status)
  {
    PhaseRoundTrip(status.phase);
    ConditionsRoundTrip(status.conditions);
    assert TrimSpace("") == "";
    if status.activeRun.Some? {
      ActiveRunRoundTrip(status.activeRun.value);
    }
    if status.updatedAt.Some? {
      TimeParses(status.updatedAt.value);
    }
  }
}
