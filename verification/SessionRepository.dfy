/**
 * The session repository as it is programmed: each call opens a transaction,
 * edits the row it read, writes it back with its outbox event, and rolls both
 * back on an error. Every method is shown to compute SessionStore.Execute.
 */
module SessionRepository {
  import opened Text
  import opened Decimal
  import opened SessionTypes
  import opened SessionResource
  import opened SessionStore

  class PostgresRepository {
    const namespace: string
    var rows: map<string, Row>
    var outbox: seq<Event>

    function Contents(): Store reads this { Store(rows, outbox) }

    constructor (namespace: string)
      ensures Contents() == EMPTY_STORE && this.namespace == namespace
    {
      this.namespace, rows, outbox := namespace, map[], [];
    }

    /** What the body of a transaction leaves behind when it succeeds; an error is rolled back by the caller. */
    ghost predicate Worked(done: Done, r: Outcome<Reply>) reads this {
      r == done.reply && (r.Ok? ==> Contents() == done.store)
    }

    method GetResource(sessionID: string) returns (found: bool, resource: Resource, generation: int)
      ensures found <==> sessionID in rows
      ensures found ==>
                resource == Read(namespace, sessionID, rows[sessionID]) && generation == rows[sessionID].generation
    {
      found := sessionID in rows;
      resource, generation := NewResource(namespace, EMPTY_SPEC, 0), 0;
      if found {
        resource, generation := rows[sessionID].payload, rows[sessionID].generation;
        if resource.metadata.name == "" {
          resource := resource.(metadata := resource.metadata.(name := sessionID));
        }
        if resource.metadata.namespace == "" {
          resource := resource.(metadata := resource.metadata.(namespace := namespace));
        }
      }
    }

    method EnqueueSessionEvent(kind: EventKind, state: State) returns (ok: bool)
      modifies this
      ensures rows == old(rows)
      ensures ok == (TrimSpace(state.spec.sessionID) != "")
      ensures outbox == old(outbox) + if ok
              then [Event(kind, TrimSpace(state.spec.sessionID), state.generation, state)] else []
    {
      var sessionID := TrimSpace(state.spec.sessionID);
      if sessionID == "" {
        return false;
      }
      outbox := outbox + [Event(kind, sessionID, state.generation, state)];
      ok := true;
    }

    /** Writes the row, reads the state back from it and announces it. */
    method WriteAndAnnounce(sessionID: string, resource: Resource, generation: int, kind: EventKind)
      returns (r: Outcome<Reply>)
      modifies this
      ensures Worked(Commit(old(Contents()), sessionID, Rewrite(resource, generation, kind)), r)
    {
      rows := rows[sessionID := Row(resource, generation)];
      var state := StateOf(resource, generation);
      if state.Err? {
        return Err(state.code);
      }
      var ok := EnqueueSessionEvent(kind, state.value);
      if !ok {
        return Err(Unknown);
      }
      r := Ok(StateReply(state.value));
    }

    method Create(session: Option<Spec>) returns (r: Outcome<Reply>)
      modifies this
      ensures Done(Contents(), r) == Execute(namespace, old(Contents()), Call.Create(session))
    {
      var before := Contents();
      r := CreateInTx(session);
      if r.Err? {
        rows, outbox := before.rows, before.outbox;
      }
    }

    method CreateInTx(session: Option<Spec>) returns (r: Outcome<Reply>)
      modifies this
      ensures Worked(Execute(namespace, old(Contents()), Call.Create(session)), r)
      ensures r.Err? ==> Execute(namespace, old(Contents()), Call.Create(session)).store == old(Contents())
    {
      if session.None? {
        return Err(InvalidArgument);
      }
      var normalized := NormalizeSpec(TrimSpace(session.value.sessionID), session);
      if normalized.Err? {
        return Err(normalized.code);
      }
      var resource := NewResource(namespace, normalized.value, 1);
      if normalized.value.sessionID in rows {
        return Err(AlreadyExists);
      }
      r := WriteAndAnnounce(normalized.value.sessionID, resource, 1, Created);
    }

    method Update(sessionID: string, session: Option<Spec>) returns (r: Outcome<Reply>)
      modifies this
      ensures Done(Contents(), r) == Execute(namespace, old(Contents()), Call.Update(sessionID, session))
    {
      var before := Contents();
      r := UpdateInTx(sessionID, session);
      if r.Err? {
        rows, outbox := before.rows, before.outbox;
      }
    }

    method UpdateInTx(rawID: string, session: Option<Spec>) returns (r: Outcome<Reply>)
      modifies this
      ensures Worked(Execute(namespace, old(Contents()), Call.Update(rawID, session)), r)
      ensures r.Err? ==> Execute(namespace, old(Contents()), Call.Update(rawID, session)).store == old(Contents())
    {
      var sessionID := TrimSpace(rawID);
      if sessionID == "" {
        return Err(InvalidArgument);
      }
      var normalized := NormalizeSpec(sessionID, session);
      if normalized.Err? {
        return Err(normalized.code);
      }
      var found, current, generation := GetResource(sessionID);
      if !found {
        return Err(NotFound);
      }
      if current.session.None? {
        return Err(InvalidArgument);
      }
      if current.session.value == normalized.value {
        r := ReadBack(current, generation);
        return;
      }
      var nextGeneration := generation + 1;
      current := current.(metadata :=
                          current.metadata.(generation := nextGeneration, resourceVersion :=
                                            FormatInt(nextGeneration)));
      current := current.(session := Some(normalized.value));
      r := WriteAndAnnounce(sessionID, current, nextGeneration, Updated);
    }

    method ReadBack(resource: Resource, generation: int) returns (r: Outcome<Reply>)
      ensures Worked(Commit(Contents(), resource.metadata.name, Answer(resource, generation)), r)
    {
      var state := StateOf(resource, generation);
      r := if state.Err? then Err(state.code) else Ok(StateReply(state.value));
    }

    method UpdateStatus(sessionID: string, status: Option<Status>, now: Timestamp) returns (r: Outcome<Reply>)
      modifies this
      ensures Done(Contents(), r) == Execute(namespace, old(Contents()), Call.UpdateStatus(sessionID, status, now))
    {
      var before := Contents();
      r := UpdateStatusInTx(sessionID, status, now);
      if r.Err? {
        rows, outbox := before.rows, before.outbox;
      }
    }

    method UpdateStatusInTx(rawID: string, status: Option<Status>, now: Timestamp) returns (r: Outcome<Reply>)
      modifies this
      ensures Worked(Execute(namespace, old(Contents()), Call.UpdateStatus(rawID, status, now)), r)
      ensures r.Err? ==>
                Execute(namespace, old(Contents()), Call.UpdateStatus(rawID, status, now)).store == old(Contents())
    {
      var sessionID := TrimSpace(rawID);
      if sessionID == "" {
        return Err(InvalidArgument);
      }
      var normalized := NormalizeStatus(sessionID, status, now);
      if normalized.Err? {
        return Err(normalized.code);
      }
      var found, current, generation := GetResource(sessionID);
      if !found {
        return Err(NotFound);
      }
      var observed := normalized.value.observed.observedGeneration;
      if observed != 0 && observed != generation {
        return Err(FailedPrecondition);
      }
      var currentState := StateOf(current, generation);
      if currentState.Err? {
        return Err(currentState.code);
      }
      if currentState.value.status == normalized.value {
        return Ok(StateReply(currentState.value));
      }
      current := current.(metadata :=
                          current.metadata.(generation := generation, resourceVersion := FormatInt(generation)));
      var stored := ResourceStatusFromProto(normalized.value);
      current := current.(status := stored);
      r := WriteAndAnnounce(sessionID, current, generation, StatusUpdated);
    }

    method ResourceStatusFromProto(status: Status) returns (stored: StoredStatus)
      ensures stored == StoredStatusOf(status)
    {
      var updatedAt := NoText;
      if status.updatedAt.Some? {
        updatedAt := FormatTime(status.updatedAt.value);
      }
      var activeRunID := "";
      if status.activeRun.Some? {
        activeRunID := TrimSpace(status.activeRun.value);
      }
      var conditions := ConditionsToResource(status.conditions);
      stored := StoredStatus(status.observed, conditions, PhaseText(status.phase), activeRunID, updatedAt);
    }

    method ClaimActiveRun(sessionID: string, runID: string, now: Timestamp) returns (r: Outcome<Reply>)
      modifies this
      ensures Done(Contents(), r) == Execute(namespace, old(Contents()), Claim(sessionID, runID, now))
    {
      var before := Contents();
      r := ClaimInTx(sessionID, runID, now);
      if r.Err? {
        rows, outbox := before.rows, before.outbox;
      }
    }

    method ClaimInTx(rawSessionID: string, rawRunID: string, now: Timestamp) returns (r: Outcome<Reply>)
      modifies this
      ensures Worked(Execute(namespace, old(Contents()), Claim(rawSessionID, rawRunID, now)), r)
      ensures r.Err? ==>
                Execute(namespace, old(Contents()), Claim(rawSessionID, rawRunID, now)).store == old(Contents())
    {
      var sessionID, runID := TrimSpace(rawSessionID), TrimSpace(rawRunID);
      if sessionID == "" || runID == "" {
        return Err(InvalidArgument);
      }
      var found, current, generation := GetResource(sessionID);
      if !found {
        return Err(NotFound);
      }
      if current.session.None? {
        return Err(FailedPrecondition);
      }
      var activeRunID := TrimSpace(current.status.activeRunID);
      if activeRunID != "" && activeRunID != runID {
        return Err(FailedPrecondition);
      }
      if activeRunID == runID {
        r := ReadBack(current, generation);
        return;
      }
      var ready := ActiveRunDispatchReady(current.status.conditions);
      if !ready {
        return Err(FailedPrecondition);
      }
      current := current.(status := current.status.(
        activeRunID := runID, phase := PhaseText(PHASE_RUNNING),
        observed := current.status.observed.(message := ACTIVE_RUN_MESSAGE), updatedAt := FormatTime(now)));
      var conditions := SetResourceCondition(current.status.conditions, ActiveRunCondition(generation, now));
      current := current.(status := current.status.(conditions := conditions));
      r := WriteResource(sessionID, current, generation);
    }

    method WriteResource(sessionID: string, resource: Resource, generation: int) returns (r: Outcome<Reply>)
      modifies this
      ensures Worked(Commit(old(Contents()), sessionID,
                            Rewrite(Stamped(resource, generation), generation, StatusUpdated)), r)
    {
      r := WriteAndAnnounce(sessionID, Stamped(resource, generation), generation, StatusUpdated);
    }

    method ReleaseActiveRun(sessionID: string, runID: string, now: Timestamp) returns (r: Outcome<Reply>)
      modifies this
      ensures Done(Contents(), r) == Execute(namespace, old(Contents()), Release(sessionID, runID, now))
    {
      var before := Contents();
      r := ReleaseInTx(sessionID, runID, now);
      if r.Err? {
        rows, outbox := before.rows, before.outbox;
      }
    }

    method ReleaseInTx(rawSessionID: string, rawRunID: string, now: Timestamp) returns (r: Outcome<Reply>)
      modifies this
      ensures Worked(Execute(namespace, old(Contents()), Release(rawSessionID, rawRunID, now)), r)
      ensures r.Err? ==>
                Execute(namespace, old(Contents()), Release(rawSessionID, rawRunID, now)).store == old(Contents())
    {
      var sessionID, runID := TrimSpace(rawSessionID), TrimSpace(rawRunID);
      if sessionID == "" || runID == "" {
        return Ok(ReleasedReply(false));
      }
      var found, current, generation := GetResource(sessionID);
      if !found {
        return Ok(ReleasedReply(false));
      }
      if TrimSpace(current.status.activeRunID) != runID {
        return Ok(ReleasedReply(false));
      }
      current := current.(status := current.status.(
        activeRunID := "", phase := PhaseText(PHASE_PENDING),
        observed := current.status.observed.(message := RELEASED_MESSAGE), updatedAt := FormatTime(now)));
      r := WriteResource(sessionID, current, generation);
      if r.Ok? {
        r := Ok(ReleasedReply(true));
      }
    }

    method GetSession(rawID: string) returns (r: Outcome<State>)
      ensures r == SessionStore.Get(namespace, Contents(), rawID)
    {
      var sessionID := TrimSpace(rawID);
      if sessionID == "" {
        return Err(InvalidArgument);
      }
      var found, resource, generation := GetResource(sessionID);
      if !found {
        return Err(NotFound);
      }
      r := StateOf(resource, generation);
    }
  }

  const EMPTY_SPEC := Spec("", "", "", None, None, None, None, 0, "", [])

  method ResourceConditionTrue(conditions: seq<StoredCondition>, conditionType: string) returns (yes: bool)
    ensures yes == ConditionTrue(conditions, conditionType)
  {
    for i := 0 to |conditions|
      invariant forall k :: 0 <= k < i ==>
                  conditions[k].conditionType != conditionType || conditions[k].status != "True"
    {
      if conditions[i].conditionType == conditionType && conditions[i].status == "True" {
        return true;
      }
    }
    yes := false;
  }

  method ActiveRunDispatchReady(conditions: seq<StoredCondition>) returns (ready: bool)
    ensures ready == DispatchReady(conditions)
  {
    ready := ResourceConditionTrue(conditions, WORKSPACE_READY);
    if ready {
      ready := ResourceConditionTrue(conditions, WARM_STATE_READY);
    }
  }

  /** The list is edited in place: an entry is overwritten, or one is appended. */
  method SetResourceCondition(conditions: seq<StoredCondition>, next: StoredCondition)
    returns (edited: seq<StoredCondition>)
    ensures edited == WithCondition(conditions, next)
  {
    edited := conditions;
    for i := 0 to |conditions|
      invariant edited == conditions
      invariant WithCondition(conditions, next) == conditions[..i] + WithCondition(conditions[i..], next)
    {
      if conditions[i].conditionType == next.conditionType {
        if SameReport(conditions[i], next) {
          return;
        }
        edited := edited[i := next];
        return;
      }
      assert conditions[i..][1..] == conditions[i + 1..];
    }
    edited := edited + [next];
  }
}
