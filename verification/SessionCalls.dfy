/**
 * When each session call succeeds, with which code it is refused otherwise,
 * and what the session then reads as: told from the call's arguments and what
 * was read before.
 */
module SessionCalls {
  import opened Text
  import opened SessionTypes
  import opened SessionResource
  import opened SessionStore
  import opened SessionRuns
  import opened SessionReadiness

  /** Every stored session names itself and agrees with its row on its generation. */
  predicate RowsOk(store: Store) { forall id <- store.rows :: PayloadOk(id, store.rows[id]) }

  lemma RunKeepsRowsOk(namespace: string, calls: seq<Call>)
    ensures RowsOk(ExecuteAll(namespace, EMPTY_STORE, calls))
  {
    var store := ExecuteAll(namespace, EMPTY_STORE, calls);
    assert StoreInv(EMPTY_STORE);
    RunKeepsInv(namespace, EMPTY_STORE, calls);
    forall id <- store.rows ensures PayloadOk(id, store.rows[id]) {
      assert RowInv(SpecVersions(store.outbox, id), LatestState(store.outbox, id), id, store.rows[id]);
    }
  }

  /** Only the session's own row is different. */
  predicate OnlyTouches(before: Store, after: Store, id: string) {
    && after.rows.Keys == before.rows.Keys + {id}
    && forall other <- before.rows :: other != id ==> after.rows[other] == before.rows[other]
  }

  /** A rewritten session reads as `state`, which is the answer and what its event carries; no other row changed. */
  predicate Rewrites(namespace: string, before: Store, after: Store, id: string, kind: EventKind, state: State) {
    && Get(namespace, after, id) == Ok(state) && OnlyTouches(before, after, id)
    && after.outbox == before.outbox + [Event(kind, id, state.generation, state)]
  }

  // ---------------------------------------------------------------- reading

  /** A session is read under its trimmed id; a blank id and an unknown one are told apart. */
  lemma GetIff(namespace: string, store: Store, rawID: string)
    requires RowsOk(store)
    ensures var id, r := TrimSpace(rawID), Get(namespace, store, rawID);
            && (r.Ok? <==> id != "" && id in store.rows)
            && (id == "" ==> r == Err(InvalidArgument))
            && (id != "" && id !in store.rows ==> r == Err(NotFound))
            && (r.Ok? ==>
                  && r.value.generation == store.rows[id].generation
                  && Some(r.value.spec) == store.rows[id].payload.session
                  && r.value.status.sessionID == id)
  {
  }

  lemma GetOfRow(namespace: string, store: Store, id: string)
    requires id in store.rows && PayloadOk(id, store.rows[id])
    ensures Get(namespace, store, id)
            == Ok(State(store.rows[id].generation, store.rows[id].payload.session.value,
                        StatusOf(id, store.rows[id].payload.status)))
  {
    TrimSpaceTrims(id);
  }

  lemma GetKeeps(namespace: string, before: Store, after: Store, id: string, other: string)
    requires OnlyTouches(before, after, id) && TrimSpace(other) != id
    ensures Get(namespace, after, other) == Get(namespace, before, other)
  {
  }

  // ---------------------------------------------------------------- creating

  /** The spec as given, under the trimmed id, with the refs it leaves out filled in. */
  function Filled(spec: Spec, id: string): Spec {
    Spec(id, spec.providerID, spec.profileID, spec.runtimeConfig, spec.resourceConfig,
         Some(if spec.workspaceRef.Some? then spec.workspaceRef.value else id + "-workspace"),
         Some(if spec.homeStateRef.Some? then spec.homeStateRef.value else id + "-home"),
         spec.profileGeneration, spec.executionClass, spec.prepareJobs)
  }

  lemma NormalizesTo(rawID: string, spec: Option<Spec>)
    ensures var id, r := TrimSpace(rawID), NormalizeSpec(rawID, spec);
            && (r.Ok? <==>
                id != "" && spec.Some?
                  && (TrimSpace(spec.value.sessionID) == "" || TrimSpace(spec.value.sessionID) == id))
            && r == if r.Ok? then Ok(Filled(spec.value, id)) else Err(InvalidArgument)
  {
    TrimSpaceTrims(rawID);
  }

  function EmptyStatus(id: string): Status {
    Status(id, 0, Observed(0, 0, 0, 0, "", "", "", "", ""), None, [], None)
  }

  lemma NewResourceReads(namespace: string, spec: Spec)
    requires spec.sessionID != "" && Trimmed(spec.sessionID)
    ensures var resource := NewResource(namespace, spec, 1);
            && StateOf(resource, 1) == Ok(State(1, spec, EmptyStatus(spec.sessionID)))
            && StateOf(Read(namespace, spec.sessionID, Row(resource, 1)), 1) == StateOf(resource, 1)
  {
  }

  /**
   * A session is created if and only if one is given, its trimmed id is not
   * empty and the id has no row. It then reads as given, with generation 1 and
   * an empty status, and is announced; nothing else changes. Otherwise nothing
   * changes, and the code tells a taken id from a missing one.
   */
  lemma CreateSucceedsIff(namespace: string, store: Store, session: Option<Spec>, done: Done)
    requires done == Execute(namespace, store, Create(session))
    ensures done.reply.Ok? <==>
            session.Some? && TrimSpace(session.value.sessionID) != ""
              && TrimSpace(session.value.sessionID) !in store.rows
    ensures done.reply.Ok? ==>
              var id := TrimSpace(session.value.sessionID);
              var state := State(1, Filled(session.value, id), EmptyStatus(id));
              && done.reply == Ok(StateReply(state))
              && Rewrites(namespace, store, done.store, id, Created, state)
    ensures done.reply.Err? ==>
              && done.store == store
              && done.reply.code == if session.None? || TrimSpace(session.value.sessionID) == "" then InvalidArgument
                                    else AlreadyExists
  {
    if session.Some? {
      var id := TrimSpace(session.value.sessionID);
      TrimSpaceTrims(session.value.sessionID);
      TrimSpaceTrims(id);
      NormalizesTo(id, session);
      if id != "" && id !in store.rows {
        NewResourceReads(namespace, Filled(session.value, id));
      }
    }
  }

  // ---------------------------------------------------------------- updating

  lemma UpdatedRowReads(namespace: string, store: Store, id: string, spec: Spec, before: State, done: Done)
    requires id in store.rows && PayloadOk(id, store.rows[id]) && Get(namespace, store, id) == Ok(before)
    requires spec.sessionID == id && Announces(UpdateRow(namespace, id, store.rows[id], spec))
    requires done == Commit(store, id, UpdateRow(namespace, id, store.rows[id], spec))
    ensures var state := State(before.generation + 1, spec, before.status);
            if before.spec == spec then done == Done(store, Ok(StateReply(before)))
            else done.reply == Ok(StateReply(state)) && Rewrites(namespace, store, done.store, id, Updated, state)
  {
    TrimSpaceTrims(id);
  }

  /**
   * A spec update is accepted if and only if it names a stored session and no
   * other one. An equal spec changes nothing; any other is read back as given,
   * with the next generation and the status as it was.
   */
  lemma UpdateSucceedsIff(namespace: string, store: Store, rawID: string, session: Option<Spec>, done: Done)
    requires RowsOk(store) && done == Execute(namespace, store, Update(rawID, session))
    ensures var id := TrimSpace(rawID);
            var named := id != "" && session.Some?
                         && (TrimSpace(session.value.sessionID) == "" || TrimSpace(session.value.sessionID) == id);
            && (done.reply.Ok? <==> named && id in store.rows)
            && (done.reply.Err? ==>
                done.store == store && done.reply.code == if named then NotFound else InvalidArgument)
    ensures done.reply.Ok? ==>
              var id := TrimSpace(rawID);
              var before := Get(namespace, store, id);
              && before.Ok?
              && var spec := Filled(session.value, id);
                 var state := State(before.value.generation + 1, spec, before.value.status);
                 if before.value.spec == spec then done == Done(store, Ok(StateReply(before.value)))
                 else done.reply == Ok(StateReply(state)) && Rewrites(namespace, store, done.store, id, Updated, state)
  {
    var id := TrimSpace(rawID);
    TrimSpaceTrims(rawID);
    NormalizesTo(id, session);
    if id in store.rows {
      GetOfRow(namespace, store, id);
      if EarlyReply(Update(rawID, session)).None? {
        RowEffectAnnounces(namespace, store.rows[id], Update(rawID, session));
        UpdatedRowReads(namespace, store, id, Filled(session.value, id), Get(namespace, store, id).value, done);
      }
    }
  }

  // ---------------------------------------------------------------- statuses

  /** The status as given, under the trimmed id, with nil conditions as empty ones and the time filled in. */
  predicate FilledStatus(given: Status, id: string, now: Timestamp, filled: Status) {
    && filled.sessionID == id && filled.phase == given.phase && filled.observed == given.observed
    && filled.activeRun == given.activeRun
    && filled.updatedAt == Some(if given.updatedAt.Some? then given.updatedAt.value else now)
    && |filled.conditions| == |given.conditions|
    && forall i :: 0 <= i < |given.conditions| ==>
         filled.conditions[i]
         == if given.conditions[i].Some? then given.conditions[i] else Some(Condition("", 0, "", "", 0, None))
  }

  lemma NormalizesStatus(rawID: string, status: Option<Status>, now: Timestamp)
    ensures var id, r := TrimSpace(rawID), NormalizeStatus(rawID, status, now);
            && (r.Ok? <==> id != "" && status.Some?
                           && (TrimSpace(status.value.sessionID) == "" || TrimSpace(status.value.sessionID) == id))
            && (r.Ok? ==> FilledStatus(status.value, id, now, r.value))
            && (r.Err? ==> r.code == InvalidArgument)
  {
    TrimSpaceTrims(rawID);
  }

  lemma FilledStatusUnique(given: Status, id: string, now: Timestamp, a: Status, b: Status)
    requires FilledStatus(given, id, now, a) && FilledStatus(given, id, now, b)
    ensures a == b
  {
    assert a.conditions == b.conditions;
  }

  /**
   * A status is accepted if and only if it names a stored session and no other
   * one, and has observed the session's generation or none. One that can be
   * stored is then read back as given; it is announced unless it was there
   * before.
   */
  lemma UpdateStatusSucceedsIff(namespace: string, store: Store, rawID: string, status: Option<Status>, now: Timestamp,
                                filled: Status, done: Done)
    requires RowsOk(store) && done == Execute(namespace, store, UpdateStatus(rawID, status, now))
    requires status.Some? ==> FilledStatus(status.value, TrimSpace(rawID), now, filled)
    ensures var id := TrimSpace(rawID);
            var named := id != "" && status.Some?
                         && (TrimSpace(status.value.sessionID) == "" || TrimSpace(status.value.sessionID) == id);
            && (done.reply.Ok? <==>
                  && named && id in store.rows
                  && (status.value.observed.observedGeneration == 0
                      || status.value.observed.observedGeneration == store.rows[id].generation))
            && (done.reply.Err? ==>
                  && done.store == store
                  && done.reply.code == if !named then InvalidArgument else if id !in store.rows then NotFound
                                        else FailedPrecondition)
    ensures done.reply.Ok? && StorableStatus(filled) ==>
              var id := TrimSpace(rawID);
              var before := Get(namespace, store, id);
              && before.Ok?
              && var state := before.value.(status := filled);
                 && done.reply == Ok(StateReply(state))
                 && if before.value.status == filled then done.store == store
                    else Rewrites(namespace, store, done.store, id, StatusUpdated, state)
  {
    var id := TrimSpace(rawID);
    TrimSpaceTrims(rawID);
    NormalizesStatus(id, status, now);
    if id in store.rows {
      GetOfRow(namespace, store, id);
      if done.reply.Ok? {
        FilledStatusUnique(status.value, id, now, filled, NormalizeStatus(id, status, now).value);
        StatusRoundTrip(filled);
      }
    }
  }

  // ---------------------------------------------------------------- claiming and releasing

  /** The stored conditions say that the workspace and the warm state are ready. */
  predicate SaysReady(conditions: seq<StoredCondition>) {
    && (exists c <- conditions :: c.conditionType == "WorkspaceReady" && c.status == "True")
    && (exists c <- conditions :: c.conditionType == "WarmStateReady" && c.status == "True")
  }

  /** A time as it is read back, if it can be printed. */
  predicate ReadsAs(read: Option<Timestamp>, now: Timestamp) { WellFormedTime(now) ==> read == Some(now) }

  /** Of the conditions only the first of the type differs, or one was added at the end. */
  predicate EditsCondition(before: seq<Option<Condition>>, after: seq<Option<Condition>>, conditionType: string,
                           k: nat) {
    && k < |after| && |before| <= |after| <= |before| + 1 && (k == |before| || |after| == |before|)
    && (forall i :: 0 <= i < |before| && i != k ==> after[i] == before[i])
    && (forall i :: 0 <= i < k && i < |before| ==> before[i].Some? && before[i].value.conditionType != conditionType)
    && after[k].Some? && after[k].value.conditionType == conditionType
  }

  /** The status of a session whose slot a run has taken. */
  predicate ClaimedBy(before: State, runID: string, now: Timestamp, after: State, k: nat) {
    && after.generation == before.generation && after.spec == before.spec
    && after.status.sessionID == before.status.sessionID
    && after.status.phase == 3 && after.status.activeRun == Some(runID)
    && after.status.observed == before.status.observed.(message := "AgentSession has an active run.")
    && ReadsAs(after.status.updatedAt, now)
    && EditsCondition(before.status.conditions, after.status.conditions, "ReadyForNextRun", k)
    && var condition := after.status.conditions[k].value;
       && condition.status == 2 && condition.reason == "ActiveRunInProgress"
       && condition.message == "AgentSession has an active run." && condition.observedGeneration == before.generation
  }

  lemma ClaimedReads(id: string, row: Row, runID: string, now: Timestamp) returns (k: nat)
    requires PayloadOk(id, row) && runID != "" && Trimmed(runID)
    ensures var status := row.payload.status;
            ClaimedBy(State(row.generation, row.payload.session.value, StatusOf(id, status)), runID, now,
                      State(row.generation, row.payload.session.value,
                            StatusOf(id, ClaimedStatus(status, runID, row.generation, now))), k)
  {
    var conditions, next := row.payload.status.conditions, ActiveRunCondition(row.generation, now);
    k := WithConditionAt(conditions, next);
    TrimSpaceTrims(runID);
    PhaseRoundTrip(3);
    ConditionTextRoundTrip(2);
    TimeParses(now);
  }

  lemma SaysReadyIff(store: Store, id: string)
    requires id in store.rows
    ensures Ready(store, id) <==> SaysReady(store.rows[id].payload.status.conditions)
  {
  }

  /**
   * A claim is accepted if and only if it names a run and a stored session
   * whose slot the run holds, or whose slot is empty and which is ready.
   */
  lemma ClaimAcceptedIff(namespace: string, store: Store, rawID: string, rawRunID: string, now: Timestamp, done: Done)
    requires RowsOk(store) && done == Execute(namespace, store, Claim(rawID, rawRunID, now))
    ensures var id, runID := TrimSpace(rawID), TrimSpace(rawRunID);
            && (done.reply.Ok? <==>
                  && id != "" && runID != "" && id in store.rows
                  && (Slot(store.rows[id]) == runID
                      || (Slot(store.rows[id]) == "" && SaysReady(store.rows[id].payload.status.conditions))))
            && (done.reply.Err? ==>
                  && done.store == store
                  && done.reply.code == if id == "" || runID == "" then InvalidArgument
                                        else if id !in store.rows then NotFound else FailedPrecondition)
  {
    var id := TrimSpace(rawID);
    TrimSpaceTrims(rawID);
    if id in store.rows {
      SaysReadyIff(store, id);
    }
  }

  /**
   * An accepted claim of the run that holds the slot changes nothing; one that
   * takes it leaves the session running, with that run active and the
   * condition that says so.
   */
  lemma ClaimReadsBack(namespace: string, store: Store, rawID: string, rawRunID: string, now: Timestamp, done: Done)
    returns (k: nat)
    requires RowsOk(store) && done == Execute(namespace, store, Claim(rawID, rawRunID, now)) && done.reply.Ok?
    ensures var id, runID := TrimSpace(rawID), TrimSpace(rawRunID);
            var before := Get(namespace, store, id);
            && before.Ok?
            && if before.value.status.activeRun == Some(runID) then done == Done(store, Ok(StateReply(before.value)))
               else
                 && done.reply.value.StateReply? && ClaimedBy(before.value, runID, now, done.reply.value.state, k)
                 && Rewrites(namespace, store, done.store, id, StatusUpdated, done.reply.value.state)
  {
    var id, runID := TrimSpace(rawID), TrimSpace(rawRunID);
    TrimSpaceTrims(rawID);
    TrimSpaceTrims(rawRunID);
    ClaimAcceptedIff(namespace, store, rawID, rawRunID, now, done);
    SaysReadyIff(store, id);
    GetOfRow(namespace, store, id);
    k := ClaimedReads(id, store.rows[id], runID, now);
    if Slot(store.rows[id]) == "" {
      TakenSlot(namespace, store, id, runID, rawRunID, now, done);
    }
  }

  lemma TakenSlot(namespace: string, store: Store, id: string, runID: string, rawRunID: string, now: Timestamp,
                  done: Done)
    requires id in store.rows && PayloadOk(id, store.rows[id]) && runID == TrimSpace(rawRunID) != ""
    requires Slot(store.rows[id]) == "" && Ready(store, id)
    requires done == Commit(store, id, ClaimRow(namespace, id, store.rows[id], runID, now))
    ensures var row := store.rows[id];
            var state := State(row.generation, row.payload.session.value,
                               StatusOf(id, ClaimedStatus(row.payload.status, runID, row.generation, now)));
            done.reply == Ok(StateReply(state)) && Rewrites(namespace, store, done.store, id, StatusUpdated, state)
  {
    TrimSpaceTrims(id);
  }

  /** The status of a session whose run has been released. */
  predicate ReleasedFrom(before: State, now: Timestamp, after: State) {
    && after.generation == before.generation && after.spec == before.spec
    && after.status.sessionID == before.status.sessionID && after.status.conditions == before.status.conditions
    && after.status.phase == 1 && after.status.activeRun == None
    && after.status.observed
       == before.status.observed.(
            message := "AgentSession active run completed; waiting for readiness reconcile.")
    && ReadsAs(after.status.updatedAt, now)
  }

  lemma ReleasedReads(id: string, row: Row, now: Timestamp)
    requires PayloadOk(id, row)
    ensures var status := row.payload.status;
            ReleasedFrom(State(row.generation, row.payload.session.value, StatusOf(id, status)), now,
                         State(row.generation, row.payload.session.value, StatusOf(id, ReleasedStatus(status, now))))
  {
    PhaseRoundTrip(1);
    TimeParses(now);
    assert TrimSpace("") == "";
  }

  lemma FreedSlot(namespace: string, store: Store, id: string, runID: string, now: Timestamp, done: Done)
    requires id in store.rows && PayloadOk(id, store.rows[id]) && Slot(store.rows[id]) == runID
    requires Announces(ReleaseRow(namespace, id, store.rows[id], runID, now))
    requires done == Commit(store, id, ReleaseRow(namespace, id, store.rows[id], runID, now))
    ensures var row := store.rows[id];
            var state := State(row.generation, row.payload.session.value,
                               StatusOf(id, ReleasedStatus(row.payload.status, now)));
            done.reply == Ok(ReleasedReply(true)) && Rewrites(namespace, store, done.store, id, StatusUpdated, state)
  {
    TrimSpaceTrims(id);
  }

  /**
   * A release never fails. It frees the slot if the named run holds it, and
   * says so: the session is then pending, with no active run and its
   * conditions as they were. Any other release changes nothing.
   */
  lemma ReleaseAnswers(namespace: string, store: Store, rawID: string, rawRunID: string, now: Timestamp, done: Done)
    requires RowsOk(store) && done == Execute(namespace, store, Release(rawID, rawRunID, now))
    ensures var runID, before := TrimSpace(rawRunID), Get(namespace, store, TrimSpace(rawID));
            done.reply
            == Ok(ReleasedReply(runID != "" && before.Ok? && before.value.status.activeRun == Some(runID)))
    ensures done.reply == Ok(ReleasedReply(false)) ==> done.store == store
    ensures done.reply == Ok(ReleasedReply(true)) ==>
              var id := TrimSpace(rawID);
              var before, after := Get(namespace, store, id), Get(namespace, done.store, id);
              && before.Ok? && after.Ok? && ReleasedFrom(before.value, now, after.value)
              && Rewrites(namespace, store, done.store, id, StatusUpdated, after.value)
  {
    var id, runID := TrimSpace(rawID), TrimSpace(rawRunID);
    TrimSpaceTrims(rawID);
    TrimSpaceTrims(rawRunID);
    if id in store.rows {
      GetOfRow(namespace, store, id);
      if runID != "" && Slot(store.rows[id]) == runID {
        RowEffectAnnounces(namespace, store.rows[id], Release(rawID, rawRunID, now));
        ReleasedReads(id, store.rows[id], now);
        FreedSlot(namespace, store, id, runID, now, done);
      }
    }
  }
}
