/** Claiming and releasing the active run slot: what it does to readiness and to the validity of the status. */
module SessionReadiness {
  import opened Text
  import opened SessionTypes
  import opened SessionResource
  import opened SessionStore
  import opened SessionRuns
  import opened SessionConditions

  // ---------------------------------------------------------------- conditions

  /** Where setResourceCondition acts: the first condition of the type, or the end. */
  lemma {:induction false} WithConditionAt(conditions: seq<StoredCondition>, next: StoredCondition) returns (k: nat)
    ensures k <= |conditions| && forall i :: 0 <= i < k ==> conditions[i].conditionType != next.conditionType
    ensures k < |conditions| ==> conditions[k].conditionType == next.conditionType
    ensures WithCondition(conditions, next)
            == if k == |conditions| then conditions + [next]
               else if SameReport(conditions[k], next) then conditions else conditions[k := next]
  {
    if conditions == [] || conditions[0].conditionType == next.conditionType {
      k := 0;
    } else {
      k := WithConditionAt(conditions[1..], next);
      k := k + 1;
      assert conditions == [conditions[0]] + conditions[1..];
    }
  }

  lemma OtherConditionsKeep(conditions: seq<StoredCondition>, next: StoredCondition, conditionType: string)
    requires conditionType != next.conditionType
    ensures ConditionTrue(WithCondition(conditions, next), conditionType) <==> ConditionTrue(conditions, conditionType)
  {
    var k := WithConditionAt(conditions, next);
    var after := WithCondition(conditions, next);
    assert forall i :: 0 <= i < |conditions| && i != k ==> after[i] == conditions[i] && after[i] in after;
    assert k < |conditions| ==> after[k].conditionType == next.conditionType;
  }

  lemma ClaimKeepsReadiness(conditions: seq<StoredCondition>, generation: int, now: Timestamp)
    ensures DispatchReady(WithCondition(conditions, ActiveRunCondition(generation, now))) == DispatchReady(conditions)
  {
    OtherConditionsKeep(conditions, ActiveRunCondition(generation, now), WORKSPACE_READY);
    OtherConditionsKeep(conditions, ActiveRunCondition(generation, now), WARM_STATE_READY);
  }

  // ---------------------------------------------------------------- readiness over runs

  predicate Ready(store: Store, id: string)
    requires id in store.rows
  {
    DispatchReady(store.rows[id].payload.status.conditions)
  }

  function Slot(row: Row): string { TrimSpace(row.payload.status.activeRunID) }

  predicate SetsStatus(call: Call, id: string) { call.UpdateStatus? && Named(call) == id }

  lemma ClaimRowKeepsReadiness(namespace: string, id: string, row: Row, runID: string, now: Timestamp)
    ensures var effect := ClaimRow(namespace, id, row, runID, now);
            effect.Rewritten? ==>
              DispatchReady(effect.row.payload.status.conditions) == DispatchReady(row.payload.status.conditions)
  {
    ClaimKeepsReadiness(row.payload.status.conditions, row.generation, now);
  }

  /** A spec update and a release leave the conditions as they are. */
  lemma OthersKeepConditions(namespace: string, row: Row, call: Call)
    requires (call.Update? || call.Release?) && EarlyReply(call).None?
    ensures var effect := RowEffect(namespace, row, call);
            effect.Rewritten? ==> effect.row.payload.status.conditions == row.payload.status.conditions
  {
  }

  lemma EffectKeepsReadiness(namespace: string, row: Row, call: Call)
    requires !call.Create? && !call.UpdateStatus? && EarlyReply(call).None?
    ensures var effect := RowEffect(namespace, row, call);
            effect.Rewritten? ==>
              DispatchReady(effect.row.payload.status.conditions) == DispatchReady(row.payload.status.conditions)
  {
    if call.Claim? {
      ClaimRowKeepsReadiness(namespace, Named(call), row, TrimSpace(call.runID), call.now);
    } else {
      OthersKeepConditions(namespace, row, call);
    }
  }

  lemma CallKeepsReadiness(namespace: string, store: Store, call: Call, id: string)
    requires id in store.rows && !SetsStatus(call, id)
    ensures var after := Execute(namespace, store, call).store; id in after.rows && Ready(after, id) == Ready(store, id)
  {
    if !call.Create? && EarlyReply(call).None? && Named(call) == id {
      RowEffectAnnounces(namespace, store.rows[id], call);
      EffectKeepsReadiness(namespace, store.rows[id], call);
    }
  }

  lemma {:induction false} RunKeepsReadiness(namespace: string, store: Store, calls: seq<Call>, id: string)
    requires id in store.rows && forall call <- calls :: !SetsStatus(call, id)
    ensures var after := ExecuteAll(namespace, store, calls); id in after.rows && Ready(after, id) == Ready(store, id)
  {
    if calls != [] {
      var n := |calls| - 1;
      RunKeepsReadiness(namespace, store, calls[..n], id);
      CallKeepsReadiness(namespace, ExecuteAll(namespace, store, calls[..n]), calls[n], id);
    }
  }

  /** A claim succeeds when the slot is free and the session ready, or the run already holds the slot. */
  lemma ClaimSucceedsIff(namespace: string, store: Store, call: Call, id: string)
    requires StoreInv(store) && call.Claim? && id == Named(call) && id in store.rows
    ensures var done, runID := Execute(namespace, store, call), TrimSpace(call.runID);
            && (done.reply.Ok?
                <==> runID != "" && (Slot(store.rows[id]) == runID || (Slot(store.rows[id]) == "" && Ready(store, id))))
            && id in done.store.rows
            && Slot(done.store.rows[id]) == if done.reply.Ok? then runID else Slot(store.rows[id])
  {
    TrimSpaceTrims(id);
    TrimSpaceTrims(call.runID);
    assert PayloadOk(id, store.rows[id]);
  }

  /** A release succeeds for the run in the slot, empties it, and does nothing for any other run. */
  lemma ReleaseFrees(namespace: string, store: Store, call: Call, id: string)
    requires StoreInv(store) && call.Release? && id == Named(call) && id in store.rows
    ensures var done, runID := Execute(namespace, store, call), TrimSpace(call.runID);
            var released := runID != "" && Slot(store.rows[id]) == runID;
            && done.reply == Ok(ReleasedReply(released))
            && id in done.store.rows
            && (if released then Slot(done.store.rows[id]) == "" else done.store == store)
  {
    TrimSpaceTrims(id);
    assert PayloadOk(id, store.rows[id]) && TrimSpace("") == "";
  }

  lemma UpdateMovesGeneration(namespace: string, store: Store, call: Call, id: string, after: Store)
    requires StoreInv(store) && call.Update? && Named(call) == id && id in store.rows
    requires after == Execute(namespace, store, call).store && after != store
    ensures id in after.rows && after.rows[id].generation == store.rows[id].generation + 1
    ensures after.rows[id].payload.status == store.rows[id].payload.status
  {
    TrimSpaceTrims(id);
    assert PayloadOk(id, store.rows[id]);
  }

  predicate Frees(call: Call, id: string, runID: string) {
    call.Release? && Named(call) == id && TrimSpace(call.runID) == TrimSpace(runID)
  }

  lemma OtherRowsKeep(namespace: string, store: Store, call: Call, id: string)
    requires id in store.rows && (call.Create? || Named(call) != id)
    ensures var after := Execute(namespace, store, call).store; id in after.rows && after.rows[id] == store.rows[id]
  {
  }

  /** A held slot is safe from spec updates, repeated and rejected claims, and releases by other runs. */
  lemma CallKeepsHeldSlot(namespace: string, store: Store, call: Call, id: string, runID: string)
    requires StoreInv(store) && id in store.rows && Slot(store.rows[id]) == TrimSpace(runID) != ""
    requires !SetsStatus(call, id) && !Frees(call, id, runID)
    ensures var after := Execute(namespace, store, call).store;
            id in after.rows && Slot(after.rows[id]) == TrimSpace(runID)
  {
    if call.Create? || Named(call) != id {
      OtherRowsKeep(namespace, store, call, id);
    } else if call.Claim? {
      ClaimSucceedsIff(namespace, store, call, id);
    } else if call.Release? {
      ReleaseFrees(namespace, store, call, id);
    } else if Execute(namespace, store, call).store != store {
      UpdateMovesGeneration(namespace, store, call, id, Execute(namespace, store, call).store);
    }
  }

  lemma {:induction false} RunKeepsHeldSlot(namespace: string, store: Store, calls: seq<Call>, id: string,
                                            runID: string)
    requires StoreInv(store) && id in store.rows && Slot(store.rows[id]) == TrimSpace(runID) != ""
    requires forall call <- calls :: !SetsStatus(call, id) && !Frees(call, id, runID)
    ensures var after := ExecuteAll(namespace, store, calls);
            id in after.rows && Slot(after.rows[id]) == TrimSpace(runID)
  {
    if calls != [] {
      var n := |calls| - 1;
      assert forall call <- calls[..n] :: call in calls;
      RunKeepsHeldSlot(namespace, store, calls[..n], id, runID);
      RunKeepsInv(namespace, store, calls[..n]);
      CallKeepsHeldSlot(namespace, ExecuteAll(namespace, store, calls[..n]), calls[n], id, runID);
    }
  }

  /** Once the slot is released, the next claim succeeds exactly when the session was ready at the start. */
  lemma ClaimOnceFreed(namespace: string, store: Store, held: Store, id: string, runID: string, released: Timestamp,
                       nextRunID: string, later: Timestamp)
    requires StoreInv(held) && id in store.rows && id in held.rows && Ready(held, id) == Ready(store, id)
    requires id == TrimSpace(id) && TrimSpace(nextRunID) != ""
    requires Execute(namespace, held, Release(id, runID, released)).reply == Ok(ReleasedReply(true))
    ensures var freed := Execute(namespace, held, Release(id, runID, released)).store;
            Execute(namespace, freed, Claim(id, nextRunID, later)).reply.Ok? <==> Ready(store, id)
  {
    ReleaseFrees(namespace, held, Release(id, runID, released), id);
    CallKeepsReadiness(namespace, held, Release(id, runID, released), id);
    CallKeepsInv(namespace, held, Release(id, runID, released));
    ClaimSucceedsIff(namespace, Execute(namespace, held, Release(id, runID, released)).store,
                     Claim(id, nextRunID, later), id);
  }

  /**
   * A claim, then any calls that do not set the session's status, then a
   * release: the release frees the slot, unless one of the calls had released
   * the run before, and after a release that does free it the next claim
   * succeeds exactly when the session was ready at the start, which it was if
   * the first claim took a free slot.
   */
  lemma ClaimAfterRelease(namespace: string, store: Store, id: string, runID: string, calls: seq<Call>,
                          nextRunID: string,
                          claimed: Timestamp, released: Timestamp, later: Timestamp)
    requires StoreInv(store) && id in store.rows && TrimSpace(nextRunID) != ""
    requires Execute(namespace, store, Claim(id, runID, claimed)).reply.Ok?
    requires forall call <- calls :: !SetsStatus(call, id)
    ensures var held := ExecuteAll(namespace, Execute(namespace, store, Claim(id, runID, claimed)).store, calls);
            var freed := Execute(namespace, held, Release(id, runID, released));
            && ((forall call <- calls :: !Frees(call, id, runID)) ==> freed.reply == Ok(ReleasedReply(true)))
            && (freed.reply == Ok(ReleasedReply(true)) ==>
                  (Execute(namespace, freed.store, Claim(id, nextRunID, later)).reply.Ok? <==> Ready(store, id)))
    ensures Slot(store.rows[id]) == "" ==> Ready(store, id)
  {
    var claim := Claim(id, runID, claimed);
    var first := Execute(namespace, store, claim).store;
    assert PayloadOk(id, store.rows[id]);
    TrimSpaceTrims(id);
    ClaimSucceedsIff(namespace, store, claim, id);
    CallKeepsReadiness(namespace, store, claim, id);
    CallKeepsInv(namespace, store, claim);
    var held := ExecuteAll(namespace, first, calls);
    RunKeepsReadiness(namespace, first, calls, id);
    RunKeepsInv(namespace, first, calls);
    ReleaseFrees(namespace, held, Release(id, runID, released), id);
    if forall call <- calls :: !Frees(call, id, runID) {
      RunKeepsHeldSlot(namespace, first, calls, id, runID);
    }
    if Execute(namespace, held, Release(id, runID, released)).reply == Ok(ReleasedReply(true)) {
      ClaimOnceFreed(namespace, store, held, id, runID, released, nextRunID, later);
    }
  }

  // ---------------------------------------------------------------- validity

  predicate DistinctStored(conditions: seq<StoredCondition>) {
    forall i, j :: 0 <= i < j < |conditions| ==> conditions[i].conditionType != conditions[j].conditionType
  }

  lemma ClaimKeepsTypesDistinct(conditions: seq<StoredCondition>, next: StoredCondition)
    requires DistinctStored(conditions)
    ensures DistinctStored(WithCondition(conditions, next))
  {
    var k := WithConditionAt(conditions, next);
  }

  predicate ValidStored(condition: StoredCondition, observedGeneration: int) {
    ValidCondition(Some(Loaded(condition))) && condition.observedGeneration <= observedGeneration
  }

  lemma ValidConditionsIff(conditions: seq<StoredCondition>, observedGeneration: int)
    ensures ValidConditions(LoadedConditions(conditions), observedGeneration)
            <==> DistinctStored(conditions) && forall i :: 0 <= i < |conditions| ==>
                ValidStored(conditions[i], observedGeneration)
  {
    var loaded := LoadedConditions(conditions);
    assert forall i :: 0 <= i < |conditions| ==> loaded[i] == Some(Loaded(conditions[i])) && loaded[i] in loaded;
    if ValidConditions(loaded, observedGeneration) {
      forall i, j | 0 <= i < j < |conditions| ensures conditions[i].conditionType != conditions[j].conditionType {
        assert loaded[i].value.conditionType != loaded[j].value.conditionType;
      }
    }
  }

  lemma ActiveRunReasonIsAllowed()
    ensures ACTIVE_RUN_IN_PROGRESS in AllowedReasons(READY_FOR_NEXT_RUN) && IsCamelCase(ACTIVE_RUN_IN_PROGRESS)
    ensures ConditionOf("False") == STATUS_FALSE
  {
    ConditionTextRoundTrip(STATUS_FALSE);
  }

  lemma ActiveRunConditionValidIff(generation: int, now: Timestamp, observedGeneration: int)
    requires generation >= 0
    ensures ValidStored(ActiveRunCondition(generation, now), observedGeneration) <==> generation <= observedGeneration
  {
    ActiveRunReasonIsAllowed();
    var condition := Loaded(ActiveRunCondition(generation, now));
    assert condition.status == STATUS_FALSE && condition.reason == ACTIVE_RUN_IN_PROGRESS
           && condition.conditionType == READY_FOR_NEXT_RUN;
  }

  lemma ClaimedConditionsValidIff(conditions: seq<StoredCondition>, generation: int, now: Timestamp,
                                  observedGeneration: int)
    requires generation >= 0 && ValidConditions(LoadedConditions(conditions), observedGeneration)
    ensures ValidConditions(LoadedConditions(WithCondition(conditions, ActiveRunCondition(generation, now))),
                            observedGeneration)
            <==> generation <= observedGeneration
  {
    var next := ActiveRunCondition(generation, now);
    var after := WithCondition(conditions, next);
    ValidConditionsIff(conditions, observedGeneration);
    ClaimKeepsTypesDistinct(conditions, next);
    ValidConditionsIff(after, observedGeneration);
    ActiveRunConditionValidIff(generation, now, observedGeneration);
    ValidAfterEdit(conditions, next, after, observedGeneration);
  }

  /** An edited list is valid when the new condition is. */
  lemma ValidAfterEdit(conditions: seq<StoredCondition>, next: StoredCondition, after: seq<StoredCondition>,
                       observedGeneration: int)
    requires after == WithCondition(conditions, next)
    requires forall i :: 0 <= i < |conditions| ==> ValidStored(conditions[i], observedGeneration)
    requires ValidStored(next, observedGeneration) <==> next.observedGeneration <= observedGeneration
    ensures (forall i :: 0 <= i < |after| ==> ValidStored(after[i], observedGeneration))
            <==> next.observedGeneration <= observedGeneration
  {
    var k := WithConditionAt(conditions, next);
    assert k < |after| && after[k].observedGeneration == next.observedGeneration;
    assert forall i :: 0 <= i < |after| && i != k ==> after[i] == conditions[i];
    assert after[k] == next || after[k] == conditions[k];
  }

  lemma ClaimedStatusValidIff(id: string, status: StoredStatus, runID: string, generation: int, now: Timestamp)
    requires generation >= 0 && ValidStatus(StatusOf(id, status))
    ensures ValidStatus(StatusOf(id, ClaimedStatus(status, runID, generation, now)))
            <==> status.observed.observedGeneration >= generation
    ensures DistinctStored(ClaimedStatus(status, runID, generation, now).conditions)
  {
    ClaimedConditionsValidIff(status.conditions, generation, now, status.observed.observedGeneration);
    ValidConditionsIff(status.conditions, status.observed.observedGeneration);
    ClaimKeepsTypesDistinct(status.conditions, ActiveRunCondition(generation, now));
    PhaseRoundTrip(PHASE_RUNNING);
  }

  lemma ClaimTakesSlot(namespace: string, store: Store, id: string, runID: string, now: Timestamp, after: Store)
    requires StoreInv(store) && id in store.rows && Slot(store.rows[id]) == "" && Ready(store, id)
             && TrimSpace(runID) != ""
    requires after == Execute(namespace, store, Claim(id, runID, now)).store
    ensures id in after.rows
    ensures after.rows[id].payload.status
            == ClaimedStatus(store.rows[id].payload.status, TrimSpace(runID), store.rows[id].generation, now)
  {
    TrimSpaceTrims(id);
    assert PayloadOk(id, store.rows[id]);
  }

  /**
   * A claim that takes the slot keeps a valid status valid exactly when the
   * status had observed the session's current generation: the new condition
   * is stamped with that generation. Condition types stay unique either way.
   */
  lemma ClaimKeepsStatusValidIff(namespace: string, store: Store, id: string, runID: string, now: Timestamp,
                                 after: Store)
    requires StoreInv(store) && id in store.rows && Slot(store.rows[id]) == "" && Ready(store, id)
             && TrimSpace(runID) != ""
    requires ValidStatus(StatusOf(id, store.rows[id].payload.status))
    requires after == Execute(namespace, store, Claim(id, runID, now)).store
    ensures id in after.rows
    ensures ValidStatus(StatusOf(id, after.rows[id].payload.status))
            <==> store.rows[id].payload.status.observed.observedGeneration >= store.rows[id].generation
    ensures DistinctStored(after.rows[id].payload.status.conditions)
  {
    ClaimTakesSlot(namespace, store, id, runID, now, after);
    assert PayloadOk(id, store.rows[id]);
    ClaimedStatusValidIff(id, store.rows[id].payload.status, TrimSpace(runID), store.rows[id].generation, now);
  }

  /** A spec change between the last status and a claim makes the claimed status invalid. */
  lemma ClaimAfterUpdateInvalidatesStatus(namespace: string, store: Store, id: string, session: Option<Spec>,
                                          runID: string,
                                          now: Timestamp, updated: Store, claimed: Store)
    requires StoreInv(store) && id in store.rows && Slot(store.rows[id]) == "" && Ready(store, id)
             && TrimSpace(runID) != ""
    requires store.rows[id].payload.status.observed.observedGeneration == store.rows[id].generation
    requires ValidStatus(StatusOf(id, store.rows[id].payload.status))
    requires updated == Execute(namespace, store, Update(id, session)).store && updated != store
    requires claimed == Execute(namespace, updated, Claim(id, runID, now)).store
    ensures id in claimed.rows && !ValidStatus(StatusOf(id, claimed.rows[id].payload.status))
  {
    CallKeepsInv(namespace, store, Update(id, session));
    TrimSpaceTrims(id);
    assert PayloadOk(id, store.rows[id]);
    UpdateMovesGeneration(namespace, store, Update(id, session), id, updated);
    ClaimKeepsStatusValidIff(namespace, updated, id, runID, now, claimed);
  }

  function ReadyStatus(): StoredStatus {
    NEW_STATUS.(conditions := [StoredCondition(WORKSPACE_READY, "True", "WorkspacePrepared", "", 1, NoText),
                               StoredCondition(WARM_STATE_READY, "True", "WarmStatePrepared", "", 1, NoText)],
                phase := PhaseText(PHASE_READY), observed := NOTHING_OBSERVED.(observedGeneration := 1))
  }

  lemma ReasonsAreValid()
    ensures "WorkspacePrepared" in AllowedReasons(WORKSPACE_READY) && IsCamelCase("WorkspacePrepared")
    ensures "WarmStatePrepared" in AllowedReasons(WARM_STATE_READY) && IsCamelCase("WarmStatePrepared")
    ensures WORKSPACE_READY != WARM_STATE_READY
  {
    assert |WORKSPACE_READY| == 14 && WORKSPACE_READY[1] == 'o' && WARM_STATE_READY[1] == 'a';
  }

  lemma ReadyStatusIsReady()
    ensures DispatchReady(ReadyStatus().conditions) && TrimSpace(ReadyStatus().activeRunID) == ""
  {
    var conditions := ReadyStatus().conditions;
    assert conditions[0] in conditions && conditions[1] in conditions;
  }

  lemma ReadyStatusIsValid(id: string)
    requires id != ""
    ensures ValidStatus(StatusOf(id, ReadyStatus()))
  {
    var conditions := ReadyStatus().conditions;
    ConditionTextRoundTrip(STATUS_TRUE);
    PhaseRoundTrip(PHASE_READY);
    ReasonsAreValid();
    assert ValidStored(conditions[0], 1) && ValidStored(conditions[1], 1);
    ValidConditionsIff(conditions, 1);
  }

  /** A ready session whose valid status has observed its generation exists, so both outcomes above occur. */
  lemma ValidReadySession(namespace: string, spec: Spec, id: string) returns (store: Store)
    requires spec.sessionID == id && id != "" && Trimmed(id)
    ensures StoreInv(store) && id in store.rows && Slot(store.rows[id]) == "" && Ready(store, id)
    ensures ValidStatus(StatusOf(id, store.rows[id].payload.status))
    ensures store.rows[id].payload.session == Some(spec)
    ensures store.rows[id].payload.status.observed.observedGeneration == store.rows[id].generation
  {
    ReadyStatusIsReady();
    ReadyStatusIsValid(id);
    var row := Row(NewResource(namespace, spec, 1).(status := ReadyStatus()), 1);
    store := Store(map[id := row], [EventOf(row, Created)]);
    TrimSpaceTrims(id);
    CommitKeepsInv(EMPTY_STORE, id, row, Created, store);
  }
}
