/** Writing a status and reading it back: when it is the same, and when writing again is a no-op. */
module SessionStatusCodec {
  import opened Text
  import opened SessionTypes
  import opened SessionResource
  import opened SessionStore
  import opened SessionRuns
  import opened SessionReadiness

  /** Whatever is stored, what is read from it can be stored. */
  lemma ReadStatusIsStorable(sessionID: string, stored: StoredStatus)
    ensures StorableStatus(StatusOf(sessionID, stored))
  {
    TrimSpaceTrims(stored.activeRunID);
  }

  predicate Accepted(namespace: string, store: Store, call: Call) {
    call.UpdateStatus? && Execute(namespace, store, call).reply.Ok?
  }

  /** The normalized status an accepted call writes. */
  function Written(call: Call): Status
    requires call.UpdateStatus? && NormalizeStatus(Named(call), call.status, call.now).Ok?
  {
    NormalizeStatus(Named(call), call.status, call.now).value
  }

  predicate Current(observedGeneration: int, generation: int) {
    observedGeneration == 0 || observedGeneration == generation
  }

  /** A status is accepted when it names an existing session and observed its generation, or none. */
  lemma AcceptedIff(namespace: string, store: Store, call: Call)
    requires StoreInv(store) && call.UpdateStatus?
    ensures Accepted(namespace, store, call)
            <==> && NormalizeStatus(Named(call), call.status, call.now).Ok? && Named(call) in store.rows
                 && Current(Written(call).observed.observedGeneration, store.rows[Named(call)].generation)
  {
    TrimSpaceTrims(call.sessionID);
    if Named(call) in store.rows {
      assert PayloadOk(Named(call), store.rows[Named(call)]);
    }
  }

  /** What an accepted status does to a well-formed row: nothing if it is there already, else it is stored. */
  lemma StatusRowEffect(namespace: string, id: string, row: Row, status: Status)
    requires PayloadOk(id, row) && Current(status.observed.observedGeneration, row.generation)
    ensures var effect := UpdateStatusRow(namespace, id, row, status);
            if StatusOf(id, row.payload.status) == status
            then effect.Unchanged? && effect.reply.StateReply? && effect.reply.state.status == status
            else && effect.Rewritten? && effect.reply.StateReply?
                 && effect.row.generation == row.generation && effect.row.payload.status == StoredStatusOf(status)
                 && effect.reply.state.status == StatusOf(id, StoredStatusOf(status))
  {
    TrimSpaceTrims(id);
  }

  /** The status an accepted call leaves the session with, unless it found it already there. */
  lemma AcceptedStatus(namespace: string, store: Store, call: Call)
    requires StoreInv(store) && Accepted(namespace, store, call)
    ensures NormalizeStatus(Named(call), call.status, call.now).Ok? && Named(call) in store.rows
    ensures var done, id := Execute(namespace, store, call), Named(call);
            var before := StatusOf(id, store.rows[id].payload.status);
            && done.reply.value.StateReply?
            && done.reply.value.state.status == StatusOf(id, done.store.rows[id].payload.status)
            && done.store.rows[id].generation == store.rows[id].generation
            && (before == Written(call) ==> done.store == store)
            && (before != Written(call) ==> done.store.rows[id].payload.status == StoredStatusOf(Written(call))
                                            && done.store.outbox != store.outbox)
  {
    AcceptedIff(namespace, store, call);
    RowEffectAnnounces(namespace, store.rows[Named(call)], call);
    StatusRowEffect(namespace, Named(call), store.rows[Named(call)], Written(call));
  }

  lemma AcceptedReadsBack(namespace: string, store: Store, call: Call)
    requires StoreInv(store) && Accepted(namespace, store, call)
    ensures NormalizeStatus(Named(call), call.status, call.now).Ok? && Named(call) in store.rows
    ensures var after := Execute(namespace, store, call).store.rows[Named(call)].payload.status;
            StatusOf(Named(call), after) == Written(call) <==> StorableStatus(Written(call))
  {
    AcceptedStatus(namespace, store, call);
    StatusRoundTrip(Written(call));
    ReadStatusIsStorable(Named(call), store.rows[Named(call)].payload.status);
  }

  /** An accepted status is what Get then returns exactly when the stored form can hold it. */
  lemma StatusIsReadBackIff(namespace: string, store: Store, call: Call)
    requires StoreInv(store) && Accepted(namespace, store, call)
    ensures NormalizeStatus(Named(call), call.status, call.now).Ok?
    ensures var read := Get(namespace, Execute(namespace, store, call).store, Named(call));
            read.Ok? && (read.value.status == Written(call) <==> StorableStatus(Written(call)))
  {
    AcceptedReadsBack(namespace, store, call);
    CallKeepsInv(namespace, store, call);
    TrimSpaceTrims(call.sessionID);
    TrimSpaceTrims(Named(call));
  }

  /** Sending an accepted status again changes and announces nothing exactly when the stored form can hold it. */
  lemma RepeatedStatusIsNoOpIff(namespace: string, store: Store, call: Call)
    requires StoreInv(store) && Accepted(namespace, store, call)
    ensures NormalizeStatus(Named(call), call.status, call.now).Ok?
    ensures var once := Execute(namespace, store, call).store;
            Execute(namespace, once, call).store == once <==> StorableStatus(Written(call))
  {
    var once := Execute(namespace, store, call).store;
    AcceptedStatus(namespace, store, call);
    AcceptedReadsBack(namespace, store, call);
    CallKeepsInv(namespace, store, call);
    AcceptedAgain(namespace, store, call, call);
    AcceptedStatus(namespace, once, call);
  }

  /** It happens: a status with an empty active run is accepted, and announced again each time it is sent. */
  lemma RepeatedStatusExample(namespace: string, now: Timestamp) returns (store: Store, call: Call)
    ensures StoreInv(store) && Accepted(namespace, store, call)
    ensures var once := Execute(namespace, store, call).store; Execute(namespace, once, call).store != once
  {
    var id := "s";
    assert Trimmed(id);
    TrimSpaceTrims(id);
    store := ValidReadySession(namespace, Spec(id, "", "", None, None, None, None, 0, "", []), id);
    call := UpdateStatus(id, Some(Status(id, PHASE_READY, NOTHING_OBSERVED, Some(""), [], None)), now);
    AcceptedIff(namespace, store, call);
    RepeatedStatusIsNoOpIff(namespace, store, call);
  }

  /** After an accepted status, one with the same observed generation is accepted too. */
  lemma AcceptedAgain(namespace: string, store: Store, call: Call, again: Call)
    requires StoreInv(store) && Accepted(namespace, store, call) && again.UpdateStatus? && Named(again) == Named(call)
    requires again.status.Some? && NormalizeStatus(Named(again), again.status, again.now).Ok?
    requires call.status.Some?
             && again.status.value.observed.observedGeneration == call.status.value.observed.observedGeneration
    ensures Accepted(namespace, Execute(namespace, store, call).store, again)
  {
    AcceptedStatus(namespace, store, call);
    CallKeepsInv(namespace, store, call);
    AcceptedIff(namespace, store, call);
    AcceptedIff(namespace, Execute(namespace, store, call).store, again);
  }

  /**
   * Sending back the status an accepted call returned, at any later time,
   * changes nothing and announces nothing exactly when the update time that
   * was written prints as RFC 3339: without one, a new time is filled in.
   */
  lemma ReturnedStatusIsNoOpIff(namespace: string, store: Store, call: Call, later: Timestamp)
    requires StoreInv(store) && Accepted(namespace, store, call)
    ensures NormalizeStatus(Named(call), call.status, call.now).Ok?
            && Execute(namespace, store, call).reply.value.StateReply?
    ensures var once := Execute(namespace, store, call);
            var again := UpdateStatus(call.sessionID, Some(once.reply.value.state.status), later);
            Execute(namespace, once.store, again).store == once.store
            <==> WellFormedTime(AsTime(Written(call).updatedAt.value))
  {
    AcceptedStatus(namespace, store, call);
    var once := Execute(namespace, store, call);
    var returned := once.reply.value.state.status;
    var again := UpdateStatus(call.sessionID, Some(returned), later);
    TrimSpaceTrims(call.sessionID);
    CallKeepsInv(namespace, store, call);
    AcceptedAgain(namespace, store, call, again);
    AcceptedStatus(namespace, once.store, again);
    ReadStatusIsStorable(Named(call), store.rows[Named(call)].payload.status);
    TimeParses(Written(call).updatedAt.value);
    assert returned.updatedAt.Some? <==> WellFormedTime(AsTime(Written(call).updatedAt.value));
  }
}
