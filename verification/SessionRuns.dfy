/** What holds of sessions and their outbox after any number of calls. */
module SessionRuns {
  import opened Text
  import opened Decimal
  import opened SessionTypes
  import opened SessionResource
  import opened SessionStore

  // ---------------------------------------------------------------- the outbox of one session

  /** The versions a session's created and updated events carry, in outbox order. */
  function SpecVersions(outbox: seq<Event>, id: string): seq<int> {
    if outbox == [] then [] else
    var n := |outbox| - 1;
    SpecVersions(outbox[..n], id)
    + if outbox[n].aggregateID == id && !outbox[n].kind.StatusUpdated? then [outbox[n].version] else []
  }

  /** The state in a session's latest event. */
  function LatestState(outbox: seq<Event>, id: string): Option<State> {
    if outbox == [] then None else
    var n := |outbox| - 1;
    if outbox[n].aggregateID == id then Some(outbox[n].state) else LatestState(outbox[..n], id)
  }

  function UpTo(n: nat): seq<int> { seq(n, i => i + 1) }

  lemma OutboxAppend(outbox: seq<Event>, event: Event, id: string)
    ensures LatestState(outbox + [event], id) == if event.aggregateID == id then Some(event.state)
            else LatestState(outbox, id)
    ensures SpecVersions(outbox + [event], id)
            == SpecVersions(outbox, id) + if event.aggregateID == id && !event.kind.StatusUpdated? then [event.version]
            else []
  {
    assert (outbox + [event])[..|outbox|] == outbox;
  }

  // ---------------------------------------------------------------- the invariant

  predicate PayloadOk(id: string, row: Row) {
    && id != "" && Trimmed(id) && row.generation >= 1
    && row.payload.metadata.name == id
    && row.payload.metadata.generation == row.generation
    && row.payload.metadata.resourceVersion == FormatInt(row.generation)
    && row.payload.session.Some? && row.payload.session.value.sessionID == id
  }

  predicate RowInv(versions: seq<int>, latest: Option<State>, id: string, row: Row) {
    && PayloadOk(id, row)
    && versions == UpTo(row.generation)
    && latest == Some(StateIn(row).value)
  }

  ghost predicate StoreInv(store: Store) {
    && (forall id <- store.rows ::
        RowInv(SpecVersions(store.outbox, id), LatestState(store.outbox, id), id, store.rows[id]))
    && (forall event <- store.outbox :: event.aggregateID in store.rows)
  }

  // ---------------------------------------------------------------- one call

  lemma NormalizedSpec(rawID: string, spec: Option<Spec>)
    requires NormalizeSpec(rawID, spec).Ok?
    ensures var id := NormalizeSpec(rawID, spec).value.sessionID; id == TrimSpace(rawID) && id != "" && Trimmed(id)
  {
    TrimSpaceTrims(rawID);
  }

  predicate StepsFrom(effect: Effect, id: string, row: Row) {
    effect.Rewritten? ==>
      && PayloadOk(id, effect.row) && !effect.kind.Created?
      && effect.row.generation == row.generation + (if effect.kind.Updated? then 1 else 0)
  }

  /** Every rewrite keeps the row well formed; only a spec update moves the generation, by one. */
  lemma EffectKeepsPayload(namespace: string, id: string, row: Row, call: Call)
    requires !call.Create? && EarlyReply(call).None? && Named(call) == id && PayloadOk(id, row)
    ensures StepsFrom(RowEffect(namespace, row, call), id, row)
  {
    if call.Update? {
      NormalizedSpec(id, call.session);
      TrimSpaceTrims(id);
    }
  }

  lemma UpToNext(n: nat)
    ensures UpTo(n + 1) == UpTo(n) + [n + 1]
  {
  }

  /** Committing a well-formed rewrite keeps the outbox in step with the row. */
  lemma CommitKeepsRow(outbox: seq<Event>, id: string, versions: seq<int>, row: Row, kind: EventKind)
    requires PayloadOk(id, row) && versions == SpecVersions(outbox, id)
    requires versions == UpTo(if kind.StatusUpdated? then row.generation else row.generation - 1)
    ensures EventOf(row, kind).aggregateID == id
    ensures var after := outbox + [EventOf(row, kind)];
            RowInv(SpecVersions(after, id), LatestState(after, id), id, row)
  {
    TrimSpaceTrims(id);
    OutboxAppend(outbox, EventOf(row, kind), id);
    UpToNext(row.generation - 1);
    assert UpTo(row.generation) + [] == UpTo(row.generation);
  }

  lemma CommitKeepsInv(store: Store, id: string, row: Row, kind: EventKind, after: Store)
    requires StoreInv(store) && PayloadOk(id, row)
    requires SpecVersions(store.outbox, id) == UpTo(if kind.StatusUpdated? then row.generation else row.generation - 1)
    requires after == Store(store.rows[id := row], store.outbox + [EventOf(row, kind)])
    ensures StoreInv(after)
  {
    CommitKeepsRow(store.outbox, id, SpecVersions(store.outbox, id), row, kind);
    forall other <- after.rows
      ensures RowInv(SpecVersions(after.outbox, other), LatestState(after.outbox, other), other, after.rows[other])
    {
      if other != id {
        assert other in store.rows;
        OutboxAppend(store.outbox, EventOf(row, kind), other);
        assert SpecVersions(store.outbox, other) + [] == SpecVersions(store.outbox, other);
      }
    }
  }

  lemma {:induction false} NoRowNoEvents(outbox: seq<Event>, id: string)
    requires forall event <- outbox :: event.aggregateID != id
    ensures SpecVersions(outbox, id) == []
  {
    if outbox != [] {
      NoRowNoEvents(outbox[..|outbox| - 1], id);
    }
  }

  lemma CreateKeepsInv(namespace: string, store: Store, call: Call)
    requires StoreInv(store) && call.Create?
    ensures StoreInv(Execute(namespace, store, call).store)
  {
    if call.session.Some? && NormalizeSpec(TrimSpace(call.session.value.sessionID), call.session).Ok? {
      var spec := NormalizeSpec(TrimSpace(call.session.value.sessionID), call.session).value;
      NormalizedSpec(TrimSpace(call.session.value.sessionID), call.session);
      TrimSpaceTrims(spec.sessionID);
      if spec.sessionID !in store.rows {
        NoRowNoEvents(store.outbox, spec.sessionID);
        CommitKeepsInv(store, spec.sessionID, Row(NewResource(namespace, spec, 1), 1), Created,
                       Execute(namespace, store, call).store);
      }
    }
  }

  lemma EffectKeepsInv(store: Store, id: string, effect: Effect)
    requires StoreInv(store) && id in store.rows && StepsFrom(effect, id, store.rows[id]) && Announces(effect)
    ensures StoreInv(Commit(store, id, effect).store)
  {
    if effect.Rewritten? {
      CommitKeepsInv(store, id, effect.row, effect.kind, Commit(store, id, effect).store);
    }
  }

  lemma RowCallKeepsInv(namespace: string, store: Store, call: Call, id: string)
    requires StoreInv(store) && !call.Create? && EarlyReply(call).None? && id == Named(call) && id in store.rows
    ensures StoreInv(Execute(namespace, store, call).store)
  {
    EffectKeepsPayload(namespace, id, store.rows[id], call);
    RowEffectAnnounces(namespace, store.rows[id], call);
    EffectKeepsInv(store, id, RowEffect(namespace, store.rows[id], call));
  }

  lemma CallKeepsInv(namespace: string, store: Store, call: Call)
    requires StoreInv(store)
    ensures StoreInv(Execute(namespace, store, call).store)
  {
    if call.Create? {
      CreateKeepsInv(namespace, store, call);
    } else if EarlyReply(call).None? && Named(call) in store.rows {
      RowCallKeepsInv(namespace, store, call, Named(call));
    }
  }

  // ---------------------------------------------------------------- whole runs

  lemma {:induction false} RunKeepsInv(namespace: string, store: Store, calls: seq<Call>)
    requires StoreInv(store)
    ensures StoreInv(ExecuteAll(namespace, store, calls))
  {
    if calls != [] {
      RunKeepsInv(namespace, store, calls[..|calls| - 1]);
      CallKeepsInv(namespace, ExecuteAll(namespace, store, calls[..|calls| - 1]), calls[|calls| - 1]);
    }
  }

  /**
   * After any calls: a session's row, payload and resource version agree on its
   * generation, its created and updated events carry the versions 1, 2, ...
   * up to that generation in order, and its latest event holds what Get returns.
   */
  lemma OutboxMatchesRows(namespace: string, calls: seq<Call>, id: string)
    requires id in ExecuteAll(namespace, EMPTY_STORE, calls).rows
    ensures var store := ExecuteAll(namespace, EMPTY_STORE, calls);
            var row := store.rows[id];
            && row.generation >= 1
            && row.payload.metadata.generation == row.generation
            && row.payload.metadata.resourceVersion == FormatInt(row.generation)
            && SpecVersions(store.outbox, id) == UpTo(row.generation)
            && Get(namespace, store, id).Ok?
            && LatestState(store.outbox, id) == Some(Get(namespace, store, id).value)
  {
    RunKeepsInv(namespace, EMPTY_STORE, calls);
    TrimSpaceTrims(id);
  }

  /** No event is for a session that does not exist. */
  lemma EventsHaveRows(namespace: string, calls: seq<Call>)
    ensures forall event <- ExecuteAll(namespace, EMPTY_STORE, calls).outbox ::
              event.aggregateID in ExecuteAll(namespace, EMPTY_STORE, calls).rows
  {
    RunKeepsInv(namespace, EMPTY_STORE, calls);
  }

  /** A claim, a release and a spec update only write when they change something. */
  lemma RewriteChangesRow(namespace: string, row: Row, call: Call)
    requires !call.Create? && EarlyReply(call).None? && !call.UpdateStatus?
    ensures var effect := RowEffect(namespace, row, call); effect.Rewritten? ==> effect.row != row
  {
    if call.Claim? || call.Release? {
      TrimSpaceTrims(call.runID);
      assert TrimSpace("") == "";
    }
  }

  /**
   * Every change to a session is announced by exactly one event, and a call
   * that fails or changes nothing leaves the whole store as it was. Only a
   * status the stored form cannot hold is announced without a change: see
   * SessionStatusCodec.
   */
  lemma EventIffChanged(namespace: string, store: Store, call: Call)
    requires StoreInv(store)
    ensures var done := Execute(namespace, store, call);
            && (done.store == store
                || (done.reply.Ok? && |done.store.outbox| == |store.outbox| + 1 && store.outbox <= done.store.outbox))
            && (!call.UpdateStatus? && done.store.rows == store.rows ==> done.store == store)
  {
    var done := Execute(namespace, store, call);
    if !call.Create? && EarlyReply(call).None? && Named(call) in store.rows && !call.UpdateStatus? {
      var row := store.rows[Named(call)];
      RewriteChangesRow(namespace, row, call);
      var effect := RowEffect(namespace, row, call);
      assert effect.Rewritten? ==> done.store.rows[Named(call)] == effect.row;
    }
    if call.Create? && done.store != store {
      var id := NormalizeSpec(TrimSpace(call.session.value.sessionID), call.session).value.sessionID;
      assert id in done.store.rows && id !in store.rows;
    }
  }
}
