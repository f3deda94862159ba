/** PUT requests keep a chat's identity, and repeating one changes nothing. */
module ChatPuts {
  import opened Text
  import opened SessionTypes
  import opened SessionResource
  import SessionStore
  import opened SessionRuns
  import opened ChatStore
  import opened ChatSetup
  import opened ChatLinks

  // ---------------------------------------------------------------- session calls

  predicate Normal(spec: Spec) {
    spec.sessionID != "" && Trimmed(spec.sessionID) && spec.workspaceRef.Some? && spec.homeStateRef.Some?
  }

  /** Normalizing gives a normal spec, and a normal spec is left as it is. */
  lemma NormalizeIsIdempotent(rawID: string, spec: Option<Spec>)
    ensures NormalizeSpec(rawID, spec).Ok? ==>
              Normal(NormalizeSpec(rawID, spec).value) && NormalizeSpec(rawID, spec).value.sessionID == TrimSpace(rawID)
    ensures spec.Some? && Normal(spec.value) && TrimSpace(rawID) == spec.value.sessionID ==>
            NormalizeSpec(rawID, spec) == Ok(spec.value)
  {
    TrimSpaceTrims(rawID);
  }

  /** A row that is updated to a spec holds it, and is answered with it. */
  lemma UpdatedRow(namespace: string, row: SessionStore.Row, spec: Spec)
    requires PayloadOk(spec.sessionID, row) && Normal(spec)
    ensures var effect := SessionStore.UpdateRow(namespace, spec.sessionID, row, spec);
            && !effect.Refused? && effect.reply.StateReply? && effect.reply.state.spec == spec
            && (effect.Unchanged? ==> Ok(effect.reply.state) == SessionStore.StateIn(row))
            && (effect.Rewritten? ==>
                PayloadOk(spec.sessionID, effect.row) && Ok(effect.reply.state) == SessionStore.StateIn(effect.row))
  {
    TrimSpaceTrims(spec.sessionID);
  }

  /** A session service answers with the state it has just stored. */
  lemma UpdateReadsBack(namespace: string, store: SessionStore.Store, spec: Spec, done: SessionStore.Done)
    requires StoreInv(store) && Normal(spec) && spec.sessionID in store.rows
    requires done == SessionStore.Execute(namespace, store, SessionStore.Update(spec.sessionID, Some(spec)))
    ensures StateReplied(done).Ok? && StateReplied(done).value.spec == spec
    ensures SessionStore.Get(namespace, done.store, spec.sessionID) == StateReplied(done)
    ensures done.store.rows.Keys == store.rows.Keys
    ensures forall id <- store.rows :: id != spec.sessionID ==> done.store.rows[id] == store.rows[id]
  {
    NormalizeIsIdempotent(spec.sessionID, Some(spec));
    TrimSpaceTrims(spec.sessionID);
    UpdatedRow(namespace, store.rows[spec.sessionID], spec);
  }

  lemma CreateReadsBack(namespace: string, store: SessionStore.Store, spec: Spec, done: SessionStore.Done)
    requires Normal(spec) && done == SessionStore.Execute(namespace, store, SessionStore.Create(Some(spec)))
             && done.reply.Ok?
    ensures StateReplied(done).Ok? && StateReplied(done).value.spec == spec
    ensures SessionStore.Get(namespace, done.store, spec.sessionID) == StateReplied(done)
  {
    NormalizeIsIdempotent(spec.sessionID, Some(spec));
    TrimSpaceTrims(spec.sessionID);
  }

  lemma GetReadsRow(namespace: string, store: SessionStore.Store, id: string)
    requires StoreInv(store) && id in store.rows
    ensures var got := SessionStore.Get(namespace, store, id);
            got.Ok? && Some(got.value.spec) == store.rows[id].payload.session && got.value.spec.sessionID == id
  {
    TrimSpaceTrims(id);
    assert PayloadOk(id, store.rows[id]);
  }

  // ---------------------------------------------------------------- what a chat reads as

  /** The chat of a world with its session, by its own session id. */
  lemma GetWithSessionReads(namespace: string, world: World, rawID: string)
    requires ChatsInv(world.chats)
    ensures var id := TrimSpace(rawID);
            GetWithSession(namespace, world, rawID).Ok? ==>
              && id in world.chats
              && GetWithSession(namespace, world, rawID).value.chat == world.chats[id].chat
              && CurrentSessionID(id, world.chats[id].chat) == world.chats[id].chat.sessionID
              && SessionStore.Get(namespace, world.sessions, world.chats[id].chat.sessionID)
                 == Ok(GetWithSession(namespace, world, rawID).value.session)
  {
    var id := TrimSpace(rawID);
    TrimSpaceTrims(rawID);
    if id in world.chats {
      assert CleanChat(id, world.chats[id]);
      TrimSpaceTrims(world.chats[id].chat.sessionID);
    }
  }

  // ---------------------------------------------------------------- merging is idempotent

  lemma ResourcesNormalizeOnce(hash: Resources -> string, config: Resources)
    ensures NormalizeResources(hash, NormalizeResources(hash, config)) == NormalizeResources(hash, config)
  {
    assert NormalizeResources(hash, config).(snapshotID := "") == config.(snapshotID := "");
  }

  lemma MergeIsIdempotent(setup: Setup, sessionID: string, current: Spec, inline: InlineSetup)
    requires sessionID != "" && Trimmed(sessionID) && MergedSpec(setup, sessionID, current, inline).Ok?
    ensures var next := MergedSpec(setup, sessionID, current, inline).value;
            && Normal(next) && next.sessionID == sessionID && Mode(next) == INLINE_MODE
            && MergedSpec(setup, sessionID, next, inline) == Ok(next)
  {
    var next := MergedSpec(setup, sessionID, current, inline).value;
    TrimSpaceTrims(sessionID);
    TrimSpaceTrims(current.providerID);
    TrimSpaceTrims(current.executionClass);
    assert TrimSpace("") == "";
    if inline.resourceConfig.Decoded? {
      ResourcesNormalizeOnce(setup.hash, inline.resourceConfig.value);
    }
    if current.resourceConfig.Some? {
      ResourcesNormalizeOnce(setup.hash, current.resourceConfig.value);
    }
  }

  lemma InlineMergesToItself(setup: Setup, chatID: string, inline: InlineSetup)
    requires InlineSpec(setup, chatID, inline).Ok?
    ensures var spec := InlineSpec(setup, chatID, inline).value;
            && Normal(spec) && spec.sessionID == TrimSpace(chatID) && Mode(spec) == INLINE_MODE
            && MergedSpec(setup, spec.sessionID, spec, inline) == Ok(spec)
  {
    TrimSpaceTrims(chatID);
    TrimSpaceTrims(TrimSpace(chatID));
    TrimSpaceTrims(inline.providerID);
    TrimSpaceTrims(inline.executionClass);
    assert TrimSpace("") == "";
    ResourcesNormalizeOnce(setup.hash, inline.resourceConfig.value);
  }

  // ---------------------------------------------------------------- reading back a PUT

  lemma StoreChatReadsBack(namespace: string, world: World, created: SessionStore.Done, chatID: string,
                           displayName: string,
                           session: State, clock: Clock)
    requires ChatsInv(world.chats) && chatID != "" && Trimmed(chatID)
    requires StateReplied(created) == Ok(session) && session.spec.sessionID != "" && Trimmed(session.spec.sessionID)
    requires SessionStore.Get(namespace, created.store, session.spec.sessionID) == Ok(session)
    ensures var result := StoreChat(world, created, NewChat(chatID, "", displayName, session.spec.sessionID, clock),
                                    clock);
            result.reply.Ok? ==>
              ChatsInv(result.world.chats) && GetWithSession(namespace, result.world, chatID) == result.reply
              && result.reply.value.session == session && result.world.sessions == created.store
  {
    var sessionID := session.spec.sessionID;
    TrimSpaceTrims(chatID);
    TrimSpaceTrims(sessionID);
    StoringKeepsChats(world.chats, NewChat(chatID, "", displayName, sessionID, clock), clock.now, clock.dbNow);
    var result := StoreChat(world, created, NewChat(chatID, "", displayName, sessionID, clock), clock);
    if result.reply.Ok? {
      assert result.world.chats[chatID].chat.sessionID == sessionID;
    }
  }

  /** A chat created with a normal spec reads as it was answered. */
  lemma CreationReadsBack(namespace: string, world: World, rawID: string, displayName: string, spec: Spec, clock: Clock)
    requires ChatsInv(world.chats) && Normal(spec)
    ensures var result := CreateWithSession(namespace, world, rawID, "", displayName, Some(spec), clock);
            result.reply.Ok? ==>
              && ChatsInv(result.world.chats)
              && GetWithSession(namespace, result.world, rawID) == result.reply
              && result.reply.value.session.spec == spec
  {
    var chatID := TrimSpace(rawID);
    TrimSpaceTrims(rawID);
    TrimSpaceTrims(chatID);
    TrimSpaceTrims(spec.sessionID);
    NormalizeIsIdempotent(spec.sessionID, Some(spec));
    var created := SessionStore.Execute(namespace, world.sessions, SessionStore.Create(Some(spec)));
    if CreatedSpec(world.chats, chatID, Some(spec)).Ok? && created.reply.Ok? {
      CreateReadsBack(namespace, world.sessions, spec, created);
      StoreChatReadsBack(namespace, world, created, chatID, displayName, StateReplied(created).value, clock);
      SameRead(namespace, StoreChat(world, created, NewChat(chatID, "", displayName, spec.sessionID, clock),
                                    clock).world, rawID);
    }
  }

  lemma SameRead(namespace: string, world: World, rawID: string)
    ensures GetWithSession(namespace, world, TrimSpace(rawID)) == GetWithSession(namespace, world, rawID)
  {
    TrimSpaceTrims(rawID);
    TrimSpaceTrims(TrimSpace(rawID));
  }

  /** A setup with a normal spec is written once and then read back. */
  lemma SetupReadsBack(namespace: string, world: World, rawID: string, current: ChatReply, spec: Spec)
    requires ChatsInv(world.chats) && StoreInv(world.sessions) && GetWithSession(namespace, world, rawID) == Ok(current)
    requires Normal(spec) && spec.sessionID == current.chat.sessionID
    ensures var result := UpdateSetup(namespace, world, rawID, Some(spec));
            && result.reply.Ok? && result.reply.value.session.spec == spec && result.world.chats == world.chats
            && GetWithSession(namespace, result.world, rawID) == result.reply
    ensures current.session.spec == spec ==>
            UpdateSetup(namespace, world, rawID, Some(spec)) == Result(world, Ok(current))
  {
    GetWithSessionReads(namespace, world, rawID);
    NormalizeIsIdempotent(spec.sessionID, Some(spec));
    TrimSpaceTrims(spec.sessionID);
    if current.session.spec != spec {
      var done := SessionStore.Execute(namespace, world.sessions, SessionStore.Update(spec.sessionID, Some(spec)));
      UpdateReadsBack(namespace, world.sessions, spec, done);
    }
  }

  // ---------------------------------------------------------------- repeating a PUT

  /** Once a PUT's result reads back as an inline session that merges to itself, repeating it changes nothing. */
  lemma SettledPut(namespace: string, setup: Setup, world: World, chatID: string, put: PutChat, clock: Clock,
                   current: ChatReply)
    requires ChatsInv(world.chats) && StoreInv(world.sessions)
             && GetWithSession(namespace, world, chatID) == Ok(current)
    requires TrimSpace(put.mode) == INLINE_MODE && put.inline.Some? && TrimSpace(put.profileID) == ""
    requires var spec := current.session.spec;
             && Normal(spec) && spec.sessionID == current.chat.sessionID && Mode(spec) == INLINE_MODE
             && Selectable(setup, spec)
             && MergedSpec(setup, spec.sessionID, spec, put.inline.value) == Ok(spec)
    ensures Upsert(namespace, setup, world, chatID, put, clock) == Result(world, Ok(current))
  {
    GetWithSessionReads(namespace, world, chatID);
    SetupReadsBack(namespace, world, chatID, current, current.session.spec);
    SameSessionID(chatID, current.chat);
  }

  lemma SameSessionID(rawID: string, chat: Chat)
    requires chat.sessionID != "" && Trimmed(chat.sessionID)
    ensures CurrentSessionID(rawID, chat) == chat.sessionID
  {
    TrimSpaceTrims(chat.sessionID);
  }

  predicate InlinePut(put: PutChat) {
    TrimSpace(put.mode) == INLINE_MODE && put.inline.Some? && TrimSpace(put.profileID) == ""
  }

  /** The session setup an inline PUT writes, and which it would write again. */
  predicate Settled(setup: Setup, put: PutChat, reply: ChatReply)
    requires put.inline.Some?
  {
    var spec := reply.session.spec;
    && Normal(spec) && spec.sessionID == reply.chat.sessionID && Mode(spec) == INLINE_MODE && Selectable(setup, spec)
    && MergedSpec(setup, spec.sessionID, spec, put.inline.value) == Ok(spec)
  }

  /** An accepted inline PUT on an existing chat is the setup of the merged spec; any other writes nothing. */
  lemma InlineUpdateIsSetup(namespace: string, setup: Setup, world: World, chatID: string, put: PutChat, clock: Clock,
                            current: ChatReply)
    requires GetWithSession(namespace, world, chatID) == Ok(current) && InlinePut(put)
    ensures var merged := MergedSpec(setup, CurrentSessionID(chatID, current.chat), current.session.spec,
                                     put.inline.value);
            var result := Upsert(namespace, setup, world, chatID, put, clock);
            || (result.world == world && result.reply.Err?)
            || (Mode(current.session.spec) == INLINE_MODE && merged.Ok? && Selectable(setup, merged.value)
                && result == UpdateSetup(namespace, world, chatID, Some(merged.value)))
  {
  }

  lemma InlineUpdateSettles(namespace: string, setup: Setup, world: World, chatID: string, put: PutChat, clock: Clock,
                            current: ChatReply)
    requires ChatsInv(world.chats) && StoreInv(world.sessions)
             && GetWithSession(namespace, world, chatID) == Ok(current) && InlinePut(put)
    ensures var first := Upsert(namespace, setup, world, chatID, put, clock);
            first.reply.Ok? ==>
              && first.world.chats == world.chats
              && GetWithSession(namespace, first.world, chatID) == first.reply && Settled(setup, put, first.reply.value)
  {
    GetWithSessionReads(namespace, world, chatID);
    assert CleanChat(TrimSpace(chatID), world.chats[TrimSpace(chatID)]);
    var sessionID := current.chat.sessionID;
    SameSessionID(chatID, current.chat);
    InlineUpdateIsSetup(namespace, setup, world, chatID, put, clock, current);
    if Upsert(namespace, setup, world, chatID, put, clock).reply.Ok? {
      MergeIsIdempotent(setup, sessionID, current.session.spec, put.inline.value);
      var next := MergedSpec(setup, sessionID, current.session.spec, put.inline.value).value;
      SetupReadsBack(namespace, world, chatID, current, next);
      SetupKeepsChat(namespace, world, chatID, current, next);
    }
  }

  lemma SetupKeepsChat(namespace: string, world: World, rawID: string, current: ChatReply, spec: Spec)
    requires GetWithSession(namespace, world, rawID) == Ok(current)
    ensures var r := UpdateSetup(namespace, world, rawID, Some(spec));
            r.reply.Ok? ==>
              r.reply.value.chat == current.chat
  {
  }

  lemma InlineCreationSettles(namespace: string, setup: Setup, world: World, chatID: string, put: PutChat, clock: Clock)
    requires ChatsInv(world.chats) && GetWithSession(namespace, world, chatID) == Err(NotFound) && InlinePut(put)
    ensures var first := Upsert(namespace, setup, world, chatID, put, clock);
            first.reply.Ok? ==>
              && ChatsInv(first.world.chats)
              && GetWithSession(namespace, first.world, chatID) == first.reply && Settled(setup, put, first.reply.value)
  {
    var spec := InlineSpec(setup, chatID, put.inline.value);
    if spec.Ok? && Selectable(setup, spec.value) {
      InlineMergesToItself(setup, chatID, put.inline.value);
      CreationReadsBack(namespace, world, chatID, put.displayName, spec.value, clock);
      var first := CreateWithSession(namespace, world, chatID, "", put.displayName, Some(spec.value), clock);
      if first.reply.Ok? {
        CreatedSessionID(namespace, world, chatID, put.displayName, spec.value, clock);
      }
    }
  }

  lemma CreatedSessionID(namespace: string, world: World, rawID: string, displayName: string, spec: Spec, clock: Clock)
    requires Normal(spec) && CreateWithSession(namespace, world, rawID, "", displayName, Some(spec), clock).reply.Ok?
    ensures CreateWithSession(namespace, world, rawID, "", displayName, Some(spec), clock).reply.value.chat.sessionID
            == spec.sessionID
  {
    TrimSpaceTrims(spec.sessionID);
    NormalizeIsIdempotent(spec.sessionID, Some(spec));
  }

  /**
   * Repeating an inline PUT that was accepted changes nothing at all: no
   * generation moves, no event is written, and the answer is the same.
   */
  lemma RepeatedPutChangesNothing(namespace: string, setup: Setup, world: World, chatID: string, put: PutChat,
                                  clock: Clock, later: Clock)
    requires ChatsInv(world.chats) && StoreInv(world.sessions) && InlinePut(put)
    requires Upsert(namespace, setup, world, chatID, put, clock).reply.Ok?
    ensures var first := Upsert(namespace, setup, world, chatID, put, clock);
            Upsert(namespace, setup, first.world, chatID, put, later) == first
  {
    var first := Upsert(namespace, setup, world, chatID, put, clock);
    var found := GetWithSession(namespace, world, chatID);
    PutIsLinkStep(namespace, setup, world, chatID, put, clock, first.world);
    if found.Ok? {
      InlineUpdateSettles(namespace, setup, world, chatID, put, clock, found.value);
    } else {
      InlineCreationSettles(namespace, setup, world, chatID, put, clock);
    }
    SettledPut(namespace, setup, first.world, chatID, put, later, first.reply.value);
  }

  // ---------------------------------------------------------------- identity

  /** What a session is for its whole life, up to surrounding white space. */
  datatype Identity = Identity(
    mode: string, profileID: string, providerID: string, executionClass: string, workspaceRef: string,
      homeStateRef: string)

  function IdentityOf(spec: Spec): Identity {
    Identity(Mode(spec), TrimSpace(spec.profileID), TrimSpace(spec.providerID), TrimSpace(spec.executionClass),
             WorkspaceRefOf(spec.sessionID, spec), HomeStateRefOf(spec.sessionID, spec))
  }

  lemma MergeKeepsIdentity(setup: Setup, sessionID: string, current: Spec, inline: InlineSetup)
    requires current.sessionID == sessionID && Trimmed(sessionID) && Mode(current) == INLINE_MODE
    requires MergedSpec(setup, sessionID, current, inline).Ok?
    ensures IdentityOf(MergedSpec(setup, sessionID, current, inline).value) == IdentityOf(current)
  {
    TrimSpaceTrims(current.providerID);
    TrimSpaceTrims(current.executionClass);
    TrimSpaceTrims(sessionID);
    assert TrimSpace("") == "";
  }

  /** What a session's spec is in a store. */
  function SpecIn(store: SessionStore.Store, id: string): Option<Spec> {
    if id in store.rows then store.rows[id].payload.session else None
  }

  predicate KeepsIdentity(before: SessionStore.Store, after: SessionStore.Store, id: string) {
    && SpecIn(before, id).Some? && SpecIn(after, id).Some?
    && IdentityOf(SpecIn(after, id).value) == IdentityOf(SpecIn(before, id).value)
  }

  lemma SpecExists(store: SessionStore.Store, id: string)
    requires StoreInv(store) && id in store.rows
    ensures SpecIn(store, id).Some? && SpecIn(store, id).value.sessionID == id
  {
    assert PayloadOk(id, store.rows[id]);
  }

  lemma CreationKeepsSpecs(namespace: string, store: SessionStore.Store, call: SessionStore.Call, id: string)
    requires call.Create? && id in store.rows
    ensures SpecIn(SessionStore.Execute(namespace, store, call).store, id) == SpecIn(store, id)
  {
  }

  /** Status updates, claims and releases leave the spec of their row alone. */
  lemma StatusEffectKeepsSession(namespace: string, row: SessionStore.Row, call: SessionStore.Call)
    requires !call.Create? && !call.Update? && SessionStore.EarlyReply(call).None?
    ensures var effect := SessionStore.RowEffect(namespace, row, call);
            effect.Rewritten? ==> effect.row.payload.session == row.payload.session
  {
  }

  lemma StatusCallKeepsSpecs(namespace: string, store: SessionStore.Store, call: SessionStore.Call, id: string)
    requires !call.Create? && !call.Update? && id in store.rows
    ensures SpecIn(SessionStore.Execute(namespace, store, call).store, id) == SpecIn(store, id)
  {
    if SessionStore.EarlyReply(call).None? && SessionStore.Named(call) == id {
      SessionStore.RowEffectAnnounces(namespace, store.rows[id], call);
      StatusEffectKeepsSession(namespace, store.rows[id], call);
    }
  }

  /** A PUT on an existing inline chat changes its session only to a spec of the same identity. */
  lemma InlineUpdateKeepsIdentity(namespace: string, setup: Setup, world: World, chatID: string, put: PutChat,
                                  clock: Clock,
                                  current: ChatReply, after: World, id: string)
    requires ChatsInv(world.chats) && StoreInv(world.sessions)
             && GetWithSession(namespace, world, chatID) == Ok(current) && InlinePut(put)
    requires after == Upsert(namespace, setup, world, chatID, put, clock).world && id in world.sessions.rows
    ensures KeepsIdentity(world.sessions, after.sessions, id)
  {
    GetWithSessionReads(namespace, world, chatID);
    assert CleanChat(TrimSpace(chatID), world.chats[TrimSpace(chatID)]);
    SpecExists(world.sessions, id);
    var sessionID := current.chat.sessionID;
    SameSessionID(chatID, current.chat);
    InlineUpdateIsSetup(namespace, setup, world, chatID, put, clock, current);
    if after != world {
      MergeIsIdempotent(setup, sessionID, current.session.spec, put.inline.value);
      var next := MergedSpec(setup, sessionID, current.session.spec, put.inline.value).value;
      SetupWritesSpec(namespace, world, chatID, current, next, after, id);
      if id == sessionID {
        GetReadsRow(namespace, world.sessions, id);
        MergeKeepsIdentity(setup, sessionID, current.session.spec, put.inline.value);
      }
    }
  }

  lemma SetupWritesSpec(namespace: string, world: World, rawID: string, current: ChatReply, spec: Spec, after: World,
                        id: string)
    requires ChatsInv(world.chats) && StoreInv(world.sessions) && GetWithSession(namespace, world, rawID) == Ok(current)
    requires Normal(spec) && spec.sessionID == current.chat.sessionID && spec.sessionID in world.sessions.rows
    requires after == UpdateSetup(namespace, world, rawID, Some(spec)).world && id in world.sessions.rows
    ensures SpecIn(after.sessions, id) == if id == spec.sessionID then Some(spec) else SpecIn(world.sessions, id)
  {
    GetWithSessionReads(namespace, world, rawID);
    GetReadsRow(namespace, world.sessions, spec.sessionID);
    NormalizeIsIdempotent(spec.sessionID, Some(spec));
    TrimSpaceTrims(spec.sessionID);
    if current.session.spec != spec {
      var done := SessionStore.Execute(namespace, world.sessions, SessionStore.Update(spec.sessionID, Some(spec)));
      UpdateReadsBack(namespace, world.sessions, spec, done);
      CallKeepsInv(namespace, world.sessions, SessionStore.Update(spec.sessionID, Some(spec)));
      GetReadsRow(namespace, done.store, spec.sessionID);
    }
  }

  lemma CreationWrites(namespace: string, world: World, rawID: string, scopeID: string, displayName: string,
                       session: Option<Spec>, clock: Clock, after: World)
    requires after == CreateWithSession(namespace, world, rawID, scopeID, displayName, session, clock).world
    ensures after.sessions == world.sessions
            || exists spec ::
                 after.sessions
                 == SessionStore.Execute(namespace, world.sessions, SessionStore.Create(Some(spec))).store
  {
  }

  lemma CreationKeepsIdentity(namespace: string, world: World, rawID: string, scopeID: string, displayName: string,
                              session: Option<Spec>, clock: Clock, after: World, id: string)
    requires StoreInv(world.sessions) && id in world.sessions.rows
    requires after == CreateWithSession(namespace, world, rawID, scopeID, displayName, session, clock).world
    ensures KeepsIdentity(world.sessions, after.sessions, id)
  {
    SpecExists(world.sessions, id);
    CreationWrites(namespace, world, rawID, scopeID, displayName, session, clock, after);
    if spec :|
      after.sessions == SessionStore.Execute(namespace, world.sessions, SessionStore.Create(Some(spec))).store {
      CreationKeepsSpecs(namespace, world.sessions, SessionStore.Create(Some(spec)), id);
    }
  }

  /** A PUT on an existing chat that is not an inline one writes nothing. */
  lemma OtherPutsWriteNothing(namespace: string, setup: Setup, world: World, chatID: string, put: PutChat, clock: Clock)
    requires GetWithSession(namespace, world, chatID).Ok? && !InlinePut(put)
    ensures Upsert(namespace, setup, world, chatID, put, clock).world == world
  {
  }

  /** A PUT on an unknown chat creates it or writes nothing. */
  lemma UnknownChatPutDoes(namespace: string, setup: Setup, world: World, chatID: string, put: PutChat, clock: Clock,
                           after: World)
    requires GetWithSession(namespace, world, chatID).Err?
             && after == Upsert(namespace, setup, world, chatID, put, clock).world
    ensures after == world || exists spec ::
            after == CreateWithSession(namespace, world, chatID, "", put.displayName, Some(spec), clock).world
  {
  }

  lemma PutKeepsIdentity(namespace: string, setup: Setup, world: World, chatID: string, put: PutChat, clock: Clock,
                         after: World, id: string)
    requires ChatsInv(world.chats) && StoreInv(world.sessions) && id in world.sessions.rows
    requires after == Upsert(namespace, setup, world, chatID, put, clock).world
    ensures KeepsIdentity(world.sessions, after.sessions, id)
  {
    SpecExists(world.sessions, id);
    var found := GetWithSession(namespace, world, chatID);
    if found.Err? {
      UnknownChatPutDoes(namespace, setup, world, chatID, put, clock, after);
      if spec :| after == CreateWithSession(namespace, world, chatID, "", put.displayName, Some(spec), clock).world {
        CreationKeepsIdentity(namespace, world, chatID, "", put.displayName, Some(spec), clock, after, id);
      }
    } else if InlinePut(put) {
      InlineUpdateKeepsIdentity(namespace, setup, world, chatID, put, clock, found.value, after, id);
    } else {
      OtherPutsWriteNothing(namespace, setup, world, chatID, put, clock);
    }
  }

  /** Calls other than direct spec updates: PUTs, creations, renames and status calls. */
  predicate SetsUpByPut(call: WorldCall) {
    Allowed(call) && !call.SetupCall? && (call.SessionCall? ==> !call.call.Update?)
  }

  lemma CallKeepsIdentity(namespace: string, setup: Setup, world: World, call: WorldCall, after: World, id: string)
    requires ChatsInv(world.chats) && StoreInv(world.sessions) && id in world.sessions.rows && SetsUpByPut(call)
    requires after == Perform(namespace, setup, world, call)
    ensures KeepsIdentity(world.sessions, after.sessions, id)
  {
    SpecExists(world.sessions, id);
    match call
    case CreateCall(chatID, scopeID, displayName, session, clock) =>
      CreationKeepsIdentity(namespace, world, chatID, scopeID, displayName, session, clock, after, id);
    case PutCall(chatID, put, clock) => PutKeepsIdentity(namespace, setup, world, chatID, put, clock, after, id);
    case RenameCall(chatID, displayName, clock) => RenameIsLinkStep(namespace, world, chatID, displayName, clock,
                                                                    after);
    case SessionCall(inner) => StatusCallKeepsSpecs(namespace, world.sessions, inner, id);
  }

  /**
   * Over any PUTs, creations, renames and status calls, a session keeps its
   * mode, profile, provider, execution class, workspace and home state.
   */
  lemma {:induction false} IdentityNeverChanges(namespace: string, setup: Setup, world: World, calls: seq<WorldCall>,
                                                id: string)
    requires WorldInv(world) && id in world.sessions.rows && forall call <- calls :: SetsUpByPut(call)
    ensures KeepsIdentity(world.sessions, PerformAll(namespace, setup, world, calls).sessions, id)
  {
    if calls == [] {
      SpecExists(world.sessions, id);
    } else {
      var n := |calls| - 1;
      IdentityNeverChanges(namespace, setup, world, calls[..n], id);
      RunKeepsWorld(namespace, setup, world, calls[..n]);
      var before := PerformAll(namespace, setup, world, calls[..n]);
      CallKeepsIdentity(namespace, setup, before, calls[n], Perform(namespace, setup, before, calls[n]), id);
    }
  }
}
