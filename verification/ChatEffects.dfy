/** What accepted chat calls leave behind. */
module ChatEffects {
  import opened Text
  import opened SessionTypes
  import opened SessionRuns
  import opened ChatStore
  import opened ChatSetup
  import opened ChatPuts

  /** A config the request carries replaces the session's; one it leaves out stays. */
  predicate Takes<T(==)>(before: Option<T>, asked: Body<T>, after: Option<T>) {
    if asked.Decoded? then after == Some(asked.value) else after == before
  }

  function Without(config: Option<Resources>): Option<Resources> {
    if config.None? then None else Some(config.value.(snapshotID := ""))
  }

  function AskedWithout(asked: Body<Resources>): Body<Resources> {
    if asked.Decoded? then Decoded(asked.value.(snapshotID := "")) else asked
  }

  predicate TakesEffect(before: Spec, inline: InlineSetup, after: Spec) {
    && Takes(before.runtimeConfig, inline.runtimeConfig, after.runtimeConfig)
    && Takes(Without(before.resourceConfig), AskedWithout(inline.resourceConfig), Without(after.resourceConfig))
    && after.prepareJobs == before.prepareJobs
  }

  lemma MergeTakesEffect(setup: Setup, sessionID: string, current: Spec, inline: InlineSetup)
    requires MergedSpec(setup, sessionID, current, inline).Ok?
    ensures TakesEffect(current, inline, MergedSpec(setup, sessionID, current, inline).value)
  {
  }

  /** An accepted PUT on an existing inline chat puts the configs it carries into effect and keeps the rest. */
  lemma InlinePutTakesEffect(namespace: string, setup: Setup, world: World, chatID: string, put: PutChat, clock: Clock,
                             current: ChatReply, reply: ChatReply)
    requires ChatsInv(world.chats) && StoreInv(world.sessions)
             && GetWithSession(namespace, world, chatID) == Ok(current) && InlinePut(put)
    requires Upsert(namespace, setup, world, chatID, put, clock).reply == Ok(reply)
    ensures TakesEffect(current.session.spec, put.inline.value, reply.session.spec) && reply.chat == current.chat
  {
    GetWithSessionReads(namespace, world, chatID);
    assert CleanChat(TrimSpace(chatID), world.chats[TrimSpace(chatID)]);
    var sessionID, before := current.chat.sessionID, current.session.spec;
    SameSessionID(chatID, current.chat);
    InlineUpdateIsSetup(namespace, setup, world, chatID, put, clock, current);
    var next := MergedSpec(setup, sessionID, before, put.inline.value).value;
    MergeIsIdempotent(setup, sessionID, before, put.inline.value);
    MergeTakesEffect(setup, sessionID, before, put.inline.value);
    SetupReadsBack(namespace, world, chatID, current, next);
    SetupKeepsChat(namespace, world, chatID, current, next);
  }

  /** A new chat has the scope and name asked for, trimmed, and the default scope if none was. */
  lemma CreationStores(namespace: string, world: World, rawID: string, scopeID: string, displayName: string,
                       session: Option<Spec>, clock: Clock, reply: ChatReply)
    requires CreateWithSession(namespace, world, rawID, scopeID, displayName, session, clock).reply == Ok(reply)
    ensures var after, id := CreateWithSession(namespace, world, rawID, scopeID, displayName, session, clock).world,
            TrimSpace(rawID);
            && id !in world.chats && after.chats.Keys == world.chats.Keys + {id}
            && after.chats[id] == ChatRow(reply.chat, clock.dbNow)
            && reply.chat.chatID == id && reply.chat.displayName == TrimSpace(displayName)
            && reply.chat.scopeID == (if TrimSpace(scopeID) == "" then DEFAULT_SCOPE else TrimSpace(scopeID))
            && reply.chat.createdAt == reply.chat.updatedAt == clock.now
  {
    TrimSpaceTrims(rawID);
    TrimSpaceTrims(displayName);
    TrimSpaceTrims(scopeID);
    ScopeOrDefault(TrimSpace(scopeID));
    ScopeOrDefault(FirstNonEmpty([TrimSpace(scopeID), DEFAULT_SCOPE]));
  }

  lemma ScopeOrDefault(scope: string)
    requires TrimSpace(scope) == scope
    ensures FirstNonEmpty([scope, DEFAULT_SCOPE]) == if scope == "" then DEFAULT_SCOPE else scope
    ensures TrimSpace(DEFAULT_SCOPE) == DEFAULT_SCOPE
  {
    TrimSpaceTrims(DEFAULT_SCOPE);
    FirstOfTwo(scope, DEFAULT_SCOPE);
  }

  /** A rename changes the name and the update times of its chat, and nothing else. */
  lemma RenameStores(namespace: string, world: World, rawID: string, displayName: string, clock: Clock,
                     reply: ChatReply)
    requires ChatsInv(world.chats) && Rename(namespace, world, rawID, displayName, clock).reply == Ok(reply)
    ensures var after, id := Rename(namespace, world, rawID, displayName, clock).world, TrimSpace(rawID);
            && id in world.chats && after.sessions == world.sessions
            && reply.chat == world.chats[id].chat.(displayName := TrimSpace(displayName), updatedAt := clock.now)
            && after.chats == world.chats[id := ChatRow(reply.chat, clock.dbNow)]
  {
    var id := TrimSpace(rawID);
    TrimSpaceTrims(rawID);
    TrimSpaceTrims(displayName);
    if id in world.chats {
      var chat := world.chats[id].chat;
      assert CleanChat(id, world.chats[id]);
      TrimSpaceTrims(chat.scopeID);
      TrimSpaceTrims(chat.sessionID);
      FirstOfTwo(chat.scopeID, DEFAULT_SCOPE);
      FirstOfTwo(chat.sessionID, id);
    }
  }
}
