/** Chats and sessions stay in one-to-one correspondence over any calls. */
module ChatLinks {
  import opened Text
  import opened SessionTypes
  import opened SessionResource
  import SessionStore
  import opened SessionRuns
  import opened ChatStore
  import opened ChatSetup

  /** Which session each chat has. */
  function Links(world: World): map<string, string> { map id | id in world.chats :: world.chats[id].chat.sessionID }

  /** Every chat's session exists, no two chats share one, and none is without a chat. */
  ghost predicate OneToOne(links: map<string, string>, sessions: set<string>) {
    && (forall id <- links :: links[id] in sessions)
    && (forall a <- links, b <- links :: links[a] == links[b] ==> a == b)
    && (forall s <- sessions :: exists id <- links :: links[id] == s)
  }

  ghost predicate WorldInv(world: World) {
    StoreInv(world.sessions) && ChatsInv(world.chats) && OneToOne(Links(world), world.sessions.rows.Keys)
  }

  const EMPTY_WORLD := World(SessionStore.EMPTY_STORE, map[])

  /** What a call does to the correspondence: nothing, or one new chat with one new session. */
  ghost predicate LinkStep(before: World, after: World) {
    || (Links(after) == Links(before) && after.sessions.rows.Keys == before.sessions.rows.Keys)
    || exists id, s :: Fresh(before, after, id, s)
  }

  predicate Fresh(before: World, after: World, id: string, s: string) {
    && id !in before.chats && s !in before.sessions.rows
    && Links(after) == Links(before)[id := s] && after.sessions.rows.Keys == before.sessions.rows.Keys + {s}
  }

  lemma FreshKeepsOneToOne(links: map<string, string>, sessions: set<string>, id: string, s: string)
    requires OneToOne(links, sessions) && id !in links && s !in sessions
    ensures OneToOne(links[id := s], sessions + {s})
  {
    var more := links[id := s];
    forall t <- sessions + {s} ensures exists i <- more :: more[i] == t {
      if t == s {
        assert more[id] == s;
      } else {
        var i :| i in links && links[i] == t;
        assert i != id && more[i] == t;
      }
    }
  }

  lemma LinkStepKeepsOneToOne(before: World, after: World)
    requires OneToOne(Links(before), before.sessions.rows.Keys) && LinkStep(before, after)
    ensures OneToOne(Links(after), after.sessions.rows.Keys)
    ensures forall id <- Links(before) :: id in Links(after) && Links(after)[id] == Links(before)[id]
  {
    if !(Links(after) == Links(before) && after.sessions.rows.Keys == before.sessions.rows.Keys) {
      var id, s :| Fresh(before, after, id, s);
      FreshKeepsOneToOne(Links(before), before.sessions.rows.Keys, id, s);
    }
  }

  // ---------------------------------------------------------------- the calls

  lemma SessionCallKeepsKeys(namespace: string, store: SessionStore.Store, call: SessionStore.Call)
    requires !call.Create?
    ensures SessionStore.Execute(namespace, store, call).store.rows.Keys == store.rows.Keys
  {
  }

  lemma CreateAddsSession(namespace: string, store: SessionStore.Store, spec: Spec, s: string)
    requires s == spec.sessionID && s != "" && Trimmed(s)
    requires SessionStore.Execute(namespace, store, SessionStore.Create(Some(spec))).reply.Ok?
    ensures s !in store.rows
    ensures SessionStore.Execute(namespace, store, SessionStore.Create(Some(spec))).store.rows.Keys
            == store.rows.Keys + {s}
  {
    TrimSpaceTrims(s);
  }

  lemma CreateAddsChat(chats: Chats, chatID: string, scopeID: string, displayName: string, sessionID: string,
                       clock: Clock)
    requires ChatsInv(chats) && chatID != "" && Trimmed(chatID) && sessionID != "" && Trimmed(sessionID)
    ensures var stored := CreateChat(chats, NewChat(chatID, scopeID, displayName, sessionID, clock), clock.now,
                                     clock.dbNow);
            stored.reply.Ok? ==>
              && chatID !in chats && chatID in stored.chats && stored.chats == chats[chatID := stored.chats[chatID]]
              && stored.chats[chatID].chat.sessionID == sessionID && ChatsInv(stored.chats)
  {
    TrimSpaceTrims(chatID);
    TrimSpaceTrims(sessionID);
    StoringKeepsChats(chats, NewChat(chatID, scopeID, displayName, sessionID, clock), clock.now, clock.dbNow);
  }

  lemma StoreIsLinkStep(world: World, created: SessionStore.Done, chatID: string, scopeID: string, displayName: string,
                        sessionID: string, clock: Clock, after: World)
    requires ChatsInv(world.chats)
    requires chatID != "" && Trimmed(chatID) && sessionID != "" && Trimmed(sessionID)
    requires created.reply.Ok? ==>
             sessionID !in world.sessions.rows && created.store.rows.Keys == world.sessions.rows.Keys + {sessionID}
    requires after == StoreChat(world, created, NewChat(chatID, scopeID, displayName, sessionID, clock), clock).world
    ensures LinkStep(world, after) && ChatsInv(after.chats)
            && (after.sessions == world.sessions || after.sessions == created.store)
  {
    if after != world {
      CreateAddsChat(world.chats, chatID, scopeID, displayName, sessionID, clock);
      assert Links(after) == Links(world)[chatID := sessionID];
      assert Fresh(world, after, chatID, sessionID);
    }
  }

  lemma CreatedSpecIsClean(chats: Chats, chatID: string, session: Option<Spec>)
    requires CreatedSpec(chats, chatID, session).Ok?
    ensures chatID != "" && CreatedSpec(chats, chatID, session).value.sessionID != ""
            && Trimmed(CreatedSpec(chats, chatID, session).value.sessionID)
  {
    NormalizedSpec(FirstNonEmpty([SessionIDOf(session), chatID]), session);
  }

  lemma CreateIsLinkStep(namespace: string, world: World, rawID: string, scopeID: string, displayName: string,
                         session: Option<Spec>, clock: Clock, after: World)
    requires ChatsInv(world.chats) && StoreInv(world.sessions)
    requires after == CreateWithSession(namespace, world, rawID, scopeID, displayName, session, clock).world
    ensures LinkStep(world, after) && StoreInv(after.sessions) && ChatsInv(after.chats)
  {
    var chatID := TrimSpace(rawID);
    TrimSpaceTrims(rawID);
    var spec := CreatedSpec(world.chats, chatID, session);
    if spec.Ok? {
      CreatedSpecIsClean(world.chats, chatID, session);
      var call := SessionStore.Create(Some(spec.value));
      var created := SessionStore.Execute(namespace, world.sessions, call);
      CallKeepsInv(namespace, world.sessions, call);
      if created.reply.Ok? {
        CreateAddsSession(namespace, world.sessions, spec.value, spec.value.sessionID);
      }
      StoreIsLinkStep(world, created, chatID, scopeID, displayName, spec.value.sessionID, clock, after);
    }
  }

  lemma WriteKeepsLinks(namespace: string, world: World, current: ChatReply, sessionID: string, spec: Spec,
                        after: World)
    requires after == WriteSpec(namespace, world, current, sessionID, spec).world
    ensures after.chats == world.chats && after.sessions.rows.Keys == world.sessions.rows.Keys
    ensures after.sessions == world.sessions
            || after.sessions == SessionStore.Execute(namespace, world.sessions,
                                                      SessionStore.Update(sessionID, Some(spec))).store
  {
    SessionCallKeepsKeys(namespace, world.sessions, SessionStore.Update(sessionID, Some(spec)));
  }

  lemma SetupIsLinkStep(namespace: string, world: World, rawID: string, session: Option<Spec>, after: World)
    requires StoreInv(world.sessions) && after == UpdateSetup(namespace, world, rawID, session).world
    ensures LinkStep(world, after) && StoreInv(after.sessions) && after.chats == world.chats
  {
    var current := GetWithSession(namespace, world, rawID);
    if current.Ok? {
      var sessionID := CurrentSessionID(TrimSpace(rawID), current.value.chat);
      var spec := NormalizeSpec(sessionID, session);
      if spec.Ok? {
        WriteKeepsLinks(namespace, world, current.value, sessionID, spec.value, after);
        CallKeepsInv(namespace, world.sessions, SessionStore.Update(sessionID, Some(spec.value)));
      }
    }
  }

  lemma RenameKeepsLinks(chats: Chats, id: string, displayName: string, clock: Clock, after: Chats)
    requires ChatsInv(chats) && Trimmed(id) && after == RenameStored(chats, id, displayName, clock).chats
    ensures ChatsInv(after) && after.Keys == chats.Keys
    ensures forall i <- chats :: after[i].chat.sessionID == chats[i].chat.sessionID
  {
    if id in chats {
      var current := chats[id].chat;
      assert CleanChat(id, chats[id]);
      TrimSpaceTrims(id);
      TrimSpaceTrims(current.sessionID);
      StoringKeepsChats(chats, current.(displayName := displayName), clock.now, clock.dbNow);
    }
    TrimSpaceTrims(id);
  }

  lemma RenameIsLinkStep(namespace: string, world: World, rawID: string, displayName: string, clock: Clock,
                         after: World)
    requires ChatsInv(world.chats) && after == Rename(namespace, world, rawID, displayName, clock).world
    ensures LinkStep(world, after) && after.sessions == world.sessions && ChatsInv(after.chats)
  {
    TrimSpaceTrims(rawID);
    RenameKeepsLinks(world.chats, TrimSpace(rawID), TrimSpace(displayName), clock, after.chats);
    assert Links(after) == Links(world);
  }

  /** A PUT changes the world as one creation, one setup change, or not at all. */
  lemma PutDoes(namespace: string, setup: Setup, world: World, chatID: string, put: PutChat, clock: Clock, after: World)
    requires after == Upsert(namespace, setup, world, chatID, put, clock).world
    ensures || after == world
            || (exists spec ::
                  after == CreateWithSession(namespace, world, chatID, "", put.displayName, Some(spec), clock).world)
            || (exists spec :: after == UpdateSetup(namespace, world, chatID, Some(spec)).world)
  {
  }

  lemma PutIsLinkStep(namespace: string, setup: Setup, world: World, chatID: string, put: PutChat, clock: Clock,
                      after: World)
    requires ChatsInv(world.chats) && StoreInv(world.sessions)
             && after == Upsert(namespace, setup, world, chatID, put, clock).world
    ensures LinkStep(world, after) && StoreInv(after.sessions) && ChatsInv(after.chats)
  {
    PutDoes(namespace, setup, world, chatID, put, clock, after);
    if spec :| after == CreateWithSession(namespace, world, chatID, "", put.displayName, Some(spec), clock).world {
      CreateIsLinkStep(namespace, world, chatID, "", put.displayName, Some(spec), clock, after);
    } else if spec :| after == UpdateSetup(namespace, world, chatID, Some(spec)).world {
      SetupIsLinkStep(namespace, world, chatID, Some(spec), after);
    }
  }

  lemma SessionCallIsLinkStep(namespace: string, world: World, call: SessionStore.Call, after: World)
    requires StoreInv(world.sessions) && !call.Create?
    requires after == world.(sessions := SessionStore.Execute(namespace, world.sessions, call).store)
    ensures LinkStep(world, after) && StoreInv(after.sessions)
  {
    CallKeepsInv(namespace, world.sessions, call);
    SessionCallKeepsKeys(namespace, world.sessions, call);
  }

  lemma CallIsLinkStep(namespace: string, setup: Setup, world: World, call: WorldCall, after: World)
    requires ChatsInv(world.chats) && StoreInv(world.sessions) && Allowed(call)
             && after == Perform(namespace, setup, world, call)
    ensures LinkStep(world, after) && StoreInv(after.sessions) && ChatsInv(after.chats)
  {
    match call
    case CreateCall(chatID, scopeID, displayName, session, clock) =>
      CreateIsLinkStep(namespace, world, chatID, scopeID, displayName, session, clock, after);
    case SetupCall(chatID, session) => SetupIsLinkStep(namespace, world, chatID, session, after);
    case RenameCall(chatID, displayName, clock) => RenameIsLinkStep(namespace, world, chatID, displayName, clock,
                                                                    after);
    case PutCall(chatID, put, clock) => PutIsLinkStep(namespace, setup, world, chatID, put, clock, after);
    case SessionCall(inner) => SessionCallIsLinkStep(namespace, world, inner, after);
  }

  lemma CallKeepsWorld(namespace: string, setup: Setup, world: World, call: WorldCall, after: World)
    requires WorldInv(world) && Allowed(call) && after == Perform(namespace, setup, world, call)
    ensures WorldInv(after)
    ensures forall id <- Links(world) :: id in Links(after) && Links(after)[id] == Links(world)[id]
  {
    CallIsLinkStep(namespace, setup, world, call, after);
    LinkStepKeepsOneToOne(world, after);
  }

  // ---------------------------------------------------------------- whole runs

  lemma {:induction false} RunKeepsWorld(namespace: string, setup: Setup, world: World, calls: seq<WorldCall>)
    requires WorldInv(world) && forall call <- calls :: Allowed(call)
    ensures WorldInv(PerformAll(namespace, setup, world, calls))
    ensures forall id <- Links(world) ::
              id in Links(PerformAll(namespace, setup, world, calls))
                && Links(PerformAll(namespace, setup, world, calls))[id] == Links(world)[id]
  {
    if calls != [] {
      var n := |calls| - 1;
      RunKeepsWorld(namespace, setup, world, calls[..n]);
      var before := PerformAll(namespace, setup, world, calls[..n]);
      CallKeepsWorld(namespace, setup, before, calls[n], Perform(namespace, setup, before, calls[n]));
    }
  }

  /**
   * After any creations, setups, renames, PUTs and session calls: every chat's
   * session exists, distinct chats have distinct sessions, and every session
   * belongs to a chat. A chat keeps its session for good (RunKeepsWorld).
   */
  lemma ChatsAndSessionsCorrespond(namespace: string, setup: Setup, calls: seq<WorldCall>)
    requires forall call <- calls :: Allowed(call)
    ensures var world := PerformAll(namespace, setup, EMPTY_WORLD, calls);
            && (forall id <- world.chats :: world.chats[id].chat.sessionID in world.sessions.rows)
            && (forall a <- world.chats, b <- world.chats :: a != b ==>
                world.chats[a].chat.sessionID != world.chats[b].chat.sessionID)
            && (forall s <- world.sessions.rows :: exists id <- world.chats :: world.chats[id].chat.sessionID == s)
  {
    RunKeepsWorld(namespace, setup, EMPTY_WORLD, calls);
    var world := PerformAll(namespace, setup, EMPTY_WORLD, calls);
    forall a <- world.chats, b <- world.chats | a != b
      ensures world.chats[a].chat.sessionID != world.chats[b].chat.sessionID {
      assert Links(world)[a] != Links(world)[b];
    }
    forall s <- world.sessions.rows ensures exists id <- world.chats :: world.chats[id].chat.sessionID == s {
      var id :| id in Links(world) && Links(world)[id] == s;
    }
    forall id <- world.chats ensures world.chats[id].chat.sessionID in world.sessions.rows {
      assert Links(world)[id] in world.sessions.rows.Keys;
    }
  }
}
