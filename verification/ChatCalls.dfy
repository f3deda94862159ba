/**
 * When each chat call succeeds, with which code it is refused otherwise, and
 * what it leaves in the two tables: told from its arguments and the tables.
 */
module ChatCalls {
  import opened Text
  import opened SessionTypes
  import SessionStore
  import opened SessionCalls
  import opened ChatStore
  import opened ChatSetup

  /** The chat is stored, and so is its session. */
  predicate IsWhole(world: World, id: string) {
    id != "" && id in world.chats && world.chats[id].chat.sessionID in world.sessions.rows
  }

  lemma OwnSession(id: string, row: ChatRow)
    requires CleanChat(id, row)
    ensures CurrentSessionID(id, row.chat) == row.chat.sessionID && TrimSpace(row.chat.sessionID) == row.chat.sessionID
    ensures TrimSpace(id) == id
  {
    TrimSpaceTrims(row.chat.sessionID);
    TrimSpaceTrims(id);
    FirstOfTwo(row.chat.sessionID, id);
  }

  /** A chat is read with its session, under its trimmed id, if and only if both are stored. */
  lemma GetChatIff(namespace: string, world: World, rawID: string)
    requires ChatsInv(world.chats) && RowsOk(world.sessions)
    ensures var id, r := TrimSpace(rawID), GetWithSession(namespace, world, rawID);
            && (r.Ok? <==> IsWhole(world, id))
            && (r.Err? ==> r.code == if id == "" then InvalidArgument else NotFound)
            && (r.Ok? ==>
                  && r.value.chat == world.chats[id].chat
                  && Ok(r.value.session) == SessionStore.Get(namespace, world.sessions, world.chats[id].chat.sessionID))
  {
    var id := TrimSpace(rawID);
    if id in world.chats {
      OwnSession(id, world.chats[id]);
      GetIff(namespace, world.sessions, world.chats[id].chat.sessionID);
    }
  }

  // ---------------------------------------------------------------- creating

  /** The session of a new chat: the one the given spec names, or else one of the chat's own id. */
  function SessionFor(chatID: string, session: Spec): string {
    if TrimSpace(session.sessionID) != "" then TrimSpace(session.sessionID) else chatID
  }

  predicate CanCreate(world: World, chatID: string, session: Option<Spec>) {
    && chatID != "" && chatID !in world.chats && session.Some?
    && SessionFor(chatID, session.value) !in world.sessions.rows
  }

  function CreateRefusal(world: World, chatID: string, session: Option<Spec>): Code {
    if chatID == "" then InvalidArgument
    else if chatID in world.chats then AlreadyExists
    else if session.None? then InvalidArgument
    else AlreadyExists
  }

  lemma CreatedSpecIff(chats: Chats, chatID: string, session: Option<Spec>)
    requires Trimmed(chatID)
    ensures var r := CreatedSpec(chats, chatID, session);
            && (r.Ok? <==> chatID != "" && chatID !in chats && session.Some?)
            && (r.Ok? ==>
                  && r.value == Filled(session.value, SessionFor(chatID, session.value))
                  && r.value.sessionID != "" && Trimmed(r.value.sessionID))
            && (r.Err? ==> r.code == if chatID != "" && chatID in chats then AlreadyExists else InvalidArgument)
  {
    TrimSpaceTrims(chatID);
    FirstOfTwo(SessionIDOf(session), chatID);
    NormalizesTo(FirstNonEmpty([SessionIDOf(session), chatID]), session);
    if session.Some? {
      TrimSpaceTrims(session.value.sessionID);
    }
  }

  lemma NewChatIsKept(chats: Chats, chatID: string, scopeID: string, displayName: string, sessionID: string,
                      clock: Clock)
    requires chatID != "" && Trimmed(chatID) && chatID !in chats && sessionID != "" && Trimmed(sessionID)
    ensures var chat := Chat(chatID, if TrimSpace(scopeID) == "" then "default" else TrimSpace(scopeID),
                             TrimSpace(displayName), sessionID, clock.now, clock.now);
            CreateChat(chats, NewChat(chatID, scopeID, displayName, sessionID, clock), clock.now, clock.dbNow)
            == Stored(chats[chatID := ChatRow(chat, clock.dbNow)], Ok(chat))
  {
    TrimSpaceTrims(chatID);
    TrimSpaceTrims(sessionID);
    TrimSpaceTrims(displayName);
    TrimSpaceTrims(scopeID);
    TrimSpaceTrims("default");
    FirstOfTwo(TrimSpace(scopeID), "default");
    FirstOfTwo(FirstNonEmpty([TrimSpace(scopeID), "default"]), "default");
    FirstOfTwo(sessionID, chatID);
  }

  /**
   * A chat is created with its session if and only if its trimmed id is not
   * empty and not taken, a session is given, and the session's id, which is
   * the chat's unless the spec names one, is not taken either. Both are then
   * stored as given and nothing else changes; otherwise nothing changes at
   * all, and the code tells why.
   */
  lemma CreateChatSucceedsIff(namespace: string, world: World, rawID: string, scopeID: string, displayName: string,
                              session: Option<Spec>, clock: Clock, result: Result)
    requires result == CreateWithSession(namespace, world, rawID, scopeID, displayName, session, clock)
    ensures result.reply.Ok? <==> CanCreate(world, TrimSpace(rawID), session)
    ensures result.reply.Err? ==>
              result == Result(world, Err(CreateRefusal(world, TrimSpace(rawID), session)))
    ensures result.reply.Ok? ==>
              var id := TrimSpace(rawID);
              var sessionID := SessionFor(id, session.value);
              var chat := Chat(id, if TrimSpace(scopeID) == "" then "default" else TrimSpace(scopeID),
                               TrimSpace(displayName), sessionID, clock.now, clock.now);
              var state := State(1, Filled(session.value, sessionID), EmptyStatus(sessionID));
              && result.reply.value == ChatReply(chat, state)
              && result.world.chats == world.chats[id := ChatRow(chat, clock.dbNow)]
              && Rewrites(namespace, world.sessions, result.world.sessions, sessionID, SessionStore.Created, state)
  {
    var id := TrimSpace(rawID);
    TrimSpaceTrims(rawID);
    CreatedSpecIff(world.chats, id, session);
    var created := CreatedSpec(world.chats, id, session);
    if created.Ok? {
      var spec := created.value;
      TrimSpaceTrims(spec.sessionID);
      CreateSucceedsIff(namespace, world.sessions, Some(spec),
                        SessionStore.Execute(namespace, world.sessions, SessionStore.Create(Some(spec))));
      assert Filled(spec, spec.sessionID) == spec;
      NewChatIsKept(world.chats, id, scopeID, displayName, spec.sessionID, clock);
    }
  }

  // ---------------------------------------------------------------- renaming

  lemma RenamedChat(chats: Chats, id: string, name: string, clock: Clock)
    requires ChatsInv(chats) && id in chats && name != "" && Trimmed(name)
    ensures var chat := chats[id].chat.(displayName := name, updatedAt := clock.now);
            RenameStored(chats, id, name, clock) == Stored(chats[id := ChatRow(chat, clock.dbNow)], Ok(chat))
  {
    var row := chats[id];
    OwnSession(id, row);
    TrimSpaceTrims(name);
    TrimSpaceTrims(row.chat.scopeID);
    FirstOfTwo(row.chat.scopeID, DEFAULT_SCOPE);
    FirstOfTwo(row.chat.sessionID, id);
  }

  /**
   * A rename is carried out if and only if the id and the new name are not
   * blank and the chat is stored; it is answered if its session is stored as
   * well. It changes the chat's name and times and nothing else.
   */
  lemma RenameSucceedsIff(namespace: string, world: World, rawID: string, rawName: string, clock: Clock, result: Result)
    requires ChatsInv(world.chats) && RowsOk(world.sessions)
    requires result == Rename(namespace, world, rawID, rawName, clock)
    ensures var id, name := TrimSpace(rawID), TrimSpace(rawName);
            && (result.reply.Ok? <==> name != "" && IsWhole(world, id))
            && (result.reply.Err? ==> result.reply.code == if id == "" || name == "" then InvalidArgument else NotFound)
            && result.world.sessions == world.sessions
            && (id == "" || name == "" || id !in world.chats ==> result.world == world)
            && (id != "" && name != "" && id in world.chats ==>
                  var chat := world.chats[id].chat.(displayName := name, updatedAt := clock.now);
                  && result.world.chats == world.chats[id := ChatRow(chat, clock.dbNow)]
                  && (result.reply.Ok? ==>
                        && result.reply.value.chat == chat
                        && Ok(result.reply.value.session)
                           == SessionStore.Get(namespace, world.sessions, chat.sessionID)))
  {
    var id, name := TrimSpace(rawID), TrimSpace(rawName);
    TrimSpaceTrims(rawID);
    TrimSpaceTrims(rawName);
    if id in world.chats && id != "" && name != "" {
      var row := world.chats[id];
      RenamedChat(world.chats, id, name, clock);
      OwnSession(id, row.(chat := row.chat.(displayName := name, updatedAt := clock.now)));
      GetIff(namespace, world.sessions, row.chat.sessionID);
    }
  }

  // ---------------------------------------------------------------- setting up

  /**
   * A setup is accepted if and only if the chat and its session are stored and
   * the given spec names no other session. An equal spec changes nothing; any
   * other is what the session reads as, with the next generation and its
   * status as it was. The chat is never touched.
   */
  lemma SetupSucceedsIff(namespace: string, world: World, rawID: string, session: Option<Spec>, result: Result)
    requires ChatsInv(world.chats) && RowsOk(world.sessions)
    requires result == UpdateSetup(namespace, world, rawID, session)
    ensures var id := TrimSpace(rawID);
            && (result.reply.Ok? <==>
                  && IsWhole(world, id) && session.Some?
                  && (TrimSpace(session.value.sessionID) == ""
                      || TrimSpace(session.value.sessionID) == world.chats[id].chat.sessionID))
            && (result.reply.Err? ==>
                  && result.world == world
                  && result.reply.code == if id != "" && !IsWhole(world, id) then NotFound else InvalidArgument)
    ensures result.reply.Ok? ==>
              var row := world.chats[TrimSpace(rawID)];
              var sessionID := row.chat.sessionID;
              var before := SessionStore.Get(namespace, world.sessions, sessionID);
              && before.Ok? && result.world.chats == world.chats && result.reply.value.chat == row.chat
              && var spec := Filled(session.value, sessionID);
                 var state := State(before.value.generation + 1, spec, before.value.status);
                 if before.value.spec == spec then result == Result(world, Ok(ChatReply(row.chat, before.value)))
                 else
                   && result.reply.value.session == state
                   && Rewrites(namespace, world.sessions, result.world.sessions, sessionID, SessionStore.Updated, state)
  {
    var id := TrimSpace(rawID);
    GetChatIff(namespace, world, rawID);
    if IsWhole(world, id) {
      var sessionID := world.chats[id].chat.sessionID;
      OwnSession(id, world.chats[id]);
      NormalizesTo(sessionID, session);
      if session.Some? && NormalizeSpec(sessionID, session).Ok? {
        var spec := Filled(session.value, sessionID);
        UpdateSucceedsIff(namespace, world.sessions, sessionID, Some(spec),
                          SessionStore.Execute(namespace, world.sessions, SessionStore.Update(sessionID, Some(spec))));
        assert Filled(spec, sessionID) == spec;
      }
    }
  }

  // ---------------------------------------------------------------- putting

  /** What a whole chat's session reads as. */
  function SessionOf(namespace: string, world: World, id: string): State
    requires ChatsInv(world.chats) && RowsOk(world.sessions) && IsWhole(world, id)
  {
    OwnSession(id, world.chats[id]);
    GetIff(namespace, world.sessions, world.chats[id].chat.sessionID);
    SessionStore.Get(namespace, world.sessions, world.chats[id].chat.sessionID).value
  }

  lemma FoundIffWhole(namespace: string, world: World, id: string)
    requires ChatsInv(world.chats) && RowsOk(world.sessions) && Trimmed(id) && id != ""
    ensures GetWithSession(namespace, world, id)
            == if IsWhole(world, id) then Ok(ChatReply(world.chats[id].chat, SessionOf(namespace, world, id)))
               else Err(NotFound)
  {
    TrimSpaceTrims(id);
    GetChatIff(namespace, world, id);
  }

  /** A PUT of neither mode, or of a blank chat id, is refused. */
  lemma PutRefusesIf(namespace: string, setup: Setup, world: World, id: string, put: PutChat, clock: Clock)
    requires ChatsInv(world.chats) && RowsOk(world.sessions) && Trimmed(id)
    requires id == "" || (TrimSpace(put.mode) != "profile" && TrimSpace(put.mode) != "inline")
    ensures Upsert(namespace, setup, world, id, put, clock) == Result(world, Err(InvalidArgument))
  {
    TrimSpaceTrims(id);
    GetChatIff(namespace, world, id);
  }

  /** A chat and its session, both under the same id, as a PUT creates them. */
  predicate Creates(namespace: string, world: World, id: string, put: PutChat, clock: Clock, spec: Spec,
                    result: Result) {
    var chat, state := Chat(id, "default", TrimSpace(put.displayName), id, clock.now, clock.now),
        State(1, spec, EmptyStatus(id));
    && result.reply == Ok(ChatReply(chat, state))
    && result.world.chats == world.chats[id := ChatRow(chat, clock.dbNow)]
    && Rewrites(namespace, world.sessions, result.world.sessions, id, SessionStore.Created, state)
  }

  predicate IsFree(world: World, id: string) { id !in world.chats && id !in world.sessions.rows }

  lemma PutCreates(namespace: string, world: World, id: string, put: PutChat, clock: Clock, spec: Spec, result: Result)
    requires id != "" && Trimmed(id) && spec.sessionID == id && Filled(spec, id) == spec
    requires result == CreateWithSession(namespace, world, id, "", put.displayName, Some(spec), clock)
    ensures IsFree(world, id) ==> Creates(namespace, world, id, put, clock, spec, result)
    ensures !IsFree(world, id) ==> result == Result(world, Err(AlreadyExists))
  {
    TrimSpaceTrims(id);
    assert TrimSpace("") == "";
    CreateChatSucceedsIff(namespace, world, id, "", put.displayName, Some(spec), clock, result);
  }

  function ProfileOnly(id: string, profileID: string): Spec {
    Spec(id, "", profileID, None, None, Some(id + "-workspace"), Some(id + "-home"), 0, "", [])
  }

  function ProfileRefusal(world: World, id: string, put: PutChat): Code {
    if TrimSpace(put.profileID) == "" || put.inline.Some? then InvalidArgument
    else if IsWhole(world, id) then FailedPrecondition
    else AlreadyExists
  }

  /**
   * A PUT for a profile is accepted if and only if it names one and nothing
   * else, and the chat either runs that profile already, which changes
   * nothing, or neither it nor a session of its id exists, and both are then
   * created.
   */
  lemma ProfilePutSucceedsIff(namespace: string, setup: Setup, world: World, id: string, put: PutChat, clock: Clock,
                              result: Result)
    requires ChatsInv(world.chats) && RowsOk(world.sessions) && Trimmed(id) && id != ""
    requires TrimSpace(put.mode) == "profile" && result == Upsert(namespace, setup, world, id, put, clock)
    ensures var profileID := TrimSpace(put.profileID);
            && (result.reply.Ok? <==>
                  && profileID != "" && put.inline.None?
                  && if IsWhole(world, id) then TrimSpace(SessionOf(namespace, world, id).spec.profileID) == profileID
                     else IsFree(world, id))
            && (result.reply.Err? ==> result == Result(world, Err(ProfileRefusal(world, id, put))))
            && (result.reply.Ok? && IsWhole(world, id) ==>
                  result == Result(world, Ok(ChatReply(world.chats[id].chat, SessionOf(namespace, world, id)))))
            && (result.reply.Ok? && !IsWhole(world, id) ==>
                  Creates(namespace, world, id, put, clock, ProfileOnly(id, profileID), result))
  {
    var profileID := TrimSpace(put.profileID);
    TrimSpaceTrims(id);
    TrimSpaceTrims(put.profileID);
    FoundIffWhole(namespace, world, id);
    if !IsWhole(world, id) && profileID != "" && put.inline.None? {
      NormalizesTo(id, Some(NewSpec("", profileID, "")));
      assert TrimSpace("") == "";
      assert ProfileSpec(id, profileID) == Ok(ProfileOnly(id, profileID));
      PutCreates(namespace, world, id, put, clock, ProfileOnly(id, profileID), result);
    }
  }

  /** The config with the snapshot id of what it holds, or with none if it holds nothing. */
  function Snapshotted(hash: Resources -> string, config: Resources): Resources {
    Resources(if config.instructions == [] && config.toolBindings == [] then ""
              else hash(Resources("", config.instructions, config.toolBindings)),
              config.instructions, config.toolBindings)
  }

  /** The setup asked for, as the session of a new chat. */
  function AskedSpec(setup: Setup, id: string, inline: InlineSetup): Spec
    requires inline.runtimeConfig.Decoded? && inline.resourceConfig.Decoded?
  {
    Spec(id, TrimSpace(inline.providerID), "", Some(inline.runtimeConfig.value),
         Some(Snapshotted(setup.hash, inline.resourceConfig.value)), Some(id + "-workspace"), Some(id + "-home"), 0,
         TrimSpace(inline.executionClass), [])
  }

  /** The session's setup with what is asked for put in its place. */
  function ChangedSpec(setup: Setup, sessionID: string, current: Spec, inline: InlineSetup): Spec {
    Spec(sessionID, TrimSpace(current.providerID), "",
         if inline.runtimeConfig.Decoded? then Some(inline.runtimeConfig.value) else current.runtimeConfig,
         if inline.resourceConfig.Decoded? then Some(Snapshotted(setup.hash, inline.resourceConfig.value))
         else if current.resourceConfig.Some? then Some(Snapshotted(setup.hash, current.resourceConfig.value))
         else None,
         Some(if current.workspaceRef.Some? then current.workspaceRef.value else sessionID + "-workspace"),
         Some(if current.homeStateRef.Some? then current.homeStateRef.value else sessionID + "-home"),
         0, TrimSpace(current.executionClass), current.prepareJobs)
  }

  /** The catalog, if there is one, accepts the spec. */
  predicate Chooses(setup: Setup, spec: Spec) {
    setup.options.Some? ==> RuntimeCatalog.Accepts(setup.options.value, Some(spec))
  }

  /** A field that is asked for is the one the session has. */
  predicate SameField(current: string, asked: string) {
    TrimSpace(asked) != "" ==> TrimSpace(asked) == TrimSpace(current)
  }

  lemma InlineSpecIff(setup: Setup, id: string, inline: InlineSetup)
    requires Trimmed(id) && id != ""
    ensures var r := InlineSpec(setup, id, inline);
            && (r.Ok? <==>
                  && TrimSpace(inline.providerID) != "" && TrimSpace(inline.executionClass) != ""
                  && inline.runtimeConfig.Decoded? && inline.resourceConfig.Decoded?)
            && (r.Ok? ==> r.value == AskedSpec(setup, id, inline))
            && (r.Err? ==> r.code == InvalidArgument)
  {
    TrimSpaceTrims(id);
    assert TrimSpace("") == "";
    if inline.resourceConfig.Decoded? {
      SnapshotIs(setup.hash, inline.resourceConfig.value);
    }
  }

  lemma SnapshotIs(hash: Resources -> string, config: Resources)
    ensures NormalizeResources(hash, config) == Snapshotted(hash, config)
    ensures Snapshotted(hash, Snapshotted(hash, config)) == Snapshotted(hash, config)
  {
  }

  lemma MergedSpecIff(setup: Setup, sessionID: string, current: Spec, inline: InlineSetup)
    requires Trimmed(sessionID) && sessionID != ""
    ensures var r := MergedSpec(setup, sessionID, current, inline);
            var same := SameField(current.providerID, inline.providerID)
                        && SameField(current.executionClass, inline.executionClass);
            && (r.Ok? <==> same && !inline.runtimeConfig.Undecodable? && !inline.resourceConfig.Undecodable?)
            && (r.Ok? ==> r.value == ChangedSpec(setup, sessionID, current, inline))
            && (r.Err? ==> r.code == if same then InvalidArgument else FailedPrecondition)
  {
    TrimSpaceTrims(sessionID);
    assert TrimSpace("") == "";
    if inline.resourceConfig.Decoded? {
      SnapshotIs(setup.hash, inline.resourceConfig.value);
      SnapshotIs(setup.hash, Snapshotted(setup.hash, inline.resourceConfig.value));
    }
    if current.resourceConfig.Some? {
      SnapshotIs(setup.hash, current.resourceConfig.value);
    }
  }

  /**
   * A PUT of an inline setup on a stored chat is accepted if and only if the
   * session runs no profile, the provider and execution class asked for, if
   * any, are the session's, the configs decode, and the catalog accepts the
   * changed setup. The session then has that setup, with the next generation
   * unless it had it before, and the chat is as it was.
   */
  lemma InlineChangeSucceedsIff(namespace: string, setup: Setup, world: World, id: string, put: PutChat, clock: Clock,
                                result: Result)
    requires ChatsInv(world.chats) && RowsOk(world.sessions) && Trimmed(id) && IsWhole(world, id)
    requires TrimSpace(put.mode) == "inline" && put.inline.Some? && TrimSpace(put.profileID) == ""
    requires result == Upsert(namespace, setup, world, id, put, clock)
    ensures var inline, before := put.inline.value, SessionOf(namespace, world, id);
            var sessionID := world.chats[id].chat.sessionID;
            var same := TrimSpace(before.spec.profileID) == "" && SameField(before.spec.providerID, inline.providerID)
                        && SameField(before.spec.executionClass, inline.executionClass);
            var spec := ChangedSpec(setup, sessionID, before.spec, inline);
            var state := State(before.generation + 1, spec, before.status);
            && (result.reply.Ok? <==>
                  && same && !inline.runtimeConfig.Undecodable? && !inline.resourceConfig.Undecodable?
                  && Chooses(setup, spec))
            && (result.reply.Err? ==>
                result == Result(world, Err(if same then InvalidArgument else FailedPrecondition)))
            && (result.reply.Ok? ==>
                  && result.world.chats == world.chats && result.reply.value.chat == world.chats[id].chat
                  && if before.spec == spec then result == Result(world, Ok(ChatReply(world.chats[id].chat, before)))
                     else
                       && result.reply.value.session == state
                       && Rewrites(namespace, world.sessions, result.world.sessions, sessionID, SessionStore.Updated,
                                   state))
  {
    var sessionID, before := world.chats[id].chat.sessionID, SessionOf(namespace, world, id);
    TrimSpaceTrims(id);
    TrimSpaceTrims(sessionID);
    OwnSession(id, world.chats[id]);
    FoundIffWhole(namespace, world, id);
    MergedSpecIff(setup, sessionID, before.spec, put.inline.value);
    var spec := ChangedSpec(setup, sessionID, before.spec, put.inline.value);
    SetupSucceedsIff(namespace, world, id, Some(spec), UpdateSetup(namespace, world, id, Some(spec)));
    assert Filled(spec, sessionID) == spec;
  }

  /**
   * On a chat that is not stored with its session, it is accepted if and only
   * if it names a provider and an execution class, both configs are there, the
   * catalog accepts them, and neither the chat nor a session of its id exists;
   * both are then created.
   */
  lemma InlineCreationSucceedsIff(namespace: string, setup: Setup, world: World, id: string, put: PutChat,
                                  clock: Clock, result: Result)
    requires ChatsInv(world.chats) && RowsOk(world.sessions) && Trimmed(id) && id != "" && !IsWhole(world, id)
    requires TrimSpace(put.mode) == "inline" && put.inline.Some? && TrimSpace(put.profileID) == ""
    requires result == Upsert(namespace, setup, world, id, put, clock)
    ensures var inline := put.inline.value;
            var given := TrimSpace(inline.providerID) != "" && TrimSpace(inline.executionClass) != ""
                         && inline.runtimeConfig.Decoded? && inline.resourceConfig.Decoded?;
            var chosen := given && Chooses(setup, AskedSpec(setup, id, inline));
            && (result.reply.Ok? <==> chosen && IsFree(world, id))
            && (result.reply.Err? ==> result == Result(world, Err(if chosen then AlreadyExists else InvalidArgument)))
            && (result.reply.Ok? ==>
                  Creates(namespace, world, id, put, clock, AskedSpec(setup, id, inline), result))
  {
    TrimSpaceTrims(id);
    FoundIffWhole(namespace, world, id);
    InlineSpecIff(setup, id, put.inline.value);
    if InlineSpec(setup, id, put.inline.value).Ok? {
      var spec := AskedSpec(setup, id, put.inline.value);
      PutCreates(namespace, world, id, put, clock, spec,
                 CreateWithSession(namespace, world, id, "", put.displayName, Some(spec), clock));
    }
  }

  /** A PUT of an inline setup without one, or with a profile besides, is refused. */
  lemma InlinePutNeedsSetup(namespace: string, setup: Setup, world: World, id: string, put: PutChat, clock: Clock)
    requires ChatsInv(world.chats) && RowsOk(world.sessions) && Trimmed(id) && id != ""
    requires TrimSpace(put.mode) == "inline" && (put.inline.None? || TrimSpace(put.profileID) != "")
    ensures Upsert(namespace, setup, world, id, put, clock) == Result(world, Err(InvalidArgument))
  {
    FoundIffWhole(namespace, world, id);
  }
}
