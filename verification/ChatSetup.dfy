/**
 * Chats and their sessions together: creating a chat with its session, changing
 * the session's setup, renaming, and the PUT request that combines them.
 */
module ChatSetup {
  import opened Text
  import opened SessionTypes
  import opened SessionResource
  import SessionStore
  import opened PageTokens
  import opened ChatStore
  import RuntimeCatalog

  /** Both tables; a setup transaction writes them together or not at all. */
  datatype World = World(sessions: SessionStore.Store, chats: Chats)

  datatype ChatReply = ChatReply(chat: Chat, session: State)

  datatype Result = Result(world: World, reply: Outcome<ChatReply>)

  /** The clocks a call reads: the caller's and the database's. */
  datatype Clock = Clock(now: Instant, dbNow: Instant)

  function Failed(world: World, code: Code): Result { Result(world, Err(code)) }

  // ---------------------------------------------------------------- the chat service

  /** currentSessionID for a stored chat. */
  function CurrentSessionID(chatID: string, chat: Chat): string { FirstNonEmpty([chat.sessionID, chatID]) }

  function SessionIDOf(session: Option<Spec>): string { if session.Some? then session.value.sessionID else "" }

  function NewChat(chatID: string, scopeID: string, displayName: string, sessionID: string, clock: Clock): Chat {
    Chat(chatID, FirstNonEmpty([TrimSpace(scopeID), DEFAULT_SCOPE]), TrimSpace(displayName), sessionID, clock.now,
         clock.now)
  }

  /** The session a new chat gets, if the chat can be created. */
  function CreatedSpec(chats: Chats, chatID: string, session: Option<Spec>): Outcome<Spec> {
    if chatID == "" then Err(InvalidArgument)
    else if GetChat(chats, chatID).Ok? then Err(AlreadyExists)
    else NormalizeSpec(FirstNonEmpty([SessionIDOf(session), chatID]), session)
  }

  /** The answer of a session call as a state. */
  function StateReplied(done: SessionStore.Done): Outcome<State> {
    match done.reply
    case Err(code) => Err(code)
    case Ok(reply) => if reply.StateReply? then Ok(reply.state) else Err(Unknown)
  }

  /** Stores the chat beside the session just created; a failure undoes both. */
  function StoreChat(world: World, created: SessionStore.Done, chat: Chat, clock: Clock): Result {
    match StateReplied(created)
    case Err(code) => Failed(world, code)
    case Ok(session) =>
      var stored := CreateChat(world.chats, chat, clock.now, clock.dbNow);
      match stored.reply
      case Err(code) => Failed(world, code)
      case Ok(kept) => Result(World(created.store, stored.chats), Ok(ChatReply(kept, session)))
  }

  /** GRPCChatServer.CreateChat. */
  function CreateWithSession(namespace: string, world: World, rawID: string, scopeID: string, displayName: string,
                             session: Option<Spec>, clock: Clock): Result
  {
    match CreatedSpec(world.chats, TrimSpace(rawID), session)
    case Err(code) => Failed(world, code)
    case Ok(spec) =>
      StoreChat(world, SessionStore.Execute(namespace, world.sessions, SessionStore.Create(Some(spec))),
                NewChat(TrimSpace(rawID), scopeID, displayName, spec.sessionID, clock), clock)
  }

  /** GRPCChatServer.GetChat. */
  function GetWithSession(namespace: string, world: World, rawID: string): Outcome<ChatReply> {
    match GetChat(world.chats, rawID)
    case Err(code) => Err(code)
    case Ok(chat) =>
      match SessionStore.Get(namespace, world.sessions, CurrentSessionID(TrimSpace(rawID), chat))
      case Err(code) => Err(code)
      case Ok(session) => Ok(ChatReply(chat, session))
  }

  function Refreshed(world: World, chat: Chat, updated: SessionStore.Done): Result {
    match StateReplied(updated)
    case Err(code) => Failed(world, code)
    case Ok(session) => Result(world.(sessions := updated.store), Ok(ChatReply(chat, session)))
  }

  /** Writes the session only when its spec changes. */
  function WriteSpec(namespace: string, world: World, current: ChatReply, sessionID: string, spec: Spec): Result {
    if current.session.spec == spec then Result(world, Ok(current))
    else Refreshed(world, current.chat,
                   SessionStore.Execute(namespace, world.sessions, SessionStore.Update(sessionID, Some(spec))))
  }

  /** GRPCChatServer.UpdateChatSessionSetup. */
  function UpdateSetup(namespace: string, world: World, rawID: string, session: Option<Spec>): Result {
    match GetWithSession(namespace, world, rawID)
    case Err(code) => Failed(world, code)
    case Ok(current) =>
      var sessionID := CurrentSessionID(TrimSpace(rawID), current.chat);
      match NormalizeSpec(sessionID, session)
      case Err(code) => Failed(world, code)
      case Ok(spec) => WriteSpec(namespace, world, current, sessionID, spec)
  }

  function RenameStored(chats: Chats, chatID: string, displayName: string, clock: Clock): Stored {
    if chatID == "" || displayName == "" then Stored(chats, Err(InvalidArgument)) else
    match GetChat(chats, chatID)
    case Err(code) => Stored(chats, Err(code))
    case Ok(current) => UpdateChat(chats, current.(displayName := displayName), clock.now, clock.dbNow)
  }

  /** GRPCChatServer.RenameChat: no transaction spans the rename and the read of the session. */
  function Rename(namespace: string, world: World, rawID: string, rawName: string, clock: Clock): Result {
    var stored := RenameStored(world.chats, TrimSpace(rawID), TrimSpace(rawName), clock);
    var renamed := world.(chats := stored.chats);
    match stored.reply
    case Err(code) => Failed(renamed, code)
    case Ok(chat) =>
      match SessionStore.Get(namespace, world.sessions, CurrentSessionID(TrimSpace(rawID), chat))
      case Err(code) => Failed(renamed, code)
      case Ok(session) => Result(renamed, Ok(ChatReply(chat, session)))
  }

  // ---------------------------------------------------------------- the PUT request

  /** A JSON field of a request: missing or null, not decodable, or decoded. */
  datatype Body<+T> = NoBody | Undecodable | Decoded(value: T)

  datatype InlineSetup = InlineSetup(
    providerID: string, executionClass: string, runtimeConfig: Body<RuntimeConfig>, resourceConfig: Body<Resources>)

  datatype PutChat = PutChat(displayName: string, mode: string, profileID: string, inline: Option<InlineSetup>)

  /** The hash of a resource config's deterministic encoding, and the options service if one is configured. */
  datatype Setup = Setup(hash: Resources -> string, options: Option<RuntimeCatalog.Catalog>)

  const PROFILE_MODE := "profile"
  const INLINE_MODE := "inline"

  function Mode(spec: Spec): string { if TrimSpace(spec.profileID) != "" then PROFILE_MODE else INLINE_MODE }

  /** CloneAndNormalizeResourceConfig: the snapshot id is computed without the snapshot id. */
  function NormalizeResources(hash: Resources -> string, config: Resources): Resources {
    config.(snapshotID := if config.instructions == [] && config.toolBindings == [] then ""
            else hash(config.(snapshotID := "")))
  }

  function NormalizeConfig(hash: Resources -> string, config: Option<Resources>): Option<Resources> {
    if config.None? then None else Some(NormalizeResources(hash, config.value))
  }

  function NewSpec(providerID: string, profileID: string, executionClass: string): Spec {
    Spec("", providerID, profileID, None, None, None, None, 0, executionClass, [])
  }

  /** NewProfileSpec. */
  function ProfileSpec(chatID: string, profileID: string): Outcome<Spec> {
    if TrimSpace(profileID) == "" then Err(InvalidArgument)
    else NormalizeSpec(chatID, Some(NewSpec("", TrimSpace(profileID), "")))
  }

  function InlineSpec(setup: Setup, chatID: string, inline: InlineSetup): Outcome<Spec> {
    var providerID, executionClass := TrimSpace(inline.providerID), TrimSpace(inline.executionClass);
    if providerID == "" || executionClass == "" || !inline.runtimeConfig.Decoded?
       || !inline.resourceConfig.Decoded? then Err(InvalidArgument)
    else NormalizeSpec(chatID, Some(NewSpec(providerID, "", executionClass).(
                                      runtimeConfig := Some(inline.runtimeConfig.value),
                                      resourceConfig :=
                                        Some(NormalizeResources(setup.hash, inline.resourceConfig.value)))))
  }

  predicate Keeps(current: string, asked: string) { TrimSpace(asked) == "" || TrimSpace(asked) == TrimSpace(current) }

  /** mergedInlineSessionSpec: provider and execution class stay; configs are replaced when given. */
  function MergedSpec(setup: Setup, sessionID: string, current: Spec, inline: InlineSetup): Outcome<Spec> {
    if !Keeps(current.providerID, inline.providerID)
       || !Keeps(current.executionClass, inline.executionClass) then Err(FailedPrecondition)
    else if inline.runtimeConfig.Undecodable? || inline.resourceConfig.Undecodable? then Err(InvalidArgument)
    else
      var runtimeConfig := if inline.runtimeConfig.Decoded? then Some(inline.runtimeConfig.value)
          else current.runtimeConfig;
      var resourceConfig := if inline.resourceConfig.Decoded?
          then Some(NormalizeResources(setup.hash, inline.resourceConfig.value))
                            else current.resourceConfig;
      NormalizeSpec(sessionID,
                    Some(Spec("", TrimSpace(current.providerID), "", runtimeConfig,
                              NormalizeConfig(setup.hash, resourceConfig),
                                         Some(WorkspaceRefOf(sessionID, current)),
                                           Some(HomeStateRefOf(sessionID, current)),
                                         0, TrimSpace(current.executionClass), current.prepareJobs)))
  }

  function WorkspaceRefOf(sessionID: string, spec: Spec): string {
    if spec.workspaceRef.Some? then spec.workspaceRef.value else DefaultWorkspaceRef(sessionID)
  }

  function HomeStateRefOf(sessionID: string, spec: Spec): string {
    if spec.homeStateRef.Some? then spec.homeStateRef.value else DefaultHomeStateRef(sessionID)
  }

  predicate Selectable(setup: Setup, spec: Spec) {
    setup.options.None? || RuntimeCatalog.Accepts(setup.options.value, Some(spec))
  }

  function UpsertProfile(namespace: string, world: World, chatID: string, current: Option<ChatReply>, put: PutChat,
                         clock: Clock): Result {
    var profileID := TrimSpace(put.profileID);
    if profileID == "" || put.inline.Some? then Failed(world, InvalidArgument)
    else if current.Some? then
      if Mode(current.value.session.spec) != PROFILE_MODE
         || TrimSpace(current.value.session.spec.profileID) != profileID
      then Failed(world, FailedPrecondition)
      else Result(world, Ok(current.value))
    else
      match ProfileSpec(chatID, profileID)
      case Err(code) => Failed(world, code)
      case Ok(spec) => CreateWithSession(namespace, world, chatID, "", put.displayName, Some(spec), clock)
  }

  function UpsertInline(namespace: string, setup: Setup, world: World, chatID: string,
                        current: Option<ChatReply>, put: PutChat, clock: Clock): Result
  {
    if put.inline.None? || TrimSpace(put.profileID) != "" then Failed(world, InvalidArgument)
    else if current.Some? then
      if Mode(current.value.session.spec) != INLINE_MODE then Failed(world, FailedPrecondition) else
      match MergedSpec(setup, CurrentSessionID(chatID, current.value.chat), current.value.session.spec,
                       put.inline.value)
      case Err(code) => Failed(world, code)
      case Ok(next) => if Selectable(setup, next) then UpdateSetup(namespace, world, chatID, Some(next))
      else Failed(world, InvalidArgument)
    else
      match InlineSpec(setup, chatID, put.inline.value)
      case Err(code) => Failed(world, code)
      case Ok(spec) =>
        if Selectable(setup, spec)
           then CreateWithSession(namespace, world, chatID, "", put.displayName, Some(spec), clock)
        else Failed(world, InvalidArgument)
  }

  /** upsertChat. */
  function Upsert(namespace: string, setup: Setup, world: World, chatID: string, put: PutChat, clock: Clock): Result {
    var found := GetWithSession(namespace, world, chatID);
    if found.Err? && found.code != NotFound then Failed(world, found.code) else
    var current := if found.Ok? then Some(found.value) else None;
    if TrimSpace(put.mode) == PROFILE_MODE then UpsertProfile(namespace, world, chatID, current, put, clock)
    else if TrimSpace(put.mode) == INLINE_MODE then UpsertInline(namespace, setup, world, chatID, current, put, clock)
    else Failed(world, InvalidArgument)
  }

  // ---------------------------------------------------------------- runs

  /** Any call on the world; session calls are those the session services make on existing sessions. */
  datatype WorldCall =
    | CreateCall(chatID: string, scopeID: string, displayName: string, session: Option<Spec>, clock: Clock)
    | SetupCall(chatID: string, session: Option<Spec>)
    | RenameCall(chatID: string, displayName: string, clock: Clock)
    | PutCall(chatID: string, put: PutChat, clock: Clock)
    | SessionCall(call: SessionStore.Call)

  predicate Allowed(call: WorldCall) { call.SessionCall? ==> !call.call.Create? }

  function Perform(namespace: string, setup: Setup, world: World, call: WorldCall): World {
    match call
    case CreateCall(chatID, scopeID, displayName, session, clock) =>
      CreateWithSession(namespace, world, chatID, scopeID, displayName, session, clock).world
    case SetupCall(chatID, session) => UpdateSetup(namespace, world, chatID, session).world
    case RenameCall(chatID, displayName, clock) => Rename(namespace, world, chatID, displayName, clock).world
    case PutCall(chatID, put, clock) => Upsert(namespace, setup, world, chatID, put, clock).world
    case SessionCall(inner) => world.(sessions := SessionStore.Execute(namespace, world.sessions, inner).store)
  }

  function PerformAll(namespace: string, setup: Setup, world: World, calls: seq<WorldCall>): World {
    if calls == [] then world else
    Perform(namespace, setup, PerformAll(namespace, setup, world, calls[..|calls| - 1]), calls[|calls| - 1])
  }
}
