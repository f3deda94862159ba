/**
 * The chat service as it is programmed: it reads and writes the two stores, and
 * a setup transaction puts both back on an error. Every method is shown to
 * compute the corresponding function of ChatSetup.
 */
module ChatService {
  import opened Text
  import opened SessionTypes
  import SessionStore
  import opened SessionRepository
  import opened PageTokens
  import opened ChatStore
  import opened ChatSetup

  class GRPCChatServer {
    const chats: PostgresChatStore
    const sessions: PostgresRepository

    function Contents(): World reads chats, sessions { World(sessions.Contents(), chats.rows) }

    constructor (chats: PostgresChatStore, sessions: PostgresRepository)
      ensures this.chats == chats && this.sessions == sessions
    {
      this.chats, this.sessions := chats, sessions;
    }

    method Rollback(world: World)
      modifies chats, sessions
      ensures Contents() == world
    {
      sessions.rows, sessions.outbox := world.sessions.rows, world.sessions.outbox;
      chats.rows := world.chats;
    }

    method CreateChat(rawID: string, scopeID: string, displayName: string, session: Option<Spec>, clock: Clock)
      returns (r: Outcome<ChatReply>)
      modifies chats, sessions
      ensures Result(Contents(), r)
              == CreateWithSession(sessions.namespace, old(Contents()), rawID, scopeID, displayName, session, clock)
    {
      var before := Contents();
      var chatID := TrimSpace(rawID);
      if chatID == "" {
        return Err(InvalidArgument);
      }
      var existing := chats.Get(chatID);
      if existing.Ok? {
        return Err(AlreadyExists);
      }
      var spec := NormalizeSpec(FirstNonEmpty([SessionIDOf(session), chatID]), session);
      if spec.Err? {
        return Err(spec.code);
      }
      var created := sessions.Create(Some(spec.value));
      r := StoreCreated(before, created, NewChat(chatID, scopeID, displayName, spec.value.sessionID, clock), clock);
    }

    /** The second half of the creation: an error puts both stores back. */
    method StoreCreated(before: World, created: Outcome<SessionStore.Reply>, chat: Chat, clock: Clock)
      returns (r: Outcome<ChatReply>)
      requires chats.rows == before.chats
      modifies chats, sessions
      ensures Result(Contents(), r)
              == StoreChat(before, SessionStore.Done(old(sessions.Contents()), created), chat, clock)
    {
      if created.Err? {
        Rollback(before);
        return Err(created.code);
      }
      if !created.value.StateReply? {
        Rollback(before);
        return Err(Unknown);
      }
      var stored := chats.Create(chat, clock.now, clock.dbNow);
      if stored.Err? {
        Rollback(before);
        return Err(stored.code);
      }
      r := Ok(ChatReply(stored.value, created.value.state));
    }

    method GetChat(rawID: string) returns (r: Outcome<ChatReply>)
      ensures r == GetWithSession(sessions.namespace, Contents(), rawID)
    {
      var chat := chats.Get(rawID);
      if chat.Err? {
        return Err(chat.code);
      }
      var session := sessions.GetSession(CurrentSessionID(TrimSpace(rawID), chat.value));
      if session.Err? {
        return Err(session.code);
      }
      r := Ok(ChatReply(chat.value, session.value));
    }

    method UpdateChatSessionSetup(rawID: string, session: Option<Spec>) returns (r: Outcome<ChatReply>)
      modifies chats, sessions
      ensures Result(Contents(), r) == UpdateSetup(sessions.namespace, old(Contents()), rawID, session)
    {
      var current := GetChat(rawID);
      if current.Err? {
        return Err(current.code);
      }
      var sessionID := CurrentSessionID(TrimSpace(rawID), current.value.chat);
      var spec := NormalizeSpec(sessionID, session);
      if spec.Err? {
        return Err(spec.code);
      }
      r := WriteSession(current.value, sessionID, spec.value);
    }

    method WriteSession(current: ChatReply, sessionID: string, spec: Spec) returns (r: Outcome<ChatReply>)
      modifies chats, sessions
      ensures Result(Contents(), r) == WriteSpec(sessions.namespace, old(Contents()), current, sessionID, spec)
    {
      if current.session.spec == spec {
        return Ok(current);
      }
      var before := Contents();
      var updated := sessions.Update(sessionID, Some(spec));
      if updated.Err? {
        Rollback(before);
        return Err(updated.code);
      }
      if !updated.value.StateReply? {
        Rollback(before);
        return Err(Unknown);
      }
      r := Ok(ChatReply(current.chat, updated.value.state));
    }

    method RenameChat(rawID: string, rawName: string, clock: Clock) returns (r: Outcome<ChatReply>)
      modifies chats
      ensures Result(Contents(), r) == Rename(sessions.namespace, old(Contents()), rawID, rawName, clock)
    {
      var chatID, displayName := TrimSpace(rawID), TrimSpace(rawName);
      if chatID == "" || displayName == "" {
        return Err(InvalidArgument);
      }
      var current := chats.Get(chatID);
      if current.Err? {
        return Err(current.code);
      }
      var stored := chats.Update(current.value.(displayName := displayName), clock.now, clock.dbNow);
      if stored.Err? {
        return Err(stored.code);
      }
      var session := sessions.GetSession(CurrentSessionID(chatID, stored.value));
      if session.Err? {
        return Err(session.code);
      }
      r := Ok(ChatReply(stored.value, session.value));
    }

    method UpsertChat(setup: Setup, chatID: string, put: PutChat, clock: Clock) returns (r: Outcome<ChatReply>)
      modifies chats, sessions
      ensures Result(Contents(), r) == Upsert(sessions.namespace, setup, old(Contents()), chatID, put, clock)
    {
      var found := GetChat(chatID);
      if found.Err? && found.code != NotFound {
        return Err(found.code);
      }
      var current := if found.Ok? then Some(found.value) else None;
      var mode := TrimSpace(put.mode);
      if mode == PROFILE_MODE {
        r := UpsertProfileChat(chatID, current, put, clock);
      } else if mode == INLINE_MODE {
        r := UpsertInlineChat(setup, chatID, current, put, clock);
      } else {
        r := Err(InvalidArgument);
      }
    }

    method UpsertProfileChat(chatID: string, current: Option<ChatReply>, put: PutChat, clock: Clock)
      returns (r: Outcome<ChatReply>)
      modifies chats, sessions
      ensures Result(Contents(), r) == UpsertProfile(sessions.namespace, old(Contents()), chatID, current, put, clock)
    {
      var profileID := TrimSpace(put.profileID);
      if profileID == "" || put.inline.Some? {
        return Err(InvalidArgument);
      }
      if current.Some? {
        var spec := current.value.session.spec;
        if Mode(spec) != PROFILE_MODE || TrimSpace(spec.profileID) != profileID {
          return Err(FailedPrecondition);
        }
        return Ok(current.value);
      }
      var spec := ProfileSpec(chatID, profileID);
      if spec.Err? {
        return Err(spec.code);
      }
      r := CreateChat(chatID, "", put.displayName, Some(spec.value), clock);
    }

    method UpsertInlineChat(setup: Setup, chatID: string, current: Option<ChatReply>, put: PutChat, clock: Clock)
      returns (r: Outcome<ChatReply>)
      modifies chats, sessions
      ensures Result(Contents(), r)
              == UpsertInline(sessions.namespace, setup, old(Contents()), chatID, current, put, clock)
    {
      if put.inline.None? || TrimSpace(put.profileID) != "" {
        return Err(InvalidArgument);
      }
      if current.Some? {
        var spec := current.value.session.spec;
        if Mode(spec) != INLINE_MODE {
          return Err(FailedPrecondition);
        }
        var next := MergedSpec(setup, CurrentSessionID(chatID, current.value.chat), spec, put.inline.value);
        if next.Err? {
          return Err(next.code);
        }
        if !Selectable(setup, next.value) {
          return Err(InvalidArgument);
        }
        r := UpdateChatSessionSetup(chatID, Some(next.value));
        return;
      }
      var spec := InlineSpec(setup, chatID, put.inline.value);
      if spec.Err? {
        return Err(spec.code);
      }
      if !Selectable(setup, spec.value) {
        return Err(InvalidArgument);
      }
      r := CreateChat(chatID, "", put.displayName, Some(spec.value), clock);
    }
  }
}
