/** The stored chats: creation, renaming, and pages by last update, newest first. */
module ChatStore {
  import opened Text
  import opened SessionTypes
  import opened PageTokens
  import opened Keyset
  import opened KeysetTokens

  const DEFAULT_SCOPE := "default"
  const DEFAULT_PAGE_SIZE := 20
  const MAX_PAGE_SIZE := 100

  datatype Chat = Chat(chatID: string, scopeID: string, displayName: string, sessionID: string, createdAt: Instant,
                       updatedAt: Instant)

  /** One row of platform_chats: the payload and the update time the database keeps. */
  datatype ChatRow = ChatRow(chat: Chat, updatedAt: Instant)

  type Chats = map<string, ChatRow>

  // ---------------------------------------------------------------- rows

  /** normalizeStoredChat. */
  function NormalizeChat(chat: Chat): Outcome<Chat> {
    var chatID := TrimSpace(chat.chatID);
    if chatID == "" then Err(InvalidArgument)
    else Ok(chat.(chatID := chatID, scopeID := FirstNonEmpty([chat.scopeID, DEFAULT_SCOPE]),
                  displayName := TrimSpace(chat.displayName), sessionID := FirstNonEmpty([chat.sessionID, chatID])))
  }

  datatype Stored = Stored(chats: Chats, reply: Outcome<Chat>)

  function GetChat(chats: Chats, rawID: string): Outcome<Chat> {
    var chatID := TrimSpace(rawID);
    if chatID == "" then Err(InvalidArgument)
    else if chatID !in chats then Err(NotFound)
    else Ok(chats[chatID].chat)
  }

  /** Create: `now` is the caller's clock, `dbNow` the database's. */
  function CreateChat(chats: Chats, chat: Chat, now: Instant, dbNow: Instant): Stored {
    match NormalizeChat(chat)
    case Err(code) => Stored(chats, Err(code))
    case Ok(next) =>
      if next.chatID in chats then Stored(chats, Err(AlreadyExists)) else
      var stored := next.(createdAt := now, updatedAt := now);
      Stored(chats[next.chatID := ChatRow(stored, dbNow)], Ok(stored))
  }

  /** Update keeps the creation time of the stored chat. */
  function UpdateChat(chats: Chats, chat: Chat, now: Instant, dbNow: Instant): Stored {
    match NormalizeChat(chat)
    case Err(code) => Stored(chats, Err(code))
    case Ok(next) =>
      match GetChat(chats, next.chatID)
      case Err(code) => Stored(chats, Err(code))
      case Ok(current) =>
        var stored := next.(createdAt := current.createdAt, updatedAt := now);
        Stored(chats[next.chatID := ChatRow(stored, dbNow)], Ok(stored))
  }

  /** What every stored chat looks like. */
  predicate CleanChat(id: string, row: ChatRow) {
    && row.chat.chatID == id && id != "" && Trimmed(id)
    && row.chat.scopeID != "" && Trimmed(row.chat.scopeID)
    && row.chat.sessionID != "" && Trimmed(row.chat.sessionID)
  }

  predicate ChatsInv(chats: Chats) { forall id <- chats :: CleanChat(id, chats[id]) }

  lemma NormalizedChatIsClean(chat: Chat, updatedAt: Instant)
    requires NormalizeChat(chat).Ok?
    ensures CleanChat(NormalizeChat(chat).value.chatID, ChatRow(NormalizeChat(chat).value, updatedAt))
  {
    TrimSpaceTrims(chat.chatID);
    TrimSpaceTrims(TrimSpace(chat.chatID));
    FirstNonEmptyTrims([chat.scopeID, DEFAULT_SCOPE]);
    FirstNonEmptyTrims([chat.sessionID, TrimSpace(chat.chatID)]);
    TrimSpaceTrims(DEFAULT_SCOPE);
    assert DEFAULT_SCOPE in [chat.scopeID, DEFAULT_SCOPE];
    assert TrimSpace(chat.chatID) in [chat.sessionID, TrimSpace(chat.chatID)];
  }

  /** Storing keeps every row clean; an update never moves a creation time. */
  lemma StoringKeepsChats(chats: Chats, chat: Chat, now: Instant, dbNow: Instant)
    requires ChatsInv(chats)
    ensures ChatsInv(CreateChat(chats, chat, now, dbNow).chats) && ChatsInv(UpdateChat(chats, chat, now, dbNow).chats)
    ensures forall id <- chats :: id in UpdateChat(chats, chat, now, dbNow).chats
                                  && UpdateChat(chats, chat, now, dbNow).chats[id].chat.createdAt
                                     == chats[id].chat.createdAt
  {
    if NormalizeChat(chat).Ok? {
      NormalizedChatIsClean(chat, dbNow);
      TrimSpaceTrims(chat.chatID);
    }
  }

  class PostgresChatStore {
    var rows: Chats

    constructor ()
      ensures rows == map[]
    {
      rows := map[];
    }

    method Get(rawID: string) returns (r: Outcome<Chat>)
      ensures r == GetChat(rows, rawID)
    {
      var chatID := TrimSpace(rawID);
      if chatID == "" {
        return Err(InvalidArgument);
      }
      if chatID !in rows {
        return Err(NotFound);
      }
      r := Ok(rows[chatID].chat);
    }

    method Create(chat: Chat, now: Instant, dbNow: Instant) returns (r: Outcome<Chat>)
      modifies this
      ensures Stored(rows, r) == CreateChat(old(rows), chat, now, dbNow)
    {
      var next := NormalizeChat(chat);
      if next.Err? {
        return Err(next.code);
      }
      var stored := next.value.(createdAt := now, updatedAt := now);
      if stored.chatID in rows {
        return Err(AlreadyExists);
      }
      rows := rows[stored.chatID := ChatRow(stored, dbNow)];
      r := Ok(stored);
    }

    method Update(chat: Chat, now: Instant, dbNow: Instant) returns (r: Outcome<Chat>)
      modifies this
      ensures Stored(rows, r) == UpdateChat(old(rows), chat, now, dbNow)
    {
      var next := NormalizeChat(chat);
      if next.Err? {
        return Err(next.code);
      }
      var current := Get(next.value.chatID);
      if current.Err? {
        return Err(current.code);
      }
      var stored := next.value.(createdAt := current.value.createdAt, updatedAt := now);
      rows := rows[stored.chatID := ChatRow(stored, dbNow)];
      r := Ok(stored);
    }
  }

  // ---------------------------------------------------------------- keys and tokens

  datatype Key = Key(updatedAt: Instant, id: string)

  function KeyOf(row: ChatRow): Key { Key(row.updatedAt, row.chat.chatID) }

  /** (updated_at, id) descending. */
  predicate Before(collation: (string, string) -> bool, a: Key, b: Key) {
    a.updatedAt > b.updatedAt || (a.updatedAt == b.updatedAt && collation(b.id, a.id))
  }

  /** Any order of texts, which is what a database collation is, orders the keys. */
  ghost function Order(collation: (string, string) -> bool): (order: (Key, Key) -> bool)
    requires StrictOrder(collation)
    ensures StrictOrder(order)
  {
    (a, b) => Before(collation, a, b)
  }

  function EncodeToken(codec: Codec, key: Key): string {
    codec.encode(codec.format(key.updatedAt) + "|" + TrimSpace(key.id))
  }

  function ParseToken(codec: Codec, raw: string): Outcome<Option<Key>> {
    var token := TrimSpace(raw);
    if token == "" then Ok(None) else
    match codec.decode(token)
    case None => Err(InvalidArgument)
    case Some(payload) =>
      match CutAt(payload, '|')
      case None => Err(InvalidArgument)
      case Some((time, id)) =>
        if TrimSpace(id) == "" then Err(InvalidArgument) else
        match codec.parse(time)
        case None => Err(InvalidArgument)
        case Some(updatedAt) => Ok(Some(Key(updatedAt, id)))
  }

  /** A chat's token parses back whatever characters its id has: only the first '|' separates. */
  lemma TokenRoundTripIff(codec: Codec, key: Key)
    requires Lawful(codec) && key.id != "" && Trimmed(key.id)
    ensures EncodeToken(codec, key) != ""
    ensures ParseToken(codec, EncodeToken(codec, key)) == Ok(Some(key)) <==> Printable(key.updatedAt)
  {
    var payload := codec.format(key.updatedAt) + "|" + TrimSpace(key.id);
    TrimSpaceTrims(key.id);
    TrimSpaceTrims(codec.encode(payload));
    assert payload != "";
    SplitJoined(codec.format(key.updatedAt), key.id, '|');
  }

  // ---------------------------------------------------------------- pages

  function PageSize(requested: int): Limit { PageLimit(requested, DEFAULT_PAGE_SIZE, MAX_PAGE_SIZE) }

  ghost function ChatPaging(codec: Codec, collation: (string, string) -> bool): (paging: Paging<Key>)
    requires StrictOrder(collation)
    ensures StrictOrder(paging.before)
  {
    Paging(Order(collation), k => EncodeToken(codec, k), t => ParseToken(codec, t))
  }

  function KeysOf(chats: Chats, scopeID: string): set<Key> {
    set id | id in chats && chats[id].chat.scopeID == scopeID :: KeyOf(chats[id])
  }

  /** The chats of a scope, by sort key. */
  function RowsOf(chats: Chats, scopeID: string): map<Key, ChatRow>
    requires ChatsInv(chats)
  {
    map k | k in KeysOf(chats, scopeID) :: chats[k.id]
  }

  lemma RowsAreKeyed(chats: Chats, scopeID: string)
    requires ChatsInv(chats)
    ensures forall k <- RowsOf(chats, scopeID) ::
              KeyOf(RowsOf(chats, scopeID)[k]) == k && k.id != "" && Trimmed(k.id)
                && RowsOf(chats, scopeID)[k].chat.scopeID == scopeID
  {
  }

  ghost function ListPage(codec: Codec, collation: (string, string) -> bool, chats: Chats, rawScope: string,
                          pageSize: int, token: string)
    : Outcome<Listing<ChatRow>>
    requires StrictOrder(collation) && ChatsInv(chats)
  {
    List(ChatPaging(codec, collation), RowsOf(chats, FirstNonEmpty([rawScope, DEFAULT_SCOPE])), PageSize(pageSize),
         token)
  }

  function ChatsIn(rows: seq<ChatRow>): (chats: seq<Chat>)
    ensures |chats| == |rows|
  {
    seq(|rows|, i requires 0 <= i < |rows| => rows[i].chat)
  }

  /** A page shows the chats of its rows. */
  function ChatListing(page: Outcome<Listing<ChatRow>>): Outcome<Listing<Chat>> {
    match page
    case Err(code) => Err(code)
    case Ok(listing) => Ok(Listing(ChatsIn(listing.rows), listing.next))
  }

  lemma PageFromQuery(codec: Codec, collation: (string, string) -> bool, chats: Chats, scopeID: string, limit: Limit,
                      cursor: Option<Key>, token: string)
    requires StrictOrder(collation) && ChatsInv(chats) && ParseToken(codec, token) == Ok(cursor)
    ensures var rows := Query(Order(collation), RowsOf(chats, scopeID), cursor, limit + 1);
            List(ChatPaging(codec, collation), RowsOf(chats, scopeID), limit, token)
            == Ok(if |rows| <= limit then Listing(rows, "")
                  else Listing(rows[..limit], EncodeToken(codec, KeyOf(rows[limit - 1]))))
  {
    RowsAreKeyed(chats, scopeID);
    assert Keyed(KeyOf, [RowsOf(chats, scopeID)]);
    QueryGivesPage(ChatPaging(codec, collation), KeyOf, RowsOf(chats, scopeID), cursor, limit, token);
  }

  /** The chats of the rows that fit the page. */
  method ScanChats(rows: seq<ChatRow>, limit: Limit) returns (out: seq<Chat>)
    ensures out == ChatsIn(FirstOf(rows, limit))
  {
    out := [];
    var i := 0;
    while i < |rows|
      invariant i <= |rows| && i <= limit
      invariant out == ChatsIn(rows[..i])
    {
      if i >= limit {
        break;
      }
      out := out + [rows[i].chat];
      i := i + 1;
    }
    assert rows[..i] == FirstOf(rows, limit);
  }

  /** List: scans the query's rows and keeps the chats that fit the page. */
  method ListChats(codec: Codec, rows: seq<ChatRow>, rawScope: string, pageSize: int, token: string,
                   ghost collation: (string, string) -> bool, ghost chats: Chats)
    returns (r: Outcome<Listing<Chat>>)
    requires StrictOrder(collation) && ChatsInv(chats)
    requires ParseToken(codec, token).Ok? ==>
               rows == Query(Order(collation), RowsOf(chats, FirstNonEmpty([rawScope, DEFAULT_SCOPE])),
                             ParseToken(codec, token).value, PageSize(pageSize) + 1)
    ensures r == ChatListing(ListPage(codec, collation, chats, rawScope, pageSize, token))
  {
    var limit := PageSize(pageSize);
    var cursor := ParseToken(codec, token);
    if cursor.Err? {
      return Err(cursor.code);
    }
    PageFromQuery(codec, collation, chats, FirstNonEmpty([rawScope, DEFAULT_SCOPE]), limit, cursor.value, token);
    var out := ScanChats(rows, limit);
    if |rows| <= limit {
      return Ok(Listing(out, ""));
    }
    r := Ok(Listing(out, EncodeToken(codec, KeyOf(rows[limit - 1]))));
  }

  // ---------------------------------------------------------------- walks

  ghost predicate WalkReady(tables: seq<Chats>) {
    forall i :: 0 <= i < |tables| ==>
        ChatsInv(tables[i]) && forall id <- tables[i] :: Printable(tables[i][id].updatedAt)
  }

  function ScopeRows(tables: seq<Chats>, scopeID: string): (rows: seq<map<Key, ChatRow>>)
    requires forall i :: 0 <= i < |tables| ==> ChatsInv(tables[i])
    ensures |rows| == |tables|
  {
    seq(|tables|, i requires 0 <= i < |tables| => RowsOf(tables[i], scopeID))
  }

  lemma ChatTokensRoundTrip(codec: Codec, collation: (string, string) -> bool, tables: seq<Chats>, scopeID: string)
    requires Lawful(codec) && StrictOrder(collation) && WalkReady(tables)
    ensures AllRoundTrip(ChatPaging(codec, collation), ScopeRows(tables, scopeID))
            && Keyed(KeyOf, ScopeRows(tables, scopeID))
  {
    var rows := ScopeRows(tables, scopeID);
    forall i, k | 0 <= i < |rows| && k in rows[i]
      ensures RoundTrips(ChatPaging(codec, collation), k) && KeyOf(rows[i][k]) == k {
      TokenRoundTripIff(codec, k);
    }
  }

  /** A chat nobody touched between the pages is listed exactly once, whatever happens to the others. */
  lemma UntouchedChatListedOnce(codec: Codec, collation: (string, string) -> bool, tables: seq<Chats>, sizes: seq<int>,
                                row: ChatRow)
    requires Lawful(codec) && StrictOrder(collation) && WalkReady(tables) && |tables| == |sizes|
    requires forall i :: 0 <= i < |tables| ==> row.chat.chatID in tables[i] && tables[i][row.chat.chatID] == row
    ensures var walk := TokensWalked(ChatPaging(codec, collation), ScopeRows(tables, row.chat.scopeID),
                                     PageLimits(PageSize, sizes));
            !walk.failed && (walk.finished ==> multiset(walk.rows)[row] == 1)
  {
    var paging, scoped := ChatPaging(codec, collation), ScopeRows(tables, row.chat.scopeID);
    ChatTokensRoundTrip(codec, collation, tables, row.chat.scopeID);
    TokensFollowKeys(paging, scoped, PageLimits(PageSize, sizes));
    if TokensWalked(paging, scoped, PageLimits(PageSize, sizes)).finished {
      forall i | 0 <= i < |scoped| ensures KeyOf(row) in scoped[i] && scoped[i][KeyOf(row)] == row {
        assert KeyOf(row) in KeysOf(tables[i], row.chat.scopeID);
      }
      UntouchedRowListedOnce(paging, KeyOf, scoped, PageLimits(PageSize, sizes), row);
    }
  }

  /** Without writes in between, any page sizes list the scope's chats newest first, and the walk ends. */
  lemma ChatsInOrder(codec: Codec, collation: (string, string) -> bool, chats: Chats, scopeID: string, sizes: seq<int>)
    requires Lawful(codec) && StrictOrder(collation) && WalkReady([chats]) && sizes != []
    ensures ChatsInv(chats)
    ensures var rows := RowsOf(chats, scopeID);
            var walk := TokensWalked(ChatPaging(codec, collation), seq(|sizes|, _ => rows),
                                     PageLimits(PageSize, sizes));
            && !walk.failed && (|sizes| > |rows| ==> walk.finished)
            && (forall k <- Sort(Order(collation), rows.Keys) :: k in rows)
            && (walk.finished ==> walk.rows == Pick(rows, Sort(Order(collation), rows.Keys)))
  {
    assert [chats][0] == chats;
    ChatTokensRoundTrip(codec, collation, [chats], scopeID);
    assert ScopeRows([chats], scopeID) == [RowsOf(chats, scopeID)];
    UnchangedRowsInOrder(ChatPaging(codec, collation), RowsOf(chats, scopeID), PageLimits(PageSize, sizes));
  }

  // ---------------------------------------------------------------- newest first

  predicate Newer(collation: (string, string) -> bool, a: ChatRow, b: ChatRow) {
    || a.updatedAt > b.updatedAt
    || (a.updatedAt == b.updatedAt && collation(b.chat.chatID, a.chat.chatID))
  }

  predicate NewestFirst(collation: (string, string) -> bool, rows: seq<ChatRow>) {
    forall i, j :: 0 <= i < j < |rows| ==> Newer(collation, rows[i], rows[j])
  }

  /** The chat's row comes after the cursor of the page before. */
  predicate ListedAfter(collation: (string, string) -> bool, cursor: Option<Key>, row: ChatRow) {
    || cursor.None?
    || row.updatedAt < cursor.value.updatedAt
    || (row.updatedAt == cursor.value.updatedAt && collation(row.chat.chatID, cursor.value.id))
  }

  /** Stored chats of the scope behind the cursor, and none left out but those older than the last one. */
  ghost predicate ShowsScope(collation: (string, string) -> bool, chats: Chats, scopeID: string, cursor: Option<Key>,
                             page: Listing<ChatRow>) {
    && (forall row <- page.rows ::
          && row.chat.chatID in chats && chats[row.chat.chatID] == row && row.chat.scopeID == scopeID
          && ListedAfter(collation, cursor, row))
    && (forall id <- chats :: chats[id].chat.scopeID == scopeID && ListedAfter(collation, cursor, chats[id]) ==>
          || chats[id] in page.rows
          || (page.next != "" && page.rows != [] && Newer(collation, page.rows[|page.rows| - 1], chats[id])))
  }

  lemma ScopeRow(chats: Chats, scopeID: string, id: string)
    requires ChatsInv(chats) && id in chats && chats[id].chat.scopeID == scopeID
    ensures KeyOf(chats[id]) in RowsOf(chats, scopeID) && RowsOf(chats, scopeID)[KeyOf(chats[id])] == chats[id]
  {
    assert KeyOf(chats[id]) in KeysOf(chats, scopeID);
  }

  lemma PageShowsScope(collation: (string, string) -> bool, paging: Paging<Key>, chats: Chats, scopeID: string,
                       cursor: Option<Key>, limit: Limit, page: Listing<ChatRow>)
    requires StrictOrder(collation) && ChatsInv(chats) && paging.before == Order(collation)
    requires IsPage(paging, KeyOf, RowsOf(chats, scopeID), cursor, limit, page)
    ensures ShowsScope(collation, chats, scopeID, cursor, page) && NewestFirst(collation, page.rows)
  {
    RowsAreKeyed(chats, scopeID);
    forall id <- chats | chats[id].chat.scopeID == scopeID && ListedAfter(collation, cursor, chats[id])
      ensures || chats[id] in page.rows
              || (page.next != "" && page.rows != [] && Newer(collation, page.rows[|page.rows| - 1], chats[id]))
    {
      ScopeRow(chats, scopeID, id);
      assert Beyond(paging.before, cursor, KeyOf(chats[id]));
    }
    forall i, j | 0 <= i < j < |page.rows| ensures Newer(collation, page.rows[i], page.rows[j]) {
      assert paging.before(KeyOf(page.rows[i]), KeyOf(page.rows[j]));
    }
  }

  lemma ChatTokensEncode(codec: Codec, paging: Paging<Key>, rows: map<Key, ChatRow>)
    requires Lawful(codec) && forall k :: paging.encode(k) == EncodeToken(codec, k)
    requires forall k <- rows :: k.id != "" && Trimmed(k.id)
    ensures forall k <- rows :: paging.encode(k) != ""
  {
    forall k <- rows ensures paging.encode(k) != "" {
      TokenRoundTripIff(codec, k);
    }
  }

  lemma ScopePage(codec: Codec, collation: (string, string) -> bool, chats: Chats, scopeID: string, limit: Limit,
                  token: string, page: Listing<ChatRow>)
    requires Lawful(codec) && StrictOrder(collation) && ChatsInv(chats)
    requires List(ChatPaging(codec, collation), RowsOf(chats, scopeID), limit, token) == Ok(page)
    ensures ParseToken(codec, token).Ok? && NewestFirst(collation, page.rows)
    ensures ShowsScope(collation, chats, scopeID, ParseToken(codec, token).value, page)
    ensures |page.rows| <= limit && (page.next != "" ==> |page.rows| == limit)
  {
    var paging, rows := ChatPaging(codec, collation), RowsOf(chats, scopeID);
    RowsAreKeyed(chats, scopeID);
    assert Keyed(KeyOf, [rows]);
    ChatTokensEncode(codec, paging, rows);
    ListedPage(paging, KeyOf, rows, limit, token, page);
    assert paging.parse(token) == ParseToken(codec, token);
    PageShowsScope(collation, paging, chats, scopeID, ParseToken(codec, token).value, limit, page);
  }

  lemma ScopeOf(rawScope: string)
    ensures FirstNonEmpty([rawScope, DEFAULT_SCOPE])
            == if TrimSpace(rawScope) == "" then "default" else TrimSpace(rawScope)
  {
    FirstOfTwo(rawScope, DEFAULT_SCOPE);
    TrimSpaceTrims(DEFAULT_SCOPE);
  }

  /**
   * A page holds stored chats of the scope asked for, "default" if it is
   * blank, newest first and behind the token's cursor; it leaves out none but
   * those older than its last one, and then it is full and has a next token.
   */
  lemma PageIsNewestFirst(codec: Codec, collation: (string, string) -> bool, chats: Chats, rawScope: string,
                          pageSize: int, token: string, page: Listing<ChatRow>)
    requires Lawful(codec) && StrictOrder(collation) && ChatsInv(chats)
    requires ListPage(codec, collation, chats, rawScope, pageSize, token) == Ok(page)
    ensures ParseToken(codec, token).Ok? && NewestFirst(collation, page.rows)
    ensures ShowsScope(collation, chats, if TrimSpace(rawScope) == "" then "default" else TrimSpace(rawScope),
                       ParseToken(codec, token).value, page)
    ensures var limit := if pageSize <= 0 then 20 else if pageSize > 100 then 100 else pageSize;
            |page.rows| <= limit && (page.next != "" ==> |page.rows| == limit)
  {
    ScopeOf(rawScope);
    ScopePage(codec, collation, chats, FirstNonEmpty([rawScope, DEFAULT_SCOPE]), PageSize(pageSize), token, page);
  }

  /** A walk lists the chats newest first, as they were when their page was read, whatever happens in between. */
  lemma WalkIsNewestFirst(codec: Codec, collation: (string, string) -> bool, tables: seq<Chats>, scopeID: string,
                          sizes: seq<int>)
    requires Lawful(codec) && StrictOrder(collation) && WalkReady(tables) && |tables| == |sizes|
    ensures NewestFirst(collation, TokensWalked(ChatPaging(codec, collation), ScopeRows(tables, scopeID),
                                                PageLimits(PageSize, sizes)).rows)
  {
    var paging := ChatPaging(codec, collation);
    ChatTokensRoundTrip(codec, collation, tables, scopeID);
    WalkedRowsInOrder(paging, KeyOf, ScopeRows(tables, scopeID), PageLimits(PageSize, sizes));
    var rows := TokensWalked(paging, ScopeRows(tables, scopeID), PageLimits(PageSize, sizes)).rows;
    forall i, j | 0 <= i < j < |rows| ensures Newer(collation, rows[i], rows[j]) {
      assert paging.before(KeyOf(rows[i]), KeyOf(rows[j]));
    }
  }

  lemma ScopeWalk(codec: Codec, collation: (string, string) -> bool, chats: Chats, scopeID: string, sizes: seq<int>,
                  walk: TokenWalk<ChatRow>)
    requires Lawful(codec) && StrictOrder(collation) && WalkReady([chats]) && ChatsInv(chats)
    requires walk == TokensWalked(ChatPaging(codec, collation), seq(|sizes|, _ => RowsOf(chats, scopeID)),
                                  PageLimits(PageSize, sizes))
    ensures walk.finished ==>
              forall row <- walk.rows ::
                row.chat.chatID in chats && chats[row.chat.chatID] == row && row.chat.scopeID == scopeID
  {
    if walk.finished {
      ChatsInOrder(codec, collation, chats, scopeID, sizes);
      RowsAreKeyed(chats, scopeID);
    }
  }

  /** A finished walk of an unchanged table lists the scope's chats, each once and nothing else, newest first. */
  lemma ChatsNewestFirst(codec: Codec, collation: (string, string) -> bool, chats: Chats, scopeID: string,
                         sizes: seq<int>, walk: TokenWalk<ChatRow>)
    requires Lawful(codec) && StrictOrder(collation) && ChatsInv(chats)
    requires forall id <- chats :: Printable(chats[id].updatedAt)
    requires walk == TokensWalked(ChatPaging(codec, collation), ScopeRows(seq(|sizes|, _ => chats), scopeID),
                                  PageLimits(PageSize, sizes))
    ensures NewestFirst(collation, walk.rows)
    ensures walk.finished ==>
              forall row <- walk.rows ::
                row.chat.chatID in chats && chats[row.chat.chatID] == row && row.chat.scopeID == scopeID
    ensures walk.finished ==>
              forall id <- chats :: chats[id].chat.scopeID == scopeID ==> multiset(walk.rows)[chats[id]] == 1
  {
    var tables := seq(|sizes|, _ => chats);
    assert WalkReady(tables);
    assert ScopeRows(tables, scopeID) == seq(|sizes|, _ => RowsOf(chats, scopeID));
    WalkIsNewestFirst(codec, collation, tables, scopeID, sizes);
    ScopeWalk(codec, collation, chats, scopeID, sizes, walk) by {
      assert [chats][0] == chats;
    }
    if walk.finished {
      forall id <- chats | chats[id].chat.scopeID == scopeID ensures multiset(walk.rows)[chats[id]] == 1 {
        UntouchedChatListedOnce(codec, collation, tables, sizes, chats[id]);
      }
    }
  }
}
