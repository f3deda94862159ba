/** The durable messages of a session: upserts, pages and page tokens. */
module TurnMessages {
  import opened Text
  import opened Decimal
  import opened SessionTypes
  import opened PageTokens
  import opened Keyset
  import opened KeysetTokens
  import opened MessageBodies

  const DEFAULT_PAGE_SIZE := 200
  const MAX_PAGE_SIZE := 500

  /** One row of platform_session_turn_messages. */
  datatype TurnMessage = TurnMessage(
    sessionID: string, turnID: string, runID: string, messageID: string,
    body: string, sequence: int, createdAt: Instant)

  datatype Upsert = Upsert(
    sessionID: string, turnID: string, runID: string, messageID: string,
    body: string, sequence: int, createdAt: Option<Instant>)

  /** The primary key is (session_id, message_id). */
  type Table = map<(string, string), TurnMessage>

  // ---------------------------------------------------------------- upserts

  /** NormalizeTurnMessage: the ids are trimmed, and the body is read and printed again. */
  function Normalize(mc: MessageCodec, m: Upsert): Outcome<Upsert> {
    var sessionID, messageID, body := TrimSpace(m.sessionID), TrimSpace(m.messageID), NormalizeBody(mc, m.body);
    if sessionID == "" || m.sequence < 0 || body.None? then Err(InvalidArgument)
    else Ok(Upsert(sessionID, TrimSpace(m.turnID), TrimSpace(m.runID),
                   if messageID == "" then body.value.id else messageID, body.value.text, m.sequence, m.createdAt))
  }

  /** insert ... on conflict do update: the creation time of an existing row stays. */
  function Inserted(table: Table, m: Upsert, now: Instant): Table {
    var key := (m.sessionID, m.messageID);
    var createdAt := if key in table then table[key].createdAt else if m.createdAt.Some? then m.createdAt.value
        else now;
    table[key := TurnMessage(m.sessionID, m.turnID, m.runID, m.messageID, m.body, m.sequence, createdAt)]
  }

  function Upserted(mc: MessageCodec, table: Table, m: Upsert, now: Instant): Table {
    match Normalize(mc, m)
    case Err(_) => table
    case Ok(normalized) => Inserted(table, normalized, now)
  }

  predicate CleanRow(key: (string, string), row: TurnMessage) {
    && key == (row.sessionID, row.messageID)
    && row.sessionID != "" && Trimmed(row.sessionID) && row.messageID != "" && Trimmed(row.messageID)
    && row.sequence >= 0
  }

  predicate TableInv(table: Table) { forall key <- table :: CleanRow(key, table[key]) }

  /** Upserts keep stored keys trimmed, keep creation times, and touch only the row they name. */
  lemma UpsertKeepsTable(mc: MessageCodec, table: Table, m: Upsert, now: Instant)
    requires TableInv(table)
    ensures TableInv(Upserted(mc, table, m, now))
    ensures forall key <- table :: key in Upserted(mc, table, m, now)
              && Upserted(mc, table, m, now)[key].createdAt == table[key].createdAt
    ensures Normalize(mc, m).Ok? ==>
              forall key <- table :: key != (Normalize(mc, m).value.sessionID, Normalize(mc, m).value.messageID) ==>
                Upserted(mc, table, m, now)[key] == table[key]
  {
    TrimSpaceTrims(m.sessionID);
    TrimSpaceTrims(m.messageID);
    BodyOfMessage(mc, m.body);
  }

  /** The body reads as a message that is valid once its id and role are trimmed, and whose id is then not empty. */
  predicate IsMessage(mc: MessageCodec, body: string) {
    && body != "" && mc.decode(body).Some? && TrimSpace(mc.decode(body).value.id) != ""
    && mc.valid(TrimmedMessage(mc.decode(body).value))
  }

  function TrimmedMessage(message: AguiMessage): AguiMessage {
    message.(id := TrimSpace(message.id), role := TrimSpace(message.role))
  }

  /**
   * An upsert is accepted exactly when it names a session, its sequence is not
   * negative and its body is a message. Then the row of its id, or of the
   * message's own id if it has none, holds what was given, with the text
   * printed again and the creation time the row had before; every other row
   * and, when it is refused, the whole table stays as it was.
   */
  lemma UpsertStores(mc: MessageCodec, table: Table, m: Upsert, now: Instant)
    ensures Normalize(mc, m).Ok? <==> TrimSpace(m.sessionID) != "" && m.sequence >= 0 && IsMessage(mc, m.body)
    ensures Normalize(mc, m).Err? ==>
              Normalize(mc, m) == Err(InvalidArgument) && Upserted(mc, table, m, now) == table
    ensures Normalize(mc, m).Ok? ==>
              var message := TrimmedMessage(mc.decode(m.body).value);
              var id := if TrimSpace(m.messageID) != "" then TrimSpace(m.messageID) else message.id;
              var key := (TrimSpace(m.sessionID), id);
              Upserted(mc, table, m, now)
              == table[key := TurnMessage(key.0, TrimSpace(m.turnID), TrimSpace(m.runID), key.1, mc.marshal(message),
                                          m.sequence,
                                          if key in table then table[key].createdAt
                                          else if m.createdAt.Some? then m.createdAt.value else now)]
  {
    if mc.decode(m.body).Some? {
      TrimSpaceTrims(mc.decode(m.body).value.id);
      TrimSpaceTrims(mc.decode(m.body).value.role);
    }
  }

  /** Every stored text is its own normal form, and every stored id is trimmed. */
  predicate Settled(mc: MessageCodec, table: Table) {
    forall key <- table ::
      && Trimmed(table[key].turnID) && Trimmed(table[key].runID)
      && NormalizeBody(mc, table[key].body).Some? && NormalizeBody(mc, table[key].body).value.text == table[key].body
  }

  lemma UpsertKeepsSettled(mc: MessageCodec, table: Table, m: Upsert, now: Instant)
    requires Faithful(mc) && Settled(mc, table)
    ensures Settled(mc, Upserted(mc, table, m, now))
  {
    TrimSpaceTrims(m.turnID);
    TrimSpaceTrims(m.runID);
    if NormalizeBody(mc, m.body).Some? {
      StoredTextIsStable(mc, m.body);
    }
  }

  datatype Write = Write(upsert: Upsert, now: Instant)

  /** The messages after any upserts, one after the other. */
  function UpsertedAll(mc: MessageCodec, writes: seq<Write>): Table {
    if writes == [] then map[] else
    var last := writes[|writes| - 1];
    Upserted(mc, UpsertedAll(mc, writes[..|writes| - 1]), last.upsert, last.now)
  }

  lemma {:induction false} UpsertsKeepTable(mc: MessageCodec, writes: seq<Write>)
    requires Faithful(mc)
    ensures TableInv(UpsertedAll(mc, writes)) && Settled(mc, UpsertedAll(mc, writes))
  {
    if writes != [] {
      var before, last := writes[..|writes| - 1], writes[|writes| - 1];
      UpsertsKeepTable(mc, before);
      UpsertKeepsTable(mc, UpsertedAll(mc, before), last.upsert, last.now);
      UpsertKeepsSettled(mc, UpsertedAll(mc, before), last.upsert, last.now);
    }
  }

  /** The upsert that sends a stored message back. */
  function SentBack(row: TurnMessage, createdAt: Option<Instant>): Upsert {
    Upsert(row.sessionID, row.turnID, row.runID, row.messageID, row.body, row.sequence, createdAt)
  }

  /** After any upserts, sending a stored message back changes nothing, whatever time is sent with it. */
  lemma SendingBackChangesNothing(mc: MessageCodec, writes: seq<Write>, key: (string, string),
                                  createdAt: Option<Instant>, now: Instant)
    requires Faithful(mc) && key in UpsertedAll(mc, writes)
    ensures var table := UpsertedAll(mc, writes);
            Upserted(mc, table, SentBack(table[key], createdAt), now) == table
  {
    var row := UpsertedAll(mc, writes)[key];
    UpsertsKeepTable(mc, writes);
    TrimSpaceTrims(row.sessionID);
    TrimSpaceTrims(row.turnID);
    TrimSpaceTrims(row.runID);
    TrimSpaceTrims(row.messageID);
  }

  // ---------------------------------------------------------------- keys and tokens

  datatype Key = Key(createdAt: Instant, sequence: int, messageID: string)

  function KeyOf(row: TurnMessage): Key { Key(row.createdAt, row.sequence, row.messageID) }

  /** (created_at, sequence, message_id) ascending; texts compare by the database collation. */
  predicate Before(collation: (string, string) -> bool, a: Key, b: Key) {
    || a.createdAt < b.createdAt
    || (a.createdAt == b.createdAt && a.sequence < b.sequence)
    || (a.createdAt == b.createdAt && a.sequence == b.sequence && collation(a.messageID, b.messageID))
  }

  /** Any order of texts, which is what a database collation is, orders the keys. */
  ghost function Order(collation: (string, string) -> bool): (order: (Key, Key) -> bool)
    requires StrictOrder(collation)
    ensures StrictOrder(order)
  {
    (a, b) => Before(collation, a, b)
  }

  function EncodeToken(codec: Codec, key: Key): string {
    codec.encode(codec.format(key.createdAt) + "|" + FormatInt(key.sequence) + "|" + TrimSpace(key.messageID))
  }

  function ParseFields(codec: Codec, parts: seq<string>): Outcome<Option<Key>> {
    if |parts| != 3 || TrimSpace(parts[2]) == "" then Err(InvalidArgument) else
    match codec.parse(parts[0])
    case None => Err(InvalidArgument)
    case Some(createdAt) =>
      match ParseInt(parts[1])
      case None => Err(InvalidArgument)
      case Some(sequence) => Ok(Some(Key(createdAt, sequence, parts[2])))
  }

  function ParseToken(codec: Codec, raw: string): Outcome<Option<Key>> {
    var token := TrimSpace(raw);
    if token == "" then Ok(None) else
    match codec.decode(token)
    case None => Err(InvalidArgument)
    case Some(payload) => ParseFields(codec, Split(payload, '|'))
  }

  lemma PayloadSplits(codec: Codec, key: Key, payload: string)
    requires Lawful(codec) && payload
             == codec.format(key.createdAt) + "|" + FormatInt(key.sequence) + "|" + TrimSpace(key.messageID)
    ensures Split(payload, '|')
            == [codec.format(key.createdAt)] + ([FormatInt(key.sequence)] + Split(TrimSpace(key.messageID), '|'))
  {
    FormatIntPlain(key.sequence);
    SplitThree(codec.format(key.createdAt), FormatInt(key.sequence), TrimSpace(key.messageID), '|');
  }

  /** What stored keys look like: trimmed, non-empty ids and 64-bit sequences. */
  predicate StoredKey(key: Key) { key.messageID != "" && Trimmed(key.messageID) && IsInt64(key.sequence) }

  /** A stored key's token parses back to the key exactly when the id has no '|' and the time has a four-digit year. */
  lemma TokenRoundTripIff(codec: Codec, key: Key)
    requires Lawful(codec) && StoredKey(key)
    ensures EncodeToken(codec, key) != ""
    ensures ParseToken(codec, EncodeToken(codec, key)) == Ok(Some(key))
            <==> '|' !in key.messageID && Printable(key.createdAt)
    ensures ParseToken(codec, EncodeToken(codec, key)) != Ok(Some(key)) ==>
              ParseToken(codec, EncodeToken(codec, key)) == Err(InvalidArgument)
  {
    var payload := codec.format(key.createdAt) + "|" + FormatInt(key.sequence) + "|" + TrimSpace(key.messageID);
    TrimSpaceTrims(key.messageID);
    TrimSpaceTrims(codec.encode(payload));
    assert payload != "";
    PayloadSplits(codec, key, payload);
    SplitAlone(key.messageID, '|');
    ParseIntFormatInt(key.sequence);
  }

  // ---------------------------------------------------------------- pages

  /** normalizeTurnMessagePageSize. */
  function PageSize(requested: int): Limit { PageLimit(requested, DEFAULT_PAGE_SIZE, MAX_PAGE_SIZE) }

  ghost function MessagePaging(codec: Codec, collation: (string, string) -> bool): (paging: Paging<Key>)
    requires StrictOrder(collation)
    ensures StrictOrder(paging.before)
  {
    Paging(Order(collation), k => EncodeToken(codec, k), t => ParseToken(codec, t))
  }

  function KeysOf(table: Table, sessionID: string): set<Key> {
    set key | key in table && key.0 == sessionID :: KeyOf(table[key])
  }

  /** where session_id = $1, by sort key */
  function RowsOf(table: Table, sessionID: string): map<Key, TurnMessage>
    requires TableInv(table)
  {
    map k | k in KeysOf(table, sessionID) :: table[(sessionID, k.messageID)]
  }

  /** ListTurnMessages. */
  ghost function ListPage(codec: Codec, collation: (string, string) -> bool, table: Table, rawID: string,
                          pageSize: int, token: string)
    : Outcome<Listing<TurnMessage>>
    requires StrictOrder(collation) && TableInv(table)
  {
    if TrimSpace(rawID) == "" then Err(InvalidArgument)
    else List(MessagePaging(codec, collation), RowsOf(table, TrimSpace(rawID)), PageSize(pageSize), token)
  }

  lemma RowsAreKeyed(table: Table, sessionID: string)
    requires TableInv(table)
    ensures forall k <- RowsOf(table, sessionID) :: KeyOf(RowsOf(table, sessionID)[k]) == k
              && RowsOf(table, sessionID)[k].sessionID == sessionID
  {
  }

  method ScanMessages(rows: seq<TurnMessage>) returns (messages: seq<TurnMessage>)
    ensures messages == rows
  {
    messages := [];
    for i := 0 to |rows|
      invariant messages == rows[..i]
    {
      messages := messages + [rows[i]];
    }
  }

  method ListTurnMessages(codec: Codec, rows: seq<TurnMessage>, rawID: string, pageSize: int, token: string,
                          ghost collation: (string, string) -> bool, ghost table: Table)
    returns (r: Outcome<Listing<TurnMessage>>)
    requires StrictOrder(collation) && TableInv(table)
    requires ParseToken(codec, token).Ok? ==>
               rows == Query(Order(collation), RowsOf(table, TrimSpace(rawID)), ParseToken(codec, token).value,
                             PageSize(pageSize) + 1)
    ensures r == ListPage(codec, collation, table, rawID, pageSize, token)
  {
    var sessionID := TrimSpace(rawID);
    if sessionID == "" {
      return Err(InvalidArgument);
    }
    var limit := PageSize(pageSize);
    var cursor := ParseToken(codec, token);
    if cursor.Err? {
      return Err(cursor.code);
    }
    var messages := ScanMessages(rows);
    PageFromQuery(codec, collation, table, sessionID, limit, cursor.value, token);
    if |messages| <= limit {
      return Ok(Listing(messages, ""));
    }
    var last := messages[limit - 1];
    r := Ok(Listing(messages[..limit], EncodeToken(codec, KeyOf(last))));
  }

  lemma PageFromQuery(codec: Codec, collation: (string, string) -> bool, table: Table, sessionID: string, limit: Limit,
                      cursor: Option<Key>, token: string)
    requires StrictOrder(collation) && TableInv(table) && ParseToken(codec, token) == Ok(cursor)
    ensures var rows := Query(Order(collation), RowsOf(table, sessionID), cursor, limit + 1);
            List(MessagePaging(codec, collation), RowsOf(table, sessionID), limit, token)
            == Ok(if |rows| <= limit then Listing(rows, "")
                  else Listing(rows[..limit], EncodeToken(codec, KeyOf(rows[limit - 1]))))
  {
    RowsAreKeyed(table, sessionID);
    assert Keyed(KeyOf, [RowsOf(table, sessionID)]);
    QueryGivesPage(MessagePaging(codec, collation), KeyOf, RowsOf(table, sessionID), cursor, limit, token);
  }

  // ---------------------------------------------------------------- walks

  /** Ids without '|' and times with four-digit years: what page tokens can carry. */
  predicate Pageable(table: Table, sessionID: string) {
    forall key <- table :: key.0 == sessionID ==>
      '|' !in key.1 && Printable(table[key].createdAt) && IsInt64(table[key].sequence)
  }

  ghost predicate WalkReady(tables: seq<Table>, sessionID: string) {
    forall i :: 0 <= i < |tables| ==> TableInv(tables[i]) && Pageable(tables[i], sessionID)
  }

  function SessionRows(tables: seq<Table>, sessionID: string): (rows: seq<map<Key, TurnMessage>>)
    requires forall i :: 0 <= i < |tables| ==> TableInv(tables[i])
    ensures |rows| == |tables|
  {
    seq(|tables|, i requires 0 <= i < |tables| => RowsOf(tables[i], sessionID))
  }

  lemma MessageTokensRoundTrip(codec: Codec, collation: (string, string) -> bool, tables: seq<Table>, sessionID: string)
    requires Lawful(codec) && StrictOrder(collation) && WalkReady(tables, sessionID)
    ensures AllRoundTrip(MessagePaging(codec, collation), SessionRows(tables, sessionID))
    ensures Keyed(KeyOf, SessionRows(tables, sessionID))
  {
    var rows := SessionRows(tables, sessionID);
    forall i, k | 0 <= i < |rows| && k in rows[i]
      ensures RoundTrips(MessagePaging(codec, collation), k) && KeyOf(rows[i][k]) == k {
      TokenRoundTripIff(codec, k);
    }
  }

  /**
   * Walking a session's messages by page tokens while other messages are
   * inserted and upserted: the walk never fails, and a message left untouched
   * is listed exactly once.
   */
  lemma UntouchedMessageListedOnce(codec: Codec, collation: (string, string) -> bool, sessionID: string,
                                   tables: seq<Table>, sizes: seq<int>, message: TurnMessage)
    requires Lawful(codec) && StrictOrder(collation) && WalkReady(tables, sessionID) && |tables| == |sizes|
    requires message.sessionID == sessionID
    requires forall i :: 0 <= i < |tables| ==>
               (sessionID, message.messageID) in tables[i] && tables[i][(sessionID, message.messageID)] == message
    ensures var walk := TokensWalked(MessagePaging(codec, collation), SessionRows(tables, sessionID),
                                     PageLimits(PageSize, sizes));
            !walk.failed && (walk.finished ==> multiset(walk.rows)[message] == 1)
  {
    var paging, rows := MessagePaging(codec, collation), SessionRows(tables, sessionID);
    MessageTokensRoundTrip(codec, collation, tables, sessionID);
    TokensFollowKeys(paging, rows, PageLimits(PageSize, sizes));
    if TokensWalked(paging, rows, PageLimits(PageSize, sizes)).finished {
      forall i | 0 <= i < |rows| ensures KeyOf(message) in rows[i] && rows[i][KeyOf(message)] == message {
        assert KeyOf(message) in KeysOf(tables[i], sessionID);
      }
      UntouchedRowListedOnce(paging, KeyOf, rows, PageLimits(PageSize, sizes), message);
    }
  }

  /** Without writes in between, any page sizes list the session's messages in key order, and the walk ends. */
  lemma MessagesInOrder(codec: Codec, collation: (string, string) -> bool, sessionID: string, table: Table,
                        sizes: seq<int>)
    requires Lawful(codec) && StrictOrder(collation) && WalkReady([table], sessionID) && sizes != []
    ensures TableInv(table)
    ensures var rows := RowsOf(table, sessionID);
            var walk := TokensWalked(MessagePaging(codec, collation), seq(|sizes|, _ => rows),
                                     PageLimits(PageSize, sizes));
            && !walk.failed && (|sizes| > |rows| ==> walk.finished)
            && (forall k <- Sort(Order(collation), rows.Keys) :: k in rows)
            && (walk.finished ==> walk.rows == Pick(rows, Sort(Order(collation), rows.Keys)))
  {
    assert [table][0] == table;
    MessageTokensRoundTrip(codec, collation, [table], sessionID);
    assert SessionRows([table], sessionID) == [RowsOf(table, sessionID)];
    UnchangedRowsInOrder(MessagePaging(codec, collation), RowsOf(table, sessionID), PageLimits(PageSize, sizes));
  }

  // ---------------------------------------------------------------- oldest first

  predicate Older(collation: (string, string) -> bool, a: TurnMessage, b: TurnMessage) {
    || a.createdAt < b.createdAt
    || (a.createdAt == b.createdAt
        && (a.sequence < b.sequence || (a.sequence == b.sequence && collation(a.messageID, b.messageID))))
  }

  predicate OldestFirst(collation: (string, string) -> bool, rows: seq<TurnMessage>) {
    forall i, j :: 0 <= i < j < |rows| ==> Older(collation, rows[i], rows[j])
  }

  /** The message comes after the cursor of the page before. */
  predicate ListedAfter(collation: (string, string) -> bool, cursor: Option<Key>, row: TurnMessage) {
    || cursor.None?
    || row.createdAt > cursor.value.createdAt
    || (row.createdAt == cursor.value.createdAt
        && (row.sequence > cursor.value.sequence
            || (row.sequence == cursor.value.sequence && collation(cursor.value.messageID, row.messageID))))
  }

  /** Stored messages of the session behind the cursor, and none left out but those after the last one. */
  ghost predicate ShowsSession(collation: (string, string) -> bool, table: Table, sessionID: string,
                               cursor: Option<Key>, page: Listing<TurnMessage>) {
    && (forall row <- page.rows ::
          IsRow(table, sessionID, row) && row.sessionID == sessionID && ListedAfter(collation, cursor, row))
    && (forall key <- table :: key.0 == sessionID && ListedAfter(collation, cursor, table[key]) ==>
          || table[key] in page.rows
          || (page.next != "" && page.rows != [] && Older(collation, page.rows[|page.rows| - 1], table[key])))
  }

  lemma PageShowsSession(collation: (string, string) -> bool, paging: Paging<Key>, table: Table, sessionID: string,
                         cursor: Option<Key>, limit: Limit, page: Listing<TurnMessage>)
    requires StrictOrder(collation) && TableInv(table) && paging.before == Order(collation)
    requires IsPage(paging, KeyOf, RowsOf(table, sessionID), cursor, limit, page)
    ensures ShowsSession(collation, table, sessionID, cursor, page) && OldestFirst(collation, page.rows)
  {
    RowsAreKeyed(table, sessionID);
    forall key <- table | key.0 == sessionID && ListedAfter(collation, cursor, table[key])
      ensures || table[key] in page.rows
              || (page.next != "" && page.rows != [] && Older(collation, page.rows[|page.rows| - 1], table[key]))
    {
      assert KeyOf(table[key]) in KeysOf(table, sessionID);
      assert Beyond(paging.before, cursor, KeyOf(table[key]));
    }
    forall i, j | 0 <= i < j < |page.rows| ensures Older(collation, page.rows[i], page.rows[j]) {
      assert paging.before(KeyOf(page.rows[i]), KeyOf(page.rows[j]));
    }
  }

  lemma SessionPage(codec: Codec, collation: (string, string) -> bool, table: Table, sessionID: string, limit: Limit,
                    token: string, page: Listing<TurnMessage>)
    requires Lawful(codec) && StrictOrder(collation) && TableInv(table)
    requires forall key <- table :: IsInt64(table[key].sequence)
    requires List(MessagePaging(codec, collation), RowsOf(table, sessionID), limit, token) == Ok(page)
    ensures ParseToken(codec, token).Ok? && OldestFirst(collation, page.rows)
    ensures ShowsSession(collation, table, sessionID, ParseToken(codec, token).value, page)
    ensures |page.rows| <= limit && (page.next != "" ==> |page.rows| == limit)
  {
    var paging, rows := MessagePaging(codec, collation), RowsOf(table, sessionID);
    RowsAreKeyed(table, sessionID);
    assert Keyed(KeyOf, [rows]);
    StoredKeysEncode(codec, collation, table, sessionID);
    ListedPage(paging, KeyOf, rows, limit, token, page);
    assert paging.parse(token) == ParseToken(codec, token);
    PageShowsSession(collation, paging, table, sessionID, ParseToken(codec, token).value, limit, page);
  }

  /**
   * A page holds the session's stored messages behind the token's cursor, by
   * creation time, sequence and id; it leaves out none but those after its
   * last one, and then it is full and has a next token. A blank session id is
   * refused.
   */
  lemma PageIsOldestFirst(codec: Codec, collation: (string, string) -> bool, table: Table, rawID: string,
                          pageSize: int, token: string, reply: Outcome<Listing<TurnMessage>>)
    requires Lawful(codec) && StrictOrder(collation) && TableInv(table)
    requires forall key <- table :: IsInt64(table[key].sequence)
    requires reply == ListPage(codec, collation, table, rawID, pageSize, token)
    ensures reply.Ok? <==> TrimSpace(rawID) != "" && ParseToken(codec, token).Ok?
    ensures TrimSpace(rawID) == "" ==> reply == Err(InvalidArgument)
    ensures reply.Ok? ==>
              && OldestFirst(collation, reply.value.rows)
              && ShowsSession(collation, table, TrimSpace(rawID), ParseToken(codec, token).value, reply.value)
    ensures var limit := if pageSize <= 0 then 200 else if pageSize > 500 then 500 else pageSize;
            reply.Ok? ==> |reply.value.rows| <= limit && (reply.value.next != "" ==> |reply.value.rows| == limit)
  {
    if reply.Ok? {
      SessionPage(codec, collation, table, TrimSpace(rawID), PageSize(pageSize), token, reply.value);
    }
  }

  /** A walk lists the messages oldest first, as they were when their page was read, whatever happens in between. */
  lemma WalkIsOldestFirst(codec: Codec, collation: (string, string) -> bool, sessionID: string, tables: seq<Table>,
                          sizes: seq<int>)
    requires Lawful(codec) && StrictOrder(collation) && WalkReady(tables, sessionID) && |tables| == |sizes|
    ensures OldestFirst(collation, TokensWalked(MessagePaging(codec, collation), SessionRows(tables, sessionID),
                                                PageLimits(PageSize, sizes)).rows)
  {
    var paging := MessagePaging(codec, collation);
    MessageTokensRoundTrip(codec, collation, tables, sessionID);
    WalkedRowsInOrder(paging, KeyOf, SessionRows(tables, sessionID), PageLimits(PageSize, sizes));
    var rows := TokensWalked(paging, SessionRows(tables, sessionID), PageLimits(PageSize, sizes)).rows;
    forall i, j | 0 <= i < j < |rows| ensures Older(collation, rows[i], rows[j]) {
      assert paging.before(KeyOf(rows[i]), KeyOf(rows[j]));
    }
  }

  // ---------------------------------------------------------------- when the next page fails

  lemma LastKeyOfPage(codec: Codec, collation: (string, string) -> bool, table: Table, sessionID: string,
                      limit: Limit, token: string, page: Listing<TurnMessage>)
    requires Lawful(codec) && StrictOrder(collation) && TableInv(table) && forall key <- table ::
             IsInt64(table[key].sequence)
    requires List(MessagePaging(codec, collation), RowsOf(table, sessionID), limit, token) == Ok(page)
             && page.next != ""
    ensures page.rows != []
    ensures var k := KeyOf(page.rows[|page.rows| - 1]); StoredKey(k) && page.next == EncodeToken(codec, k)
  {
    RowsAreKeyed(table, sessionID);
    assert Keyed(KeyOf, [RowsOf(table, sessionID)]);
    TokenIsOfLastRow(MessagePaging(codec, collation), KeyOf, RowsOf(table, sessionID), limit, token, page);
    StoredKeys(table, sessionID, KeyOf(page.rows[|page.rows| - 1]));
  }

  lemma StoredKeys(table: Table, sessionID: string, k: Key)
    requires TableInv(table) && (forall key <- table :: IsInt64(table[key].sequence)) && k in RowsOf(table, sessionID)
    ensures StoredKey(k)
  {
  }

  /** The next call accepts a page's token exactly when the page's last id has no '|' and its time prints. */
  lemma NextPageFailsIff(codec: Codec, collation: (string, string) -> bool, table: Table, later: Table,
                         sessionID: string, pageSize: int, nextSize: int, token: string, page: Listing<TurnMessage>)
    requires Lawful(codec) && StrictOrder(collation) && TableInv(table) && TableInv(later)
    requires forall key <- table :: IsInt64(table[key].sequence)
    requires ListPage(codec, collation, table, sessionID, pageSize, token) == Ok(page) && page.next != ""
    ensures page.rows != []
    ensures ListPage(codec, collation, later, sessionID, nextSize, page.next).Ok?
            <==> '|' !in page.rows[|page.rows| - 1].messageID && Printable(page.rows[|page.rows| - 1].createdAt)
  {
    LastKeyOfPage(codec, collation, table, TrimSpace(sessionID), PageSize(pageSize), token, page);
    var k := KeyOf(page.rows[|page.rows| - 1]);
    TokenRoundTripIff(codec, k);
    assert ListPage(codec, collation, later, sessionID, nextSize, page.next).Ok? <==> ParseToken(codec, page.next).Ok?;
  }

  // ---------------------------------------------------------------- what a listing shows

  /** The row key an accepted upsert writes. */
  function Target(mc: MessageCodec, m: Upsert): (string, string)
    requires Normalize(mc, m).Ok?
  {
    (Normalize(mc, m).value.sessionID, Normalize(mc, m).value.messageID)
  }

  lemma PickedRows(table: Table, sessionID: string, keys: seq<Key>)
    requires TableInv(table) && forall k <- keys :: k in RowsOf(table, sessionID)
    ensures forall row <- Pick(RowsOf(table, sessionID), keys) ::
              row.sessionID == sessionID && (sessionID, row.messageID) in table
                && table[(sessionID, row.messageID)] == row
  {
    RowsAreKeyed(table, sessionID);
  }

  lemma ListedOnce(codec: Codec, collation: (string, string) -> bool, sessionID: string, table: Table, sizes: seq<int>,
                   row: TurnMessage)
    requires Lawful(codec) && StrictOrder(collation) && WalkReady([table], sessionID) && row.sessionID == sessionID
    requires (sessionID, row.messageID) in table && table[(sessionID, row.messageID)] == row
    ensures TableInv(table)
    ensures var walk := TokensWalked(MessagePaging(codec, collation), seq(|sizes|, _ => RowsOf(table, sessionID)),
                                     PageLimits(PageSize, sizes));
            walk.finished ==> multiset(walk.rows)[row] == 1
  {
    assert [table][0] == table;
    var tables := seq(|sizes|, _ => table);
    assert SessionRows(tables, sessionID) == seq(|sizes|, _ => RowsOf(table, sessionID));
    UntouchedMessageListedOnce(codec, collation, sessionID, tables, sizes, row);
  }

  /** A walk of an unchanged table that finishes lists every row of the session once, oldest first, and nothing else. */
  lemma WalkListsRows(codec: Codec, collation: (string, string) -> bool, sessionID: string, table: Table,
                      sizes: seq<int>)
    requires Lawful(codec) && StrictOrder(collation) && WalkReady([table], sessionID) && sizes != []
    ensures TableInv(table)
    ensures var walk := TokensWalked(MessagePaging(codec, collation), seq(|sizes|, _ => RowsOf(table, sessionID)),
                                     PageLimits(PageSize, sizes));
            walk.finished ==>
              && OldestFirst(collation, walk.rows)
              && (forall row <- walk.rows :: row.sessionID == sessionID && IsRow(table, sessionID, row))
              && (forall key <- table :: key.0 == sessionID ==> multiset(walk.rows)[table[key]] == 1)
  {
    assert [table][0] == table;
    var walk := TokensWalked(MessagePaging(codec, collation), seq(|sizes|, _ => RowsOf(table, sessionID)),
                             PageLimits(PageSize, sizes));
    if walk.finished {
      var tables := seq(|sizes|, _ => table);
      assert SessionRows(tables, sessionID) == seq(|sizes|, _ => RowsOf(table, sessionID));
      WalkIsOldestFirst(codec, collation, sessionID, tables, sizes);
      MessagesInOrder(codec, collation, sessionID, table, sizes);
      PickedRows(table, sessionID, Sort(Order(collation), RowsOf(table, sessionID).Keys));
      forall key <- table | key.0 == sessionID ensures multiset(walk.rows)[table[key]] == 1 {
        ListedOnce(codec, collation, sessionID, table, sizes, table[key]);
      }
    }
  }

  /** The message stored under an upsert's id is as it was given; its creation time is the first it had. */
  predicate AsGiven(mc: MessageCodec, table: Table, m: Upsert, now: Instant, row: TurnMessage)
    requires Normalize(mc, m).Ok?
  {
    && row.body == NormalizeBody(mc, m.body).value.text && row.sequence == m.sequence
    && row.turnID == TrimSpace(m.turnID) && row.runID == TrimSpace(m.runID)
    && row.createdAt == (if Target(mc, m) in table then table[Target(mc, m)].createdAt
                         else if m.createdAt.Some? then m.createdAt.value else now)
  }

  predicate IsRow(table: Table, sessionID: string, row: TurnMessage) {
    (sessionID, row.messageID) in table && table[(sessionID, row.messageID)] == row
  }

  lemma UpsertedRows(mc: MessageCodec, table: Table, m: Upsert, now: Instant, row: TurnMessage)
    requires TableInv(table) && Normalize(mc, m).Ok?
    requires IsRow(Upserted(mc, table, m, now), Target(mc, m).0, row)
    ensures if row.messageID == Target(mc, m).1 then AsGiven(mc, table, m, now, row)
            else IsRow(table, Target(mc, m).0, row)
  {
  }

  lemma UpsertedKeys(mc: MessageCodec, table: Table, m: Upsert, now: Instant)
    requires Normalize(mc, m).Ok?
    ensures Target(mc, m) in Upserted(mc, table, m, now)
            && Upserted(mc, table, m, now)[Target(mc, m)].messageID == Target(mc, m).1
    ensures forall key <- table :: key in Upserted(mc, table, m, now)
              && (key != Target(mc, m) ==> Upserted(mc, table, m, now)[key] == table[key])
  {
  }

  /**
   * After an accepted upsert, listing the session page by page shows exactly
   * one message with its id, once and as it was given, and shows every other
   * message of the session as it was before, once each, and nothing else.
   */
  lemma UpsertIsListed(codec: Codec, mc: MessageCodec, collation: (string, string) -> bool, table: Table, m: Upsert,
                       now: Instant,
                       sizes: seq<int>)
    requires Lawful(codec) && StrictOrder(collation) && TableInv(table) && Normalize(mc, m).Ok? && sizes != []
    requires Pageable(Upserted(mc, table, m, now), Target(mc, m).0)
    ensures TableInv(Upserted(mc, table, m, now))
    ensures var rows := RowsOf(Upserted(mc, table, m, now), Target(mc, m).0);
            var walk := TokensWalked(MessagePaging(codec, collation), seq(|sizes|, _ => rows),
                                     PageLimits(PageSize, sizes));
            walk.finished ==>
              && (exists row :: multiset(walk.rows)[row] == 1 && row.messageID == Target(mc, m).1)
              && (forall row <- walk.rows :: if row.messageID == Target(mc, m).1 then AsGiven(mc, table, m, now, row)
                  else IsRow(table, Target(mc, m).0, row))
              && (forall key <- table :: key.0 == Target(mc, m).0 && key != Target(mc, m) ==>
                  multiset(walk.rows)[table[key]] == 1)
  {
    var after := Upserted(mc, table, m, now);
    UpsertKeepsTable(mc, table, m, now);
    UpsertedKeys(mc, table, m, now);
    assert [after][0] == after;
    WalkListsRows(codec, collation, Target(mc, m).0, after, sizes);
    var walk := TokensWalked(MessagePaging(codec, collation), seq(|sizes|, _ => RowsOf(after, Target(mc, m).0)),
                             PageLimits(PageSize, sizes));
    if walk.finished {
      forall row <- walk.rows
        ensures if row.messageID == Target(mc, m).1 then AsGiven(mc, table, m, now, row)
                else IsRow(table, Target(mc, m).0, row)
      {
        UpsertedRows(mc, table, m, now, row);
      }
    }
  }

  function BarredMessage(id: string, sequence: int): TurnMessage { TurnMessage("s", "", "", id, "", sequence, 0) }

  /** Two messages whose ids contain '|'. */
  const BARRED: Table := map[("s", "a|") := BarredMessage("a|", 0), ("s", "b|") := BarredMessage("b|", 1)]

  lemma BarredTable()
    ensures TableInv(BARRED) && forall key <- BARRED :: IsInt64(BARRED[key].sequence) && '|' in key.1
  {
    assert Trimmed("s") && Trimmed("a|") && Trimmed("b|") && '|' == "a|"[1] == "b|"[1];
  }

  lemma BarredRows()
    requires TableInv(BARRED)
    ensures |RowsOf(BARRED, "s")| == 2
  {
    var first, second := Key(0, 0, "a|"), Key(0, 1, "b|");
    assert KeyOf(BARRED[("s", "a|")]) == first && KeyOf(BARRED[("s", "b|")]) == second;
    assert RowsOf(BARRED, "s").Keys == {first, second};
    assert |RowsOf(BARRED, "s")| == |RowsOf(BARRED, "s").Keys|;
  }

  lemma StoredKeysEncode(codec: Codec, collation: (string, string) -> bool, table: Table, sessionID: string)
    requires Lawful(codec) && StrictOrder(collation) && TableInv(table) && forall key <- table ::
             IsInt64(table[key].sequence)
    ensures forall k <- RowsOf(table, sessionID) :: MessagePaging(codec, collation).encode(k) != ""
  {
    forall k <- RowsOf(table, sessionID) ensures MessagePaging(codec, collation).encode(k) != "" {
      StoredKeys(table, sessionID, k);
      TokenRoundTripIff(codec, k);
    }
  }

  lemma BarredPage(codec: Codec, collation: (string, string) -> bool, rows: map<Key, TurnMessage>)
    returns (page: Listing<TurnMessage>)
    requires Lawful(codec) && StrictOrder(collation) && TableInv(BARRED) && rows == RowsOf(BARRED, "s")
    requires forall key <- BARRED :: IsInt64(BARRED[key].sequence) && '|' in key.1
    ensures List(MessagePaging(codec, collation), rows, 1, "") == Ok(page) && page.next != ""
    ensures page.rows != [] && '|' in page.rows[|page.rows| - 1].messageID
  {
    BarredRows();
    var paging := MessagePaging(codec, collation);
    StoredKeysEncode(codec, collation, BARRED, "s");
    FirstPageHasNext(paging, rows, 1, "");
    page := List(paging, rows, 1, "").value;
    RowsAreKeyed(BARRED, "s");
    assert Keyed(KeyOf, [rows]);
    TokenIsOfLastRow(paging, KeyOf, rows, 1, "", page);
  }

  /** It happens: the first page of one of these two messages has a next token, and the call that uses it is refused. */
  lemma NextPageCanFail(codec: Codec, collation: (string, string) -> bool, nextSize: int)
    returns (page: Listing<TurnMessage>)
    requires Lawful(codec) && StrictOrder(collation)
    ensures TableInv(BARRED) && ListPage(codec, collation, BARRED, "s", 1, "") == Ok(page) && page.next != ""
    ensures ListPage(codec, collation, BARRED, "s", nextSize, page.next).Err?
  {
    BarredTable();
    TrimSpaceTrims("s");
    assert Trimmed("s");
    page := BarredPage(codec, collation, RowsOf(BARRED, "s"));
    NextPageFailsIff(codec, collation, BARRED, BARRED, "s", 1, nextSize, "", page);
  }
}
