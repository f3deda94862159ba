/** Keyset pages asked for by opaque tokens: the token is the encoded last key of the page before. */
module KeysetTokens {
  import opened Text
  import opened SessionTypes
  import opened Keyset

  /** An ordering of keys and the text form of a cursor; the empty token asks for the first page. */
  datatype Paging<!K> = Paging(before: (K, K) -> bool, encode: K -> string, parse: string -> Outcome<Option<K>>)

  /** The page size a call asks for, with the service's default and maximum. */
  function PageLimit(requested: int, otherwise: Limit, most: Limit): Limit {
    if requested <= 0 then otherwise else if requested > most then most else requested
  }

  function PageLimits(pageSize: int -> Limit, requested: seq<int>): (limits: seq<Limit>)
    ensures |limits| == |requested|
  {
    seq(|requested|, i requires 0 <= i < |requested| => pageSize(requested[i]))
  }

  datatype Listing<+R> = Listing(rows: seq<R>, next: string)

  function Pick<K(==), R>(table: map<K, R>, keys: seq<K>): (rows: seq<R>)
    requires forall k <- keys :: k in table
    ensures |rows| == |keys|
  {
    seq(|keys|, i requires 0 <= i < |keys| => table[keys[i]])
  }

  lemma PageKeysInTable<K(!new), R>(before: (K, K) -> bool, table: map<K, R>, cursor: Option<K>, limit: Limit)
    requires StrictOrder(before)
    ensures forall k <- PageOf(before, table.Keys, cursor, limit).items :: k in table
  {
    PageSpans(before, table.Keys, cursor, limit);
  }

  function TokenAfter<K>(paging: Paging<K>, next: Option<K>): string {
    if next.Some? then paging.encode(next.value) else ""
  }

  ghost function List<K(!new), R>(paging: Paging<K>, table: map<K, R>, limit: Limit, token: string): Outcome<Listing<R>>
    requires StrictOrder(paging.before)
  {
    match paging.parse(token)
    case Err(code) => Err(code)
    case Ok(cursor) =>
      PageKeysInTable(paging.before, table, cursor, limit);
      var page := PageOf(paging.before, table.Keys, cursor, limit);
      Ok(Listing(Pick(table, page.items), TokenAfter(paging, page.next)))
  }

  /** A walk by tokens: it ends with a page that has no next token, or fails on a token that does not parse. */
  datatype TokenWalk<R> = TokenWalk(rows: seq<R>, token: string, finished: bool, failed: bool)

  ghost function TokensWalked<K(!new), R>(paging: Paging<K>, tables: seq<map<K, R>>, limits: seq<Limit>): TokenWalk<R>
    requires StrictOrder(paging.before) && |tables| == |limits|
  {
    if tables == [] then TokenWalk([], "", false, false) else
    var n := |tables| - 1;
    var walk := TokensWalked(paging, tables[..n], limits[..n]);
    if walk.finished || walk.failed then walk else
    match List(paging, tables[n], limits[n], walk.token)
    case Err(_) => walk.(failed := true)
    case Ok(listing) => TokenWalk(walk.rows + listing.rows, listing.next, listing.next == "", false)
  }

  ghost predicate RoundTrips<K(!new)>(paging: Paging<K>, k: K) {
    paging.encode(k) != "" && paging.parse(paging.encode(k)) == Ok(Some(k))
  }

  function KeySets<K, R>(tables: seq<map<K, R>>): (sets: seq<set<K>>)
    ensures |sets| == |tables|
  {
    seq(|tables|, i requires 0 <= i < |tables| => tables[i].Keys)
  }

  ghost predicate Listed<K(!new), R>(tables: seq<map<K, R>>, k: K, row: R) {
    exists i :: 0 <= i < |tables| && k in tables[i] && tables[i][k] == row
  }

  /** The rows of a walk are the rows of its keys, as they were when their page was read. */
  ghost predicate Follows<K(!new), R>(paging: Paging<K>, tables: seq<map<K, R>>, tokens: TokenWalk<R>, walk: Walk<K>) {
    && !tokens.failed && tokens.finished == walk.finished
    && |tokens.rows| == |walk.items|
    && (forall i :: 0 <= i < |walk.items| ==> Listed(tables, walk.items[i], tokens.rows[i]))
    && (!walk.finished ==> tokens.token == TokenAfter(paging, walk.cursor))
  }

  ghost predicate AllRoundTrip<K(!new), R>(paging: Paging<K>, tables: seq<map<K, R>>) {
    && paging.parse("") == Ok(None)
    && forall i, k :: 0 <= i < |tables| && k in tables[i] ==> RoundTrips(paging, k)
  }

  lemma {:induction false} TokensFollowKeys<K(!new), R>(paging: Paging<K>, tables: seq<map<K, R>>, limits: seq<Limit>)
    requires StrictOrder(paging.before) && |tables| == |limits| && AllRoundTrip(paging, tables)
    ensures Follows(paging, tables, TokensWalked(paging, tables, limits),
                    Walked(paging.before, KeySets(tables), limits))
  {
    if tables != [] {
      var n := |tables| - 1;
      TokensFollowKeys(paging, tables[..n], limits[..n]);
      assert KeySets(tables)[..n] == KeySets(tables[..n]);
      var tokens := TokensWalked(paging, tables[..n], limits[..n]);
      var walk := Walked(paging.before, KeySets(tables[..n]), limits[..n]);
      ListedLater(tables, n, tokens.rows, walk.items);
      if !walk.finished {
        CursorWasListed(paging, tables[..n], limits[..n], walk);
        assert paging.parse(TokenAfter(paging, walk.cursor)) == Ok(walk.cursor);
        NextPageFollows(paging, tables, n, limits[n], tokens, walk);
      }
    }
  }

  lemma NextPageFollows<K(!new), R>(paging: Paging<K>, tables: seq<map<K, R>>, n: nat, limit: Limit,
                                    tokens: TokenWalk<R>, walk: Walk<K>)
    requires StrictOrder(paging.before) && n < |tables| && AllRoundTrip(paging, tables)
    requires Follows(paging, tables, tokens, walk) && !walk.finished && paging.parse(tokens.token) == Ok(walk.cursor)
    ensures var listing := List(paging, tables[n], limit, tokens.token);
            && listing.Ok?
            && Follows(paging, tables,
                       TokenWalk(tokens.rows + listing.value.rows, listing.value.next, listing.value.next == "", false),
                       Continue(walk, PageOf(paging.before, tables[n].Keys, walk.cursor, limit)))
  {
    PageIsListed(paging, tables, n, limit, walk.cursor);
  }

  lemma ListedLater<K(!new), R>(tables: seq<map<K, R>>, n: nat, rows: seq<R>, keys: seq<K>)
    requires n < |tables| && |rows| == |keys| && forall i :: 0 <= i < |keys| ==> Listed(tables[..n], keys[i], rows[i])
    ensures forall i :: 0 <= i < |keys| ==> Listed(tables, keys[i], rows[i])
  {
    forall i | 0 <= i < |keys| ensures Listed(tables, keys[i], rows[i]) {
      assert Listed(tables[..n], keys[i], rows[i]);
      var j :| 0 <= j < n && keys[i] in tables[..n][j] && tables[..n][j][keys[i]] == rows[i];
      assert tables[j] == tables[..n][j];
    }
  }

  lemma CursorWasListed<K(!new), R>(paging: Paging<K>, tables: seq<map<K, R>>, limits: seq<Limit>, walk: Walk<K>)
    requires StrictOrder(paging.before) && |tables| == |limits| && AllRoundTrip(paging, tables)
    requires walk == Walked(paging.before, KeySets(tables), limits) && !walk.finished
    ensures walk.cursor.Some? ==> RoundTrips(paging, walk.cursor.value)
  {
    WalkKeepsInv(paging.before, KeySets(tables), limits);
    if walk.cursor.Some? {
      var k := walk.items[|walk.items| - 1];
      assert k in walk.items;
      var sets := KeySets(tables);
      var keys :| keys in sets && k in keys;
      var i :| 0 <= i < |sets| && sets[i] == keys;
      assert k in tables[i];
    }
  }

  lemma PageIsListed<K(!new), R>(paging: Paging<K>, tables: seq<map<K, R>>, n: nat, limit: Limit, cursor: Option<K>)
    requires StrictOrder(paging.before) && n < |tables| && AllRoundTrip(paging, tables)
    ensures var page := PageOf(paging.before, tables[n].Keys, cursor, limit);
            && (forall k <- page.items :: k in tables[n])
            && (forall i :: 0 <= i < |page.items| ==> Listed(tables, page.items[i], Pick(tables[n], page.items)[i]))
            && (TokenAfter(paging, page.next) == "" <==> page.next.None?)
  {
    PageSpans(paging.before, tables[n].Keys, cursor, limit);
    var page := PageOf(paging.before, tables[n].Keys, cursor, limit);
    if page.next.Some? {
      assert page.next.value in page.items;
      assert RoundTrips(paging, page.next.value);
    }
  }

  ghost predicate Keyed<K(!new), R>(keyOf: R -> K, tables: seq<map<K, R>>) {
    forall i, k :: 0 <= i < |tables| && k in tables[i] ==> keyOf(tables[i][k]) == k
  }

  /**
   * Walking by tokens never fails when every key's token parses back, and a
   * row that no one touched between the pages is then listed exactly once.
   */
  lemma UntouchedRowListedOnce<K(!new), R>(paging: Paging<K>, keyOf: R -> K, tables: seq<map<K, R>>,
                                           limits: seq<Limit>, row: R)
    requires StrictOrder(paging.before) && |tables| == |limits| && AllRoundTrip(paging, tables) && Keyed(keyOf, tables)
    requires forall i :: 0 <= i < |tables| ==> keyOf(row) in tables[i] && tables[i][keyOf(row)] == row
    requires TokensWalked(paging, tables, limits).finished
    ensures multiset(TokensWalked(paging, tables, limits).rows)[row] == 1
  {
    var k := keyOf(row);
    var tokens, walk := TokensWalked(paging, tables, limits), Walked(paging.before, KeySets(tables), limits);
    TokensFollowKeys(paging, tables, limits);
    UntouchedListedOnce(paging.before, KeySets(tables), limits, k) by {
      forall keys <- KeySets(tables) ensures k in keys {
        var i :| 0 <= i < |tables| && KeySets(tables)[i] == keys;
      }
    }
    forall i | 0 <= i < |walk.items| ensures walk.items[i] == k <==> tokens.rows[i] == row {
      assert Listed(tables, walk.items[i], tokens.rows[i]);
      var j :| 0 <= j < |tables| && walk.items[i] in tables[j] && tables[j][walk.items[i]] == tokens.rows[i];
    }
    SameCounts(walk.items, k, tokens.rows, row);
  }

  lemma {:induction false} SameCounts<A, B>(s: seq<A>, a: A, t: seq<B>, b: B)
    requires |s| == |t| && forall i :: 0 <= i < |s| ==> (s[i] == a <==> t[i] == b)
    ensures multiset(s)[a] == multiset(t)[b]
  {
    if s != [] {
      var n := |s| - 1;
      assert s == s[..n] + [s[n]] && t == t[..n] + [t[n]];
      SameCounts(s[..n], a, t[..n], b);
    }
  }

  lemma ListedInSame<K(!new), R>(table: map<K, R>, n: nat, k: K, row: R)
    requires Listed(seq(n, _ => table), k, row)
    ensures k in table && table[k] == row
  {
  }

  /** Over an unchanged table the walk gives the rows in key order, whatever the page sizes. */
  lemma UnchangedRowsInOrder<K(!new), R>(paging: Paging<K>, table: map<K, R>, limits: seq<Limit>)
    requires StrictOrder(paging.before) && AllRoundTrip(paging, [table]) && limits != []
    ensures forall k <- Sort(paging.before, table.Keys) :: k in table
    ensures var walk := TokensWalked(paging, seq(|limits|, _ => table), limits);
            && !walk.failed
            && (walk.finished ==> walk.rows == Pick(table, Sort(paging.before, table.Keys)))
            && (|limits| > |table| ==> walk.finished)
  {
    var tables := seq(|limits|, _ => table);
    assert [table][0] == table;
    TokensFollowKeys(paging, tables, limits);
    SortSorts(paging.before, table.Keys);
    assert KeySets(tables) == Same(table.Keys, |limits|);
    UnchangedWalkIsSorted(paging.before, table.Keys, limits);
    assert |table.Keys| == |table|;
    var walk := TokensWalked(paging, tables, limits);
    if walk.finished {
      var keys := Sort(paging.before, table.Keys);
      forall i | 0 <= i < |walk.rows| ensures walk.rows[i] == Pick(table, keys)[i] {
        ListedInSame(table, |limits|, keys[i], walk.rows[i]);
      }
    }
  }

  // ---------------------------------------------------------------- from query rows to a page

  function FirstOf<K>(keys: seq<K>, n: nat): seq<K> { if |keys| <= n then keys else keys[..n] }

  lemma SortedKeysInTable<K(!new), R>(before: (K, K) -> bool, table: map<K, R>, cursor: Option<K>, n: nat)
    requires StrictOrder(before)
    ensures forall k <- FirstOf(Sort(before, After(before, table.Keys, cursor)), n) :: k in table
  {
    var keys := Sort(before, After(before, table.Keys, cursor));
    SortSorts(before, After(before, table.Keys, cursor));
    forall k <- FirstOf(keys, n) ensures k in table {
      assert k in keys;
    }
  }

  /** The first `limit` rows in key order after the cursor: what the SQL query returns. */
  ghost function Query<K(!new), R>(before: (K, K) -> bool, table: map<K, R>, cursor: Option<K>, limit: nat): seq<R>
    requires StrictOrder(before)
  {
    SortedKeysInTable(before, table, cursor, limit);
    Pick(table, FirstOf(Sort(before, After(before, table.Keys, cursor)), limit))
  }

  /** Asking for one row more than the page holds tells whether there is a next page. */
  lemma QueryGivesPage<K(!new), R>(paging: Paging<K>, keyOf: R -> K, table: map<K, R>, cursor: Option<K>, limit: Limit,
                                   token: string)
    requires StrictOrder(paging.before) && paging.parse(token) == Ok(cursor) && Keyed(keyOf, [table])
    ensures var rows := Query(paging.before, table, cursor, limit + 1);
            List(paging, table, limit, token)
            == Ok(if |rows| <= limit then Listing(rows, "")
                  else Listing(rows[..limit], paging.encode(keyOf(rows[limit - 1]))))
  {
    SortSorts(paging.before, After(paging.before, table.Keys, cursor));
    CutPicks(keyOf, table, Sort(paging.before, After(paging.before, table.Keys, cursor)), limit);
  }

  lemma CutPicks<K(!new), R>(keyOf: R -> K, table: map<K, R>, keys: seq<K>, limit: Limit)
    requires (forall k <- keys :: k in table) && Keyed(keyOf, [table])
    ensures forall k <- Cut(keys, limit).items :: k in table
    ensures var rows := Pick(table, FirstOf(keys, limit + 1));
            var page := Cut(keys, limit);
            && Pick(table, page.items) == (if |rows| <= limit then rows else rows[..limit])
            && page.next == if |rows| <= limit then None else Some(keyOf(rows[limit - 1]))
  {
    assert [table][0] == table;
    if |keys| > limit {
      var k := keys[limit - 1];
      assert k in keys && keyOf(table[k]) == k;
    }
  }

  /** The first page of a table that does not fit on it has a next token. */
  lemma FirstPageHasNext<K(!new), R>(paging: Paging<K>, table: map<K, R>, limit: Limit, token: string)
    requires StrictOrder(paging.before) && paging.parse(token) == Ok(None) && |table| > limit
    requires forall k <- table :: paging.encode(k) != ""
    ensures List(paging, table, limit, token).Ok? && List(paging, table, limit, token).value.next != ""
  {
    assert After(paging.before, table.Keys, None) == table.Keys;
    SortSorts(paging.before, table.Keys);
    assert |Sort(paging.before, table.Keys)| == |table.Keys| == |table|;
    PageSpans(paging.before, table.Keys, None, limit);
    var page := PageOf(paging.before, table.Keys, None, limit);
    assert page.next.value in page.items;
  }

  /** The token after a page encodes the key of its last row. */
  lemma TokenIsOfLastRow<K(!new), R>(paging: Paging<K>, keyOf: R -> K, table: map<K, R>, limit: Limit, token: string,
                                     page: Listing<R>)
    requires StrictOrder(paging.before) && Keyed(keyOf, [table])
    requires List(paging, table, limit, token) == Ok(page) && page.next != ""
    ensures page.rows != []
    ensures keyOf(page.rows[|page.rows| - 1]) in table && page.next == paging.encode(keyOf(page.rows[|page.rows| - 1]))
  {
    var cursor := paging.parse(token).value;
    PageSpans(paging.before, table.Keys, cursor, limit);
    var items := PageOf(paging.before, table.Keys, cursor, limit).items;
    var k := items[|items| - 1];
    assert k in items && [table][0] == table;
  }

  // ---------------------------------------------------------------- rows in order

  ghost predicate RowsInOrder<K(!new), R>(paging: Paging<K>, keyOf: R -> K, rows: seq<R>) {
    forall i, j :: 0 <= i < j < |rows| ==> paging.before(keyOf(rows[i]), keyOf(rows[j]))
  }

  /** The page has rows of the table after the cursor, in order, and leaves out none before its last one. */
  ghost predicate IsPage<K(!new), R>(paging: Paging<K>, keyOf: R -> K, table: map<K, R>, cursor: Option<K>,
                                     limit: Limit,
                                     page: Listing<R>) {
    && RowsInOrder(paging, keyOf, page.rows)
    && (forall row <- page.rows ::
          keyOf(row) in table && table[keyOf(row)] == row && Beyond(paging.before, cursor, keyOf(row)))
    && |page.rows| <= limit && (page.next != "" ==> |page.rows| == limit)
    && (forall k <- table :: Beyond(paging.before, cursor, k) ==>
          || table[k] in page.rows
          || (page.next != "" && paging.before(keyOf(page.rows[|page.rows| - 1]), k)))
  }

  lemma PickedRow<K(!new), R>(table: map<K, R>, keyOf: R -> K, keys: seq<K>, row: R)
    requires (forall k <- keys :: k in table) && Keyed(keyOf, [table])
    ensures row in Pick(table, keys) <==> keyOf(row) in keys && table[keyOf(row)] == row
    ensures forall i :: 0 <= i < |keys| ==> keyOf(Pick(table, keys)[i]) == keys[i]
  {
    assert [table][0] == table;
    if keyOf(row) in keys && table[keyOf(row)] == row {
      var i :| 0 <= i < |keys| && keys[i] == keyOf(row);
      assert Pick(table, keys)[i] == row;
    }
  }

  lemma ListedPage<K(!new), R>(paging: Paging<K>, keyOf: R -> K, table: map<K, R>, limit: Limit, token: string,
                               page: Listing<R>)
    requires StrictOrder(paging.before) && Keyed(keyOf, [table]) && List(paging, table, limit, token) == Ok(page)
    requires forall k <- table :: paging.encode(k) != ""
    ensures paging.parse(token).Ok? && IsPage(paging, keyOf, table, paging.parse(token).value, limit, page)
  {
    var cursor := paging.parse(token).value;
    var keys := PageOf(paging.before, table.Keys, cursor, limit);
    PageSpans(paging.before, table.Keys, cursor, limit);
    PageFits(paging.before, table.Keys, cursor, limit);
    assert [table][0] == table;
    if keys.next.Some? {
      assert keys.next.value in keys.items;
    }
    forall row <- page.rows
      ensures keyOf(row) in table && table[keyOf(row)] == row && Beyond(paging.before, cursor, keyOf(row))
    {
      PickedRow(table, keyOf, keys.items, row);
    }
    forall k <- table | Beyond(paging.before, cursor, k)
      ensures table[k] in page.rows || (page.next != "" && paging.before(keyOf(page.rows[|page.rows| - 1]), k))
    {
      PickedRow(table, keyOf, keys.items, table[k]);
    }
  }

  lemma PageFits<K(!new)>(before: (K, K) -> bool, keys: set<K>, cursor: Option<K>, limit: Limit)
    requires StrictOrder(before)
    ensures |PageOf(before, keys, cursor, limit).items| <= limit
  {
  }

  /** Whatever happens to the table between its pages, a walk lists its rows in order. */
  lemma WalkedRowsInOrder<K(!new), R>(paging: Paging<K>, keyOf: R -> K, tables: seq<map<K, R>>, limits: seq<Limit>)
    requires StrictOrder(paging.before) && |tables| == |limits| && AllRoundTrip(paging, tables) && Keyed(keyOf, tables)
    ensures RowsInOrder(paging, keyOf, TokensWalked(paging, tables, limits).rows)
  {
    var tokens, walk := TokensWalked(paging, tables, limits), Walked(paging.before, KeySets(tables), limits);
    TokensFollowKeys(paging, tables, limits);
    WalkKeepsInv(paging.before, KeySets(tables), limits);
    forall i | 0 <= i < |tokens.rows| ensures keyOf(tokens.rows[i]) == walk.items[i] {
      assert Listed(tables, walk.items[i], tokens.rows[i]);
    }
  }
}
