/**
 * Keyset pagination over any strict total order: each page takes the smallest
 * keys after a cursor, and its last key is the next cursor. A walk asks for one
 * page after another; the keys may change between the pages.
 */
module Keyset {
  import opened Text

  ghost predicate StrictOrder<K(!new)>(before: (K, K) -> bool) {
    && (forall a :: !before(a, a))
    && (forall a, b, c :: before(a, b) && before(b, c) ==> before(a, c))
    && (forall a, b :: a == b || before(a, b) || before(b, a))
  }

  predicate Increasing<K>(before: (K, K) -> bool, s: seq<K>) { forall i, j :: 0 <= i < j < |s| ==> before(s[i], s[j]) }

  ghost predicate IsLeast<K(!new)>(before: (K, K) -> bool, keys: set<K>, m: K) {
    m in keys && forall k <- keys :: k == m || before(m, k)
  }

  lemma LeastWithOne<K(!new)>(before: (K, K) -> bool, rest: set<K>, m: K, x: K) returns (least: K)
    requires StrictOrder(before) && IsLeast(before, rest, m) && x !in rest
    ensures IsLeast(before, rest + {x}, least)
  {
    if before(x, m) {
      forall k <- rest ensures before(x, k) {
        assert k == m || before(m, k);
      }
      least := x;
    } else {
      assert before(m, x);
      least := m;
    }
  }

  lemma {:induction false} HasLeast<K(!new)>(before: (K, K) -> bool, keys: set<K>) returns (least: K)
    requires StrictOrder(before) && keys != {}
    ensures IsLeast(before, keys, least)
    decreases |keys|
  {
    var x :| x in keys;
    var rest := keys - {x};
    assert keys == rest + {x};
    if rest == {} {
      least := x;
    } else {
      var m := HasLeast(before, rest);
      least := LeastWithOne(before, rest, m, x);
    }
  }

  ghost function Least<K(!new)>(before: (K, K) -> bool, keys: set<K>): (m: K)
    requires StrictOrder(before) && keys != {}
    ensures IsLeast(before, keys, m)
  {
    LeastExists(before, keys);
    var m :| IsLeast(before, keys, m);
    m
  }

  lemma LeastExists<K(!new)>(before: (K, K) -> bool, keys: set<K>)
    requires StrictOrder(before) && keys != {}
    ensures exists m :: IsLeast(before, keys, m)
  {
    var m := HasLeast(before, keys);
  }

  /** order by */
  ghost function Sort<K(!new)>(before: (K, K) -> bool, keys: set<K>): seq<K>
    requires StrictOrder(before)
    decreases |keys|
  {
    if keys == {} then [] else
    var m := Least(before, keys);
    [m] + Sort(before, keys - {m})
  }

  lemma IncreasingCons<K(!new)>(before: (K, K) -> bool, m: K, s: seq<K>, rest: set<K>)
    requires Increasing(before, s) && (forall k :: k in s <==> k in rest) && forall k <- rest :: before(m, k)
    ensures Increasing(before, [m] + s)
    ensures forall k :: k in [m] + s <==> k in rest + {m}
  {
    assert forall i :: 0 <= i < |s| ==> s[i] in rest;
  }

  /** Sort lists every key once, in order. */
  lemma {:induction false} SortSorts<K(!new)>(before: (K, K) -> bool, keys: set<K>)
    requires StrictOrder(before)
    ensures Increasing(before, Sort(before, keys))
    ensures forall k :: k in Sort(before, keys) <==> k in keys
    ensures |Sort(before, keys)| == |keys|
    decreases |keys|
  {
    if keys != {} {
      var m := Least(before, keys);
      var rest := keys - {m};
      SortSorts(before, rest);
      IncreasingCons(before, m, Sort(before, rest), rest);
    }
  }

  /** An ordered list is determined by its elements. */
  lemma {:induction false} OrderedListsAgree<K(!new)>(before: (K, K) -> bool, s: seq<K>, t: seq<K>)
    requires StrictOrder(before) && Increasing(before, s) && Increasing(before, t)
    requires forall k :: k in s <==> k in t
    ensures s == t
  {
    if s == [] {
      assert forall i :: 0 <= i < |t| ==> t[i] in s;
    } else {
      assert s[0] in t && t != [] && t[0] in s;
      assert s[0] == t[0];
      forall k ensures k in s[1..] <==> k in t[1..] {
        assert k in s <==> k == s[0] || k in s[1..];
        assert k in t <==> k == t[0] || k in t[1..];
        assert s[0] !in s[1..] && t[0] !in t[1..];
      }
      OrderedListsAgree(before, s[1..], t[1..]);
    }
  }

  // ---------------------------------------------------------------- pages

  ghost function After<K(!new)>(before: (K, K) -> bool, keys: set<K>, cursor: Option<K>): set<K> {
    set k | k in keys && Beyond(before, cursor, k)
  }

  predicate Beyond<K>(before: (K, K) -> bool, cursor: Option<K>, k: K) { cursor.None? || before(cursor.value, k) }

  /** limit values are positive: the page size is clamped before. */
  type Limit = n: nat | n > 0 witness 1

  datatype Page<K> = Page(items: seq<K>, next: Option<K>)

  /** The first `limit` of the ordered rows; there is a next page when more are left. */
  function Cut<K>(rows: seq<K>, limit: Limit): Page<K> {
    if |rows| <= limit then Page(rows, None) else Page(rows[..limit], Some(rows[limit - 1]))
  }

  ghost function PageOf<K(!new)>(before: (K, K) -> bool, keys: set<K>, cursor: Option<K>, limit: Limit): Page<K>
    requires StrictOrder(before)
  {
    Cut(Sort(before, After(before, keys, cursor)), limit)
  }

  /** A key at or before the cursor. */
  predicate Reached<K>(before: (K, K) -> bool, cursor: Option<K>, k: K) { cursor.Some? && !before(cursor.value, k) }

  lemma CutSpans<K(!new)>(before: (K, K) -> bool, rows: seq<K>, limit: Limit)
    requires StrictOrder(before) && Increasing(before, rows)
    ensures var page := Cut(rows, limit);
            && Increasing(before, page.items)
            && (page.next.None? ==> page.items == rows)
            && (page.next.Some? ==>
                |page.items| == limit && page.items <= rows && page.items[limit - 1] == page.next.value)
            && (page.next.Some? ==> forall k <- rows :: k in page.items <==> Reached(before, page.next, k))
  {
    var page := Cut(rows, limit);
    if page.next.Some? {
      forall i | 0 <= i < |rows| ensures rows[i] in page.items <==> Reached(before, page.next, rows[i]) {
        if i < limit {
          assert page.items[i] == rows[i];
          assert i < limit - 1 ==> before(rows[i], rows[limit - 1]);
        } else {
          assert before(rows[limit - 1], rows[i]);
          assert forall j :: 0 <= j < limit ==> before(rows[j], rows[i]);
        }
      }
    }
  }

  /** A page holds the keys between its cursor and the next one, in order; the next cursor is its last key. */
  lemma PageSpans<K(!new)>(before: (K, K) -> bool, keys: set<K>, cursor: Option<K>, limit: Limit)
    requires StrictOrder(before)
    ensures var page := PageOf(before, keys, cursor, limit);
            && Increasing(before, page.items)
            && (forall k ::
                  k in page.items
                  <==> k in keys && Beyond(before, cursor, k) && (page.next.None? || Reached(before, page.next, k)))
            && (page.next.Some? ==> |page.items| == limit && page.items[limit - 1] == page.next.value)
  {
    var rows := Sort(before, After(before, keys, cursor));
    SortSorts(before, After(before, keys, cursor));
    CutSpans(before, rows, limit);
    var page := Cut(rows, limit);
    assert forall k :: k in page.items ==> k in rows;
  }

  // ---------------------------------------------------------------- walks

  /** `finished` once a page had no next cursor. */
  datatype Walk<K> = Walk(items: seq<K>, cursor: Option<K>, finished: bool)

  function Continue<K>(walk: Walk<K>, page: Page<K>): Walk<K> {
    Walk(walk.items + page.items, if page.next.Some? then page.next else walk.cursor, page.next.None?)
  }

  /** One page per table state: `tables[i]` is what the table held when the i-th page was read. */
  ghost function Walked<K(!new)>(before: (K, K) -> bool, tables: seq<set<K>>, limits: seq<Limit>): Walk<K>
    requires StrictOrder(before) && |tables| == |limits|
  {
    if tables == [] then Walk([], None, false) else
    var n := |tables| - 1;
    var walk := Walked(before, tables[..n], limits[..n]);
    if walk.finished then walk else Continue(walk, PageOf(before, tables[n], walk.cursor, limits[n]))
  }

  predicate Throughout<K>(tables: seq<set<K>>, k: K) { forall table <- tables :: k in table }

  predicate Seen<K>(before: (K, K) -> bool, walk: Walk<K>, k: K) { walk.finished || Reached(before, walk.cursor, k) }

  ghost predicate ShapeInv<K(!new)>(before: (K, K) -> bool, pages: nat, walk: Walk<K>) {
    && Increasing(before, walk.items)
    && (walk.cursor.Some? ==> walk.items != [])
    && (!walk.finished ==>
          |walk.items| >= pages && (walk.items != [] ==> walk.cursor == Some(walk.items[|walk.items| - 1])))
  }

  /** What stayed in the table through every page has been listed, once the walk has come past it. */
  ghost predicate CoverInv<K(!new)>(before: (K, K) -> bool, tables: seq<set<K>>, walk: Walk<K>) {
    forall k :: Throughout(tables, k) && Seen(before, walk, k) ==> k in walk.items
  }

  /** What is listed was in the table when its page was read. */
  ghost predicate SourceInv<K(!new)>(tables: seq<set<K>>, walk: Walk<K>) {
    forall k <- walk.items :: exists table <- tables :: k in table
  }

  lemma AppendKeepsIncreasing<K(!new)>(before: (K, K) -> bool, s: seq<K>, t: seq<K>)
    requires StrictOrder(before) && Increasing(before, s) && Increasing(before, t)
    requires s != [] ==> forall k <- t :: before(s[|s| - 1], k)
    ensures Increasing(before, s + t)
  {
    forall i, j | 0 <= i < |s| && 0 <= j < |t| ensures before(s[i], t[j]) {
      assert t[j] in t;
    }
  }

  lemma ContinueKeepsShape<K(!new)>(before: (K, K) -> bool, pages: nat, walk: Walk<K>, keys: set<K>, limit: Limit)
    requires StrictOrder(before) && ShapeInv(before, pages, walk) && !walk.finished
    ensures ShapeInv(before, pages + 1, Continue(walk, PageOf(before, keys, walk.cursor, limit)))
  {
    PageSpans(before, keys, walk.cursor, limit);
    AppendKeepsIncreasing(before, walk.items, PageOf(before, keys, walk.cursor, limit).items);
  }

  lemma ContinueKeepsCover<K(!new)>(before: (K, K) -> bool, tables: seq<set<K>>, walk: Walk<K>, keys: set<K>,
                                    limit: Limit)
    requires StrictOrder(before) && CoverInv(before, tables, walk) && SourceInv(tables, walk) && !walk.finished
    ensures CoverInv(before, tables + [keys], Continue(walk, PageOf(before, keys, walk.cursor, limit)))
    ensures SourceInv(tables + [keys], Continue(walk, PageOf(before, keys, walk.cursor, limit)))
  {
    PageSpans(before, keys, walk.cursor, limit);
    var page := PageOf(before, keys, walk.cursor, limit);
    var all, next := tables + [keys], Continue(walk, page);
    assert keys in all && forall table <- tables :: table in all;
    forall k | Throughout(all, k) && Seen(before, next, k) ensures k in next.items {
      if Reached(before, walk.cursor, k) {
        assert Throughout(tables, k) && k in walk.items;
      } else {
        assert k in page.items;
      }
    }
    forall k <- next.items ensures exists table <- all :: k in table {
      if k in walk.items {
        var table :| table in tables && k in table;
        assert table in all;
      } else {
        assert k in page.items && k in keys;
      }
    }
  }

  lemma {:induction false} WalkKeepsInv<K(!new)>(before: (K, K) -> bool, tables: seq<set<K>>, limits: seq<Limit>)
    requires StrictOrder(before) && |tables| == |limits|
    ensures var walk := Walked(before, tables, limits);
            ShapeInv(before, |tables|, walk) && CoverInv(before, tables, walk) && SourceInv(tables, walk)
  {
    if tables != [] {
      var n := |tables| - 1;
      WalkKeepsInv(before, tables[..n], limits[..n]);
      var walk := Walked(before, tables[..n], limits[..n]);
      assert tables == tables[..n] + [tables[n]];
      if !walk.finished {
        ContinueKeepsShape(before, n, walk, tables[n], limits[n]);
        ContinueKeepsCover(before, tables[..n], walk, tables[n], limits[n]);
      }
    }
  }

  /**
   * A finished walk lists every key that stayed in the table exactly once, in
   * order, whatever else was inserted, changed or deleted between the pages.
   */
  lemma UntouchedListedOnce<K(!new)>(before: (K, K) -> bool, tables: seq<set<K>>, limits: seq<Limit>, k: K)
    requires StrictOrder(before) && |tables| == |limits| && Throughout(tables, k)
    requires Walked(before, tables, limits).finished
    ensures multiset(Walked(before, tables, limits).items)[k] == 1
    ensures Increasing(before, Walked(before, tables, limits).items)
  {
    WalkKeepsInv(before, tables, limits);
    IncreasingCountsOnce(before, Walked(before, tables, limits).items, k);
  }

  lemma {:induction false} IncreasingCountsOnce<K(!new)>(before: (K, K) -> bool, s: seq<K>, k: K)
    requires StrictOrder(before) && Increasing(before, s)
    ensures multiset(s)[k] == if k in s then 1 else 0
  {
    if s != [] {
      var n := |s| - 1;
      assert s == s[..n] + [s[n]];
      IncreasingCountsOnce(before, s[..n], k);
      assert s[n] !in s[..n];
    }
  }

  /** The next cursor is strictly after the current one. */
  lemma CursorIncreases<K(!new)>(before: (K, K) -> bool, keys: set<K>, cursor: Option<K>, limit: Limit)
    requires StrictOrder(before) && cursor.Some? && PageOf(before, keys, cursor, limit).next.Some?
    ensures before(cursor.value, PageOf(before, keys, cursor, limit).next.value)
  {
    PageSpans(before, keys, cursor, limit);
    var page := PageOf(before, keys, cursor, limit);
    assert page.items[limit - 1] in page.items;
  }

  function Same<K>(keys: set<K>, pages: nat): seq<set<K>> { seq(pages, _ => keys) }

  /** Over an unchanged table, any page sizes list it in order, in at most one page more than it has keys. */
  lemma UnchangedWalkIsSorted<K(!new)>(before: (K, K) -> bool, keys: set<K>, limits: seq<Limit>)
    requires StrictOrder(before) && limits != []
    ensures var walk := Walked(before, Same(keys, |limits|), limits);
            && (walk.finished ==> walk.items == Sort(before, keys))
            && (|limits| > |keys| ==> walk.finished)
  {
    var tables := Same(keys, |limits|);
    var walk := Walked(before, tables, limits);
    WalkKeepsInv(before, tables, limits);
    SortSorts(before, keys);
    assert forall table <- tables :: table == keys;
    if walk.finished {
      assert forall k <- keys :: Throughout(tables, k);
      OrderedListsAgree(before, walk.items, Sort(before, keys));
    } else {
      IncreasingFits(before, walk.items, keys);
    }
  }

  lemma {:induction false} IncreasingFits<K(!new)>(before: (K, K) -> bool, s: seq<K>, keys: set<K>)
    requires StrictOrder(before) && Increasing(before, s) && forall k <- s :: k in keys
    ensures |s| <= |keys|
    decreases |s|
  {
    if s != [] {
      var n := |s| - 1;
      assert s[n] !in s[..n];
      IncreasingFits(before, s[..n], keys - {s[n]});
    }
  }
}
