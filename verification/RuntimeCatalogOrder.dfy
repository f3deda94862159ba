/** The view lists providers by label, and each provider's surfaces by label and then key. */
module RuntimeCatalogOrder {
  import opened Text
  import opened RuntimeCatalog

  /** A comparison whose incomparable elements are interchangeable. */
  ghost predicate WeakOrder<T(!new)>(less: (T, T) -> bool) {
    && (forall a, b :: less(a, b) ==> !less(b, a))
    && (forall a, b, c :: !less(b, a) && !less(c, b) ==> !less(c, a))
  }

  predicate Ordered<T>(less: (T, T) -> bool, s: seq<T>) { forall i, j :: 0 <= i < j < |s| ==> !less(s[j], s[i]) }

  lemma {:induction false} InsertKeepsOrder<T(!new)>(less: (T, T) -> bool, x: T, s: seq<T>)
    requires WeakOrder(less) && Ordered(less, s)
    ensures Ordered(less, InsertBy(less, x, s))
  {
    if s != [] && less(s[0], x) {
      InsertKeepsOrder(less, x, s[1..]);
      InsertKeepsElements(less, x, s[1..]);
      var rest := InsertBy(less, x, s[1..]);
      forall j | 0 <= j < |rest| ensures !less(rest[j], s[0]) {
        assert rest[j] in multiset(rest);
        assert rest[j] == x || rest[j] in s[1..];
      }
    } else {
      forall j | 0 <= j < |s| ensures !less(s[j], x) {
        assert j > 0 ==> !less(s[j], s[0]);
      }
    }
  }

  lemma {:induction false} SortOrders<T(!new)>(less: (T, T) -> bool, s: seq<T>)
    requires WeakOrder(less)
    ensures Ordered(less, StableSort(less, s))
  {
    if s != [] {
      SortOrders(less, s[1..]);
      InsertKeepsOrder(less, s[0], StableSort(less, s[1..]));
    }
  }

  // ---------------------------------------------------------------- strings

  /** The texts first differ where the one ends or has the smaller character. */
  predicate Precedes(a: string, b: string) {
    exists i: nat :: i <= |a| && i < |b| && a[..i] == b[..i] && (i == |a| || a[i] < b[i])
  }

  lemma {:induction false} StringLessIff(a: string, b: string)
    ensures StringLess(a, b) <==> Precedes(a, b)
    decreases |a|
  {
    if a != "" && b != "" && a[0] == b[0] {
      StringLessIff(a[1..], b[1..]);
      if Precedes(a[1..], b[1..]) {
        var i: nat :| && i <= |a[1..]| && i < |b[1..]| && a[1..][..i] == b[1..][..i]
                      && (i == |a[1..]| || a[1..][i] < b[1..][i]);
        assert a[..i + 1] == [a[0]] + a[1..][..i] && b[..i + 1] == [b[0]] + b[1..][..i];
      }
      if Precedes(a, b) {
        var i: nat :| i <= |a| && i < |b| && a[..i] == b[..i] && (i == |a| || a[i] < b[i]);
        assert a[1..][..i - 1] == a[..i][1..] && b[1..][..i - 1] == b[..i][1..];
      }
    } else if b != "" && (a == "" || a[0] < b[0]) {
      assert a[..0] == b[..0];
    } else {
      assert forall i: nat :: 0 < i <= |a| && i <= |b| && a[..i] == b[..i] ==> a[..i][0] == b[..i][0];
    }
  }

  lemma {:induction false} StringLessIsTotal(a: string, b: string)
    ensures StringLess(a, b) || a == b || StringLess(b, a)
    ensures !(StringLess(a, b) && StringLess(b, a))
    ensures !StringLess(a, a)
    decreases |a| + |b|
  {
    if a != "" && b != "" && a[0] == b[0] {
      StringLessIsTotal(a[1..], b[1..]);
      assert a == [a[0]] + a[1..] && b == [b[0]] + b[1..];
    }
    StringLessIrreflexive(a);
  }

  lemma {:induction false} StringLessIrreflexive(a: string)
    ensures !StringLess(a, a)
  {
    if a != "" {
      StringLessIrreflexive(a[1..]);
    }
  }

  lemma {:induction false} StringLessIsTransitive(a: string, b: string, c: string)
    requires StringLess(a, b) && StringLess(b, c)
    ensures StringLess(a, c)
  {
    if a != "" && a[0] == b[0] && b[0] == c[0] {
      StringLessIsTransitive(a[1..], b[1..], c[1..]);
    }
  }

  lemma NotLessIsTransitive(a: string, b: string, c: string)
    requires !StringLess(b, a) && !StringLess(c, b)
    ensures !StringLess(c, a)
  {
    StringLessIsTotal(a, b);
    StringLessIsTotal(b, c);
    if StringLess(a, b) && StringLess(b, c) {
      StringLessIsTransitive(a, b, c);
    }
    StringLessIsTotal(a, c);
  }

  lemma LabelLessIsWeakOrder()
    ensures WeakOrder(LabelLess)
  {
    forall a, b | LabelLess(a, b) ensures !LabelLess(b, a) {
      StringLessIsTotal(ProviderLabel(a), ProviderLabel(b));
    }
    forall a, b, c | !LabelLess(b, a) && !LabelLess(c, b) ensures !LabelLess(c, a) {
      NotLessIsTransitive(ProviderLabel(a), ProviderLabel(b), ProviderLabel(c));
    }
  }

  lemma SurfaceLessIsWeakOrder()
    ensures WeakOrder(SurfaceLess)
  {
    forall a, b | SurfaceLess(a, b) ensures !SurfaceLess(b, a) {
      StringLessIsTotal(a.labelText, b.labelText);
      StringLessIsTotal(CatalogKey(Some(a.ref)), CatalogKey(Some(b.ref)));
    }
    forall a, b, c | !SurfaceLess(b, a) && !SurfaceLess(c, b) ensures !SurfaceLess(c, a) {
      NotSurfaceLessIsTransitive(a, b, c);
    }
  }

  lemma NotSurfaceLessIsTransitive(a: SurfaceOption, b: SurfaceOption, c: SurfaceOption)
    requires !SurfaceLess(b, a) && !SurfaceLess(c, b)
    ensures !SurfaceLess(c, a)
  {
    StringLessIsTotal(a.labelText, b.labelText);
    StringLessIsTotal(b.labelText, c.labelText);
    StringLessIsTotal(a.labelText, c.labelText);
    if a.labelText == b.labelText == c.labelText {
      NotLessIsTransitive(CatalogKey(Some(a.ref)), CatalogKey(Some(b.ref)), CatalogKey(Some(c.ref)));
    } else {
      NotLessIsTransitive(a.labelText, b.labelText, c.labelText);
      if a.labelText == c.labelText {
        StringLessIsTotal(b.labelText, c.labelText);
      }
    }
  }

  // ---------------------------------------------------------------- the view

  predicate LabelsOrdered(items: seq<ProviderOption>) {
    forall i, j :: 0 <= i < j < |items| ==> !Precedes(items[j].labelText, items[i].labelText)
  }

  predicate SurfacesOrdered(surfaces: seq<SurfaceOption>) {
    forall i, j :: 0 <= i < j < |surfaces| ==>
      && !Precedes(surfaces[j].labelText, surfaces[i].labelText)
      && (surfaces[j].labelText == surfaces[i].labelText ==>
            !Precedes(CatalogKey(Some(surfaces[j].ref)), CatalogKey(Some(surfaces[i].ref))))
  }

  lemma OrderedSurfaces(surfaces: seq<SurfaceOption>)
    requires Ordered(SurfaceLess, surfaces)
    ensures SurfacesOrdered(surfaces)
  {
    forall i, j | 0 <= i < j < |surfaces|
      ensures !Precedes(surfaces[j].labelText, surfaces[i].labelText)
      ensures surfaces[j].labelText == surfaces[i].labelText ==>
                !Precedes(CatalogKey(Some(surfaces[j].ref)), CatalogKey(Some(surfaces[i].ref)))
    {
      assert !SurfaceLess(surfaces[j], surfaces[i]);
      StringLessIff(surfaces[j].labelText, surfaces[i].labelText);
      StringLessIff(CatalogKey(Some(surfaces[j].ref)), CatalogKey(Some(surfaces[i].ref)));
      StringLessIrreflexive(surfaces[i].labelText);
    }
  }

  /** The item of the last CLI does not come before those of the others. */
  lemma LastItemIsLast(sources: Sources, clis: seq<CLI>, n: nat, item: ProviderOption)
    requires Ordered(LabelLess, clis) && |clis| == n + 1
    requires exists c <- clis[..n] :: Shown(sources, c) && item == ItemOf(sources, c)
    ensures !Precedes(ItemOf(sources, clis[n]).labelText, item.labelText)
  {
    var c :| c in clis[..n] && Shown(sources, c) && item == ItemOf(sources, c);
    var k :| 0 <= k < n && clis[..n][k] == c;
    assert !LabelLess(clis[n], clis[k]);
    StringLessIff(ItemOf(sources, clis[n]).labelText, item.labelText);
  }

  lemma AppendKeepsLabels(items: seq<ProviderOption>, item: ProviderOption)
    requires LabelsOrdered(items) && forall x <- items :: !Precedes(item.labelText, x.labelText)
    ensures LabelsOrdered(items + [item])
  {
  }

  lemma {:induction false} ItemsKeepOrder(sources: Sources, clis: seq<CLI>)
    requires Ordered(LabelLess, clis)
    ensures LabelsOrdered(Items(sources, clis))
    ensures forall item <- Items(sources, clis) :: exists c <- clis :: Shown(sources, c) && item == ItemOf(sources, c)
  {
    if clis != [] {
      var n := |clis| - 1;
      var before, cli := clis[..n], clis[n];
      ItemsKeepOrder(sources, before);
      assert forall c <- before :: c in clis;
      if Shown(sources, cli) {
        forall item <- Items(sources, before) ensures !Precedes(ItemOf(sources, cli).labelText, item.labelText) {
          LastItemIsLast(sources, clis, n, item);
        }
        AppendKeepsLabels(Items(sources, before), ItemOf(sources, cli));
      }
    }
  }

  // ---------------------------------------------------------------- equal labels

  function Labeled(clis: seq<CLI>, labelText: string): seq<CLI> {
    if clis == [] then [] else
    (if ProviderLabel(clis[0]) == labelText then [clis[0]] else []) + Labeled(clis[1..], labelText)
  }

  function LabeledItems(items: seq<ProviderOption>, labelText: string): seq<ProviderOption> {
    if items == [] then [] else
    var n := |items| - 1;
    LabeledItems(items[..n], labelText) + if items[n].labelText == labelText then [items[n]] else []
  }

  lemma LabeledCons(x: CLI, s: seq<CLI>, labelText: string)
    ensures Labeled([x] + s, labelText)
            == if ProviderLabel(x) == labelText then [x] + Labeled(s, labelText) else Labeled(s, labelText)
  {
    assert ([x] + s)[1..] == s;
  }

  lemma {:induction false} InsertKeepsLabeled(x: CLI, s: seq<CLI>, labelText: string)
    ensures Labeled(InsertBy(LabelLess, x, s), labelText)
            == if ProviderLabel(x) == labelText then [x] + Labeled(s, labelText) else Labeled(s, labelText)
  {
    if s != [] && LabelLess(s[0], x) {
      InsertKeepsLabeled(x, s[1..], labelText);
      StringLessIrreflexive(labelText);
      LabeledCons(s[0], InsertBy(LabelLess, x, s[1..]), labelText);
    } else {
      LabeledCons(x, s, labelText);
    }
  }

  lemma {:induction false} SortKeepsLabeled(s: seq<CLI>, labelText: string)
    ensures Labeled(StableSort(LabelLess, s), labelText) == Labeled(s, labelText)
  {
    if s != [] {
      SortKeepsLabeled(s[1..], labelText);
      InsertKeepsLabeled(s[0], StableSort(LabelLess, s[1..]), labelText);
      assert s == [s[0]] + s[1..];
      LabeledCons(s[0], s[1..], labelText);
    }
  }

  lemma {:induction false} LabeledAppends(clis: seq<CLI>, cli: CLI, labelText: string)
    ensures Labeled(clis + [cli], labelText)
            == if ProviderLabel(cli) == labelText then Labeled(clis, labelText) + [cli] else Labeled(clis, labelText)
  {
    if clis != [] {
      assert (clis + [cli])[1..] == clis[1..] + [cli];
      LabeledAppends(clis[1..], cli, labelText);
    } else {
      assert [cli][1..] == [];
    }
  }

  lemma ItemsAppend(sources: Sources, clis: seq<CLI>, cli: CLI)
    ensures Items(sources, clis + [cli])
            == if Shown(sources, cli) then Items(sources, clis) + [ItemOf(sources, cli)] else Items(sources, clis)
  {
    assert (clis + [cli])[..|clis|] == clis;
  }

  lemma LabeledItemsAppend(items: seq<ProviderOption>, item: ProviderOption, labelText: string)
    ensures LabeledItems(items + [item], labelText)
            == if item.labelText == labelText then LabeledItems(items, labelText) + [item]
               else LabeledItems(items, labelText)
  {
    assert (items + [item])[..|items|] == items;
  }

  lemma {:induction false} LabeledItemsAreOfLabeled(sources: Sources, clis: seq<CLI>, labelText: string)
    ensures LabeledItems(Items(sources, clis), labelText) == Items(sources, Labeled(clis, labelText))
  {
    if clis != [] {
      var n := |clis| - 1;
      var before, cli := clis[..n], clis[n];
      assert clis == before + [cli];
      LabeledItemsAreOfLabeled(sources, before, labelText);
      LabeledAppends(before, cli, labelText);
      ItemsAppend(sources, before, cli);
      ItemsAppend(sources, Labeled(before, labelText), cli);
      LabeledItemsAppend(Items(sources, before), ItemOf(sources, cli), labelText);
    }
  }

  /**
   * What is shown is ordered: providers by label, those with the same label
   * in the order given, and the surfaces of each by label and then key.
   */
  lemma ViewIsOrdered(sources: Sources, clis: seq<CLI>, labelText: string)
    ensures LabelsOrdered(Build(sources, clis).view)
    ensures forall item <- Build(sources, clis).view :: SurfacesOrdered(item.surfaces)
    ensures LabeledItems(Build(sources, clis).view, labelText) == Items(sources, Labeled(clis, labelText))
  {
    LabelLessIsWeakOrder();
    SurfaceLessIsWeakOrder();
    var sorted := StableSort(LabelLess, clis);
    SortOrders(LabelLess, clis);
    ItemsKeepOrder(sources, sorted);
    forall item <- Items(sources, sorted) ensures SurfacesOrdered(item.surfaces) {
      var c :| c in sorted && Shown(sources, c) && item == ItemOf(sources, c);
      SortOrders(SurfaceLess, SurfaceItems(c, sources.surfaces));
      OrderedSurfaces(item.surfaces);
    }
    SortKeepsLabeled(clis, labelText);
    LabeledItemsAreOfLabeled(sources, sorted, labelText);
  }
}
