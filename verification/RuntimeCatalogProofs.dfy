/** What users are shown and what specs are accepted agree. */
module RuntimeCatalogProofs {
  import opened Text
  import opened SessionTypes
  import opened RuntimeCatalog
  import opened RuntimeCatalogKeys

  // ---------------------------------------------------------------- surfaces

  predicate Clean(values: seq<string>) { forall x <- values :: x != "" && Trimmed(x) }

  lemma {:induction false} ModelsAreClean(models: seq<CatalogModel>)
    ensures Clean(Models(models))
  {
    if models != [] {
      var m := models[|models| - 1];
      ModelsAreClean(models[..|models| - 1]);
      FirstNonEmptyTrims([m.providerModelID, m.refModelID]);
    }
  }

  lemma TrimmedsOfClean(values: seq<string>, v: string)
    requires Clean(values)
    ensures TrimSpace(v) in Trimmeds(values) <==> TrimSpace(v) in values
  {
    forall x <- values ensures TrimSpace(x) == x {
      TrimSpaceTrims(x);
    }
    assert TrimSpace(v) in values ==> TrimSpace(TrimSpace(v)) == TrimSpace(v);
  }

  /** The models of a surface are the ids it names, each listed once. */
  lemma {:induction false} ModelsAreTheNamedOnes(models: seq<CatalogModel>, id: string)
    ensures id in Models(models) <==> id != "" && exists m <- models :: ModelID(m) == id
    ensures forall i, j :: 0 <= i < j < |Models(models)| ==> Models(models)[i] != Models(models)[j]
  {
    if models != [] {
      var n := |models| - 1;
      ModelsAreTheNamedOnes(models[..n], id);
      assert models == models[..n] + [models[n]];
      assert forall m :: m in models <==> m in models[..n] || m == models[n];
    }
  }

  predicate NulFree(surfaces: seq<Surface>) {
    forall s <- surfaces :: NUL !in TrimSpace(s.providerID) && NUL !in TrimSpace(s.surfaceID)
  }

  lemma OfferedRefIsViewRef(cli: CLI, s: Surface)
    requires Offers(cli, s) && NulFree([s])
    ensures ViewRef(RefForSurface(s).value)
  {
    assert s in [s];
    TrimSpaceTrims(s.providerID);
    TrimSpaceTrims(s.surfaceID);
  }

  /** Offered surfaces share a key only if they share the reference. */
  lemma SameKeySameRef(cli: CLI, s: Surface, t: Surface)
    requires Offers(cli, s) && Offers(cli, t) && NulFree([s]) && NulFree([t])
    requires CatalogKey(RefForSurface(s)) == CatalogKey(RefForSurface(t))
    ensures RefForSurface(s) == RefForSurface(t)
  {
    OfferedRefIsViewRef(cli, s);
    OfferedRefIsViewRef(cli, t);
    KeyIdentifies(RefForSurface(s).value, RefForSurface(t));
    TrimSpaceTrims(RefForSurface(t).value.providerID);
    TrimSpaceTrims(RefForSurface(t).value.surfaceID);
  }

  function KeyOf(s: Surface): string { CatalogKey(RefForSurface(s)) }

  // ---------------------------------------------------------------- what is filed under a key

  /** The key and the models a surface is filed under. */
  datatype Entry = Entry(key: string, models: seq<string>)

  function EntryOf(s: Surface): Entry { Entry(KeyOf(s), SurfaceModels(s)) }

  /** The surfaces a CLI offers, in the order they are filed. */
  function Entries(cli: CLI, surfaces: seq<Surface>): seq<Entry> {
    if surfaces == [] then [] else
    var before, s := Entries(cli, surfaces[..|surfaces| - 1]), surfaces[|surfaces| - 1];
    if Offers(cli, s) then before + [EntryOf(s)] else before
  }

  /** A later entry with the same key replaces an earlier one. */
  function Filed(entries: seq<Entry>): map<string, set<string>> {
    if entries == [] then map[] else
    var last := entries[|entries| - 1];
    Filed(entries[..|entries| - 1])[last.key := Trimmeds(last.models)]
  }

  lemma {:induction false} EntriesAreFiled(cli: CLI, surfaces: seq<Surface>)
    ensures SurfaceIndex(cli, surfaces) == Filed(Entries(cli, surfaces))
  {
    if surfaces != [] {
      var n := |surfaces| - 1;
      EntriesAreFiled(cli, surfaces[..n]);
      var before := Entries(cli, surfaces[..n]);
      assert (before + [EntryOf(surfaces[n])])[..|before|] == before;
    }
  }

  lemma {:induction false} EntriesHoldAll(cli: CLI, surfaces: seq<Surface>, entry: Entry)
    ensures entry in Entries(cli, surfaces) <==> exists s <- surfaces :: Offers(cli, s) && entry == EntryOf(s)
  {
    if surfaces != [] {
      var n := |surfaces| - 1;
      assert surfaces == surfaces[..n] + [surfaces[n]];
      EntriesHoldAll(cli, surfaces[..n], entry);
      assert forall t :: t in surfaces <==> t in surfaces[..n] || t == surfaces[n];
    }
  }

  predicate IsLast(entries: seq<Entry>, j: nat) {
    j < |entries| && forall k: nat :: j < k < |entries| ==> entries[k].key != entries[j].key
  }

  predicate Within(some: seq<string>, all: seq<string>) { forall id <- some :: id in all }

  /** Every entry of the one list has its models in the last entry under its key of the other. */
  ghost predicate CoveredBy(some: seq<Entry>, all: seq<Entry>) { forall e <- some :: EntryCovered(e, all) }

  ghost predicate EntryCovered(e: Entry, all: seq<Entry>) {
    exists j: nat :: IsLast(all, j) && all[j].key == e.key && Within(e.models, all[j].models)
  }

  lemma {:induction false} LastOf(entries: seq<Entry>, i: nat) returns (j: nat)
    requires i < |entries|
    ensures IsLast(entries, j) && entries[j].key == entries[i].key
    decreases |entries| - i
  {
    if IsLast(entries, i) {
      j := i;
    } else {
      var k: nat :| i < k < |entries| && entries[k].key == entries[i].key;
      j := LastOf(entries, k);
    }
  }

  /** What is filed under a key are the models of the last entry under it. */
  lemma {:induction false} FiledIsLast(entries: seq<Entry>, j: nat)
    requires IsLast(entries, j)
    ensures entries[j].key in Filed(entries) && Filed(entries)[entries[j].key] == Trimmeds(entries[j].models)
  {
    var n := |entries| - 1;
    if j < n {
      assert entries[n].key != entries[j].key;
      assert forall k: nat :: k < n ==> entries[..n][k] == entries[k];
      FiledIsLast(entries[..n], j);
    }
  }

  lemma {:induction false} FiledFrom(entries: seq<Entry>, key: string) returns (i: nat)
    requires key in Filed(entries)
    ensures i < |entries| && entries[i].key == key
  {
    var n := |entries| - 1;
    if key == entries[n].key {
      i := n;
    } else {
      i := FiledFrom(entries[..n], key);
    }
  }

  predicate IndexAccepts(index: map<string, set<string>>, key: string, model: string) {
    key in index && TrimSpace(model) in index[key]
  }

  predicate EntriesOffer(entries: seq<Entry>, key: string, model: string) {
    exists e <- entries :: e.key == key && TrimSpace(model) in Trimmeds(e.models)
  }

  lemma FiledIsOffered(entries: seq<Entry>, key: string, model: string)
    requires IndexAccepts(Filed(entries), key, model)
    ensures EntriesOffer(entries, key, model)
  {
    var i := FiledFrom(entries, key);
    var j := LastOf(entries, i);
    FiledIsLast(entries, j);
    assert entries[j] in entries;
  }

  lemma OfferedIsFiled(some: seq<Entry>, all: seq<Entry>, key: string, model: string)
    requires CoveredBy(some, all) && EntriesOffer(some, key, model)
    ensures IndexAccepts(Filed(all), key, model)
  {
    var e :| e in some && e.key == key && TrimSpace(model) in Trimmeds(e.models);
    assert EntryCovered(e, all);
    var j: nat :| IsLast(all, j) && all[j].key == e.key && Within(e.models, all[j].models);
    FiledIsLast(all, j);
  }

  /** An entry that is not covered has a model that is not filed under its key. */
  lemma UncoveredIsNotFiled(e: Entry, all: seq<Entry>) returns (id: string)
    requires !EntryCovered(e, all) && e.models != [] && Clean(e.models) && forall x <- all :: Clean(x.models)
    ensures id in e.models && TrimSpace(id) == id && TrimSpace(id) in Trimmeds(e.models)
    ensures !IndexAccepts(Filed(all), e.key, id)
  {
    id := e.models[0];
    if e.key in Filed(all) {
      var i := FiledFrom(all, e.key);
      var j := LastOf(all, i);
      FiledIsLast(all, j);
      id :| id in e.models && id !in all[j].models;
      assert all[j] in all;
      TrimmedsOfClean(all[j].models, id);
    }
    TrimSpaceTrims(id);
    TrimmedsOfClean(e.models, id);
  }

  lemma {:induction false} EntriesAreClean(cli: CLI, surfaces: seq<Surface>)
    ensures forall e <- Entries(cli, surfaces) :: Clean(e.models)
  {
    if surfaces != [] {
      var n := |surfaces| - 1;
      EntriesAreClean(cli, surfaces[..n]);
      if surfaces[n].runtime.Some? {
        ModelsAreClean(surfaces[n].runtime.value.models);
      }
    }
  }

  /** Surfaces of one CLI with the same reference offer the same models. */
  predicate RefsAgree(cli: CLI, surfaces: seq<Surface>) {
    forall s <- surfaces, t <- surfaces :: Offers(cli, s) && Offers(cli, t) && RefForSurface(s) == RefForSurface(t) ==>
      SurfaceModels(s) == SurfaceModels(t)
  }

  /** In particular when every reference is offered once, or always with the same models. */
  lemma AgreeingRefsAreCovered(cli: CLI, surfaces: seq<Surface>)
    requires NulFree(surfaces) && RefsAgree(cli, surfaces)
    ensures CoveredBy(Entries(cli, surfaces), Entries(cli, surfaces))
  {
    var entries := Entries(cli, surfaces);
    forall e <- entries ensures EntryCovered(e, entries) {
      var i: nat :| i < |entries| && entries[i] == e;
      var j := LastOf(entries, i);
      EntriesHoldAll(cli, surfaces, entries[i]);
      EntriesHoldAll(cli, surfaces, entries[j]);
      var s :| s in surfaces && Offers(cli, s) && entries[i] == EntryOf(s);
      var t :| t in surfaces && Offers(cli, t) && entries[j] == EntryOf(t);
      SameKeySameRef(cli, s, t);
    }
  }

  // ---------------------------------------------------------------- shown and accepted surfaces

  lemma {:induction false} ItemsHoldAll(cli: CLI, surfaces: seq<Surface>, option: SurfaceOption)
    ensures option in SurfaceItems(cli, surfaces) <==> exists s <- surfaces :: Offers(cli, s) && option == OptionOf(s)
  {
    if surfaces != [] {
      var n := |surfaces| - 1;
      assert surfaces == surfaces[..n] + [surfaces[n]];
      ItemsHoldAll(cli, surfaces[..n], option);
      assert forall t :: t in surfaces <==> t in surfaces[..n] || t == surfaces[n];
    }
  }

  predicate SurfaceOffered(option: SurfaceOption, ref: Option<RuntimeRef>, model: string) {
    ref.Some? && SameRef(option.ref, ref.value) && TrimSpace(model) in option.models
  }

  predicate SurfacesOffer(surfaces: seq<SurfaceOption>, ref: Option<RuntimeRef>, model: string) {
    exists option <- surfaces :: SurfaceOffered(option, ref, model)
  }

  lemma OfferedSurfaceAgrees(cli: CLI, s: Surface, ref: Option<RuntimeRef>, model: string)
    requires Offers(cli, s) && NulFree([s])
    ensures SurfaceOffered(OptionOf(s), ref, model)
            <==> CatalogKey(RefForSurface(s)) == CatalogKey(ref) && TrimSpace(model) in Trimmeds(SurfaceModels(s))
  {
    OfferedRefIsViewRef(cli, s);
    KeyIdentifies(RefForSurface(s).value, ref);
    if s.runtime.Some? {
      ModelsAreClean(s.runtime.value.models);
    }
    TrimmedsOfClean(SurfaceModels(s), model);
  }

  /** The shown surfaces offer what the entries offer. */
  lemma ShownAsFiled(cli: CLI, surfaces: seq<Surface>, ref: Option<RuntimeRef>, model: string)
    requires NulFree(surfaces)
    ensures SurfacesOffer(SurfaceItems(cli, surfaces), ref, model)
            <==> EntriesOffer(Entries(cli, surfaces), CatalogKey(ref), model)
  {
    if SurfacesOffer(SurfaceItems(cli, surfaces), ref, model) {
      var option :| option in SurfaceItems(cli, surfaces) && SurfaceOffered(option, ref, model);
      ItemsHoldAll(cli, surfaces, option);
      var s :| s in surfaces && Offers(cli, s) && option == OptionOf(s);
      OfferedSurfaceAgrees(cli, s, ref, model);
      EntriesHoldAll(cli, surfaces, EntryOf(s));
      assert EntryOf(s) in Entries(cli, surfaces);
    }
    if EntriesOffer(Entries(cli, surfaces), CatalogKey(ref), model) {
      var e :| e in Entries(cli, surfaces) && e.key == CatalogKey(ref) && TrimSpace(model) in Trimmeds(e.models);
      EntriesHoldAll(cli, surfaces, e);
      var s :| s in surfaces && Offers(cli, s) && e == EntryOf(s);
      OfferedSurfaceAgrees(cli, s, ref, model);
      ItemsHoldAll(cli, surfaces, OptionOf(s));
      assert OptionOf(s) in SurfaceItems(cli, surfaces);
    }
  }

  /** What is accepted for a CLI is offered by one of its shown surfaces. */
  lemma AcceptedIsShown(cli: CLI, surfaces: seq<Surface>, ref: Option<RuntimeRef>, model: string)
    requires NulFree(surfaces) && IndexAccepts(SurfaceIndex(cli, surfaces), CatalogKey(ref), model)
    ensures SurfacesOffer(SurfaceItems(cli, surfaces), ref, model)
  {
    EntriesAreFiled(cli, surfaces);
    ShownAsFiled(cli, surfaces, ref, model);
    FiledIsOffered(Entries(cli, surfaces), CatalogKey(ref), model);
  }

  /** What a CLI shows is accepted for another one whose surfaces cover its own. */
  lemma ShownIsAccepted(cli: CLI, owner: CLI, surfaces: seq<Surface>, ref: Option<RuntimeRef>, model: string)
    requires NulFree(surfaces) && CoveredBy(Entries(cli, surfaces), Entries(owner, surfaces))
    requires SurfacesOffer(SurfaceItems(cli, surfaces), ref, model)
    ensures IndexAccepts(SurfaceIndex(owner, surfaces), CatalogKey(ref), model)
  {
    EntriesAreFiled(owner, surfaces);
    ShownAsFiled(cli, surfaces, ref, model);
    OfferedIsFiled(Entries(cli, surfaces), Entries(owner, surfaces), CatalogKey(ref), model);
  }

  /** Without the cover some model is shown by the one and refused for the other. */
  lemma RefusedModel(cli: CLI, owner: CLI, surfaces: seq<Surface>) returns (ref: Option<RuntimeRef>, id: string)
    requires NulFree(surfaces) && !CoveredBy(Entries(cli, surfaces), Entries(owner, surfaces))
    ensures TrimSpace(id) == id && SurfacesOffer(SurfaceItems(cli, surfaces), ref, id)
    ensures !IndexAccepts(SurfaceIndex(owner, surfaces), CatalogKey(ref), id)
  {
    var some, all := Entries(cli, surfaces), Entries(owner, surfaces);
    var e :| e in some && !EntryCovered(e, all);
    EntriesHoldAll(cli, surfaces, e);
    var s :| s in surfaces && Offers(cli, s) && e == EntryOf(s);
    EntriesAreClean(cli, surfaces);
    EntriesAreClean(owner, surfaces);
    id := UncoveredIsNotFiled(e, all);
    ref := RefForSurface(s);
    EntriesAreFiled(owner, surfaces);
    ShownAsFiled(cli, surfaces, ref, id);
  }

  /**
   * For one CLI, every reference and model is accepted exactly when a shown
   * surface offers it, if and only if the last surface offered under each key
   * has the models of all the surfaces offered under it.
   */
  lemma SurfacesAgreeIff(cli: CLI, surfaces: seq<Surface>)
    requires NulFree(surfaces)
    ensures (forall ref: Option<RuntimeRef>, model: string ::
               IndexAccepts(SurfaceIndex(cli, surfaces), CatalogKey(ref), model)
               <==> SurfacesOffer(SurfaceItems(cli, surfaces), ref, model))
            <==> CoveredBy(Entries(cli, surfaces), Entries(cli, surfaces))
  {
    if CoveredBy(Entries(cli, surfaces), Entries(cli, surfaces)) {
      forall ref: Option<RuntimeRef>, model: string
        ensures IndexAccepts(SurfaceIndex(cli, surfaces), CatalogKey(ref), model)
                <==> SurfacesOffer(SurfaceItems(cli, surfaces), ref, model)
      {
        if IndexAccepts(SurfaceIndex(cli, surfaces), CatalogKey(ref), model) {
          AcceptedIsShown(cli, surfaces, ref, model);
        } else if SurfacesOffer(SurfaceItems(cli, surfaces), ref, model) {
          ShownIsAccepted(cli, cli, surfaces, ref, model);
        }
      }
    } else {
      var ref, id := RefusedModel(cli, cli, surfaces);
    }
  }

  // ---------------------------------------------------------------- providers

  /** The CLI whose index a provider id resolves to: the last one shown under it. */
  function Owner(sources: Sources, clis: seq<CLI>, id: string): Option<CLI> {
    if clis == [] then None else
    var last := clis[|clis| - 1];
    if Shown(sources, last) && TrimSpace(last.cliID) == id then Some(last) else Owner(sources, clis[..|clis| - 1], id)
  }

  lemma {:induction false} ProvidersHaveOwners(sources: Sources, clis: seq<CLI>, id: string)
    ensures id in Providers(sources, clis) <==> Owner(sources, clis, id).Some?
    ensures id in Providers(sources, clis) ==>
            Providers(sources, clis)[id] == IndexOf(sources, Owner(sources, clis, id).value)
  {
    if clis != [] {
      ProvidersHaveOwners(sources, clis[..|clis| - 1], id);
    }
  }

  lemma {:induction false} OwnerIsShown(sources: Sources, clis: seq<CLI>, id: string)
    ensures Owner(sources, clis, id).Some? <==> exists c <- clis :: Shown(sources, c) && TrimSpace(c.cliID) == id
    ensures var owner := Owner(sources, clis, id);
            owner.Some? ==> owner.value in clis && Shown(sources, owner.value) && TrimSpace(owner.value.cliID) == id
  {
    if clis != [] {
      var n := |clis| - 1;
      assert clis == clis[..n] + [clis[n]];
      assert forall c :: c in clis <==> c in clis[..n] || c == clis[n];
      OwnerIsShown(sources, clis[..n], id);
    }
  }

  /** A CLI id names one CLI. */
  predicate UniqueCLIs(clis: seq<CLI>) {
    forall a <- clis, b <- clis :: TrimSpace(a.cliID) != "" && TrimSpace(a.cliID) == TrimSpace(b.cliID) ==> a == b
  }

  /** Then every CLI that is shown is its own owner. */
  lemma UniqueOwners(sources: Sources, clis: seq<CLI>, cli: CLI)
    requires UniqueCLIs(clis) && cli in clis && Shown(sources, cli)
    ensures Owner(sources, clis, TrimSpace(cli.cliID)) == Some(cli)
  {
    OwnerIsShown(sources, clis, TrimSpace(cli.cliID));
  }

  lemma {:induction false} ProviderItemsHoldAll(sources: Sources, clis: seq<CLI>, item: ProviderOption)
    ensures item in Items(sources, clis) <==> exists c <- clis :: Shown(sources, c) && item == ItemOf(sources, c)
  {
    if clis != [] {
      var n := |clis| - 1;
      assert clis == clis[..n] + [clis[n]];
      assert forall c :: c in clis <==> c in clis[..n] || c == clis[n];
      ProviderItemsHoldAll(sources, clis[..n], item);
    }
  }

  lemma {:induction false} ClassesAreClean(classes: seq<string>, images: seq<Image>, cliID: string)
    ensures Clean(AvailableClasses(classes, images, cliID))
  {
    if classes != [] {
      ClassesAreClean(classes[..|classes| - 1], images, cliID);
      TrimSpaceTrims(classes[|classes| - 1]);
    }
  }

  /** The classes offered for a CLI are those its definition lists and an image provides, each once. */
  lemma {:induction false} ClassesAreTheAvailableOnes(classes: seq<string>, images: seq<Image>, cliID: string,
                                                      c: string)
    ensures c in AvailableClasses(classes, images, cliID)
            <==> Available(images, cliID, c) && exists x <- classes :: TrimSpace(x) == c
    ensures var offered := AvailableClasses(classes, images, cliID);
            forall i, j :: 0 <= i < j < |offered| ==>
              offered[i] != offered[j]
  {
    if classes != [] {
      var n := |classes| - 1;
      ClassesAreTheAvailableOnes(classes[..n], images, cliID, c);
      assert classes == classes[..n] + [classes[n]];
      assert forall x :: x in classes <==> x in classes[..n] || x == classes[n];
    }
  }

  /** The definition used for a CLI id is the last one given for it. */
  lemma {:induction false} LastDefinitionCounts(definitions: seq<Definition>, cliID: string) returns (k: nat)
    ensures DefinitionOf(definitions, cliID).Some?
            <==> cliID != "" && exists d <- definitions :: TrimSpace(d.cliID) == cliID
    ensures DefinitionOf(definitions, cliID).Some? ==>
            && k < |definitions| && DefinitionOf(definitions, cliID).value == definitions[k]
            && TrimSpace(definitions[k].cliID) == cliID
    ensures DefinitionOf(definitions, cliID).Some? ==> forall j :: k < j < |definitions| ==>
              TrimSpace(definitions[j].cliID) != cliID
  {
    k := 0;
    if definitions != [] {
      var n := |definitions| - 1;
      assert definitions == definitions[..n] + [definitions[n]];
      assert forall d :: d in definitions <==> d in definitions[..n] || d == definitions[n];
      if TrimSpace(definitions[n].cliID) == cliID && cliID != "" {
        k := n;
      } else {
        k := LastDefinitionCounts(definitions[..n], cliID);
      }
    }
  }

  /** What the user sees: the item offers the class, and its surfaces the reference and model of every candidate. */
  predicate ItemOffers(item: ProviderOption, spec: Spec) {
    && item.providerID == TrimSpace(spec.providerID)
    && TrimSpace(spec.executionClass) in item.executionClasses
    && spec.runtimeConfig.Some?
    && SurfacesOffer(item.surfaces, spec.runtimeConfig.value.runtimeRef, PrimaryModel(spec.runtimeConfig.value))
    && forall f <- spec.runtimeConfig.value.fallbacks ::
       SurfacesOffer(item.surfaces, f.runtimeRef, SelectedModel(f.selector))
  }

  predicate ProviderAccepts(provider: ProviderIndex, spec: Spec) {
    && TrimSpace(spec.executionClass) in provider.executionClasses
    && spec.runtimeConfig.Some? && ConfigAccepted(provider, spec.runtimeConfig.value)
  }

  lemma ClassAgrees(sources: Sources, id: string, executionClass: string)
    ensures TrimSpace(executionClass) in Trimmeds(ExecutionClasses(sources, id))
            <==> TrimSpace(executionClass) in ExecutionClasses(sources, id)
  {
    if DefinitionOf(sources.definitions, id).Some? {
      ClassesAreClean(DefinitionOf(sources.definitions, id).value.executionClasses, sources.images, id);
    }
    TrimmedsOfClean(ExecutionClasses(sources, id), executionClass);
  }

  lemma ItemShows(sources: Sources, cli: CLI, ref: Option<RuntimeRef>, model: string)
    ensures SurfacesOffer(ItemOf(sources, cli).surfaces, ref, model)
            <==> SurfacesOffer(SurfaceItems(cli, sources.surfaces), ref, model)
  {
    SortKeepsElements(SurfaceLess, SurfaceItems(cli, sources.surfaces));
  }

  /** What the index of a CLI accepts, its item offers. */
  lemma AcceptedIsOffered(sources: Sources, cli: CLI, spec: Spec)
    requires NulFree(sources.surfaces) && TrimSpace(cli.cliID) == TrimSpace(spec.providerID)
    requires ProviderAccepts(IndexOf(sources, cli), spec)
    ensures ItemOffers(ItemOf(sources, cli), spec)
  {
    var config := spec.runtimeConfig.value;
    ClassAgrees(sources, TrimSpace(cli.cliID), spec.executionClass);
    AcceptedIsShown(cli, sources.surfaces, config.runtimeRef, PrimaryModel(config));
    ItemShows(sources, cli, config.runtimeRef, PrimaryModel(config));
    forall f <- config.fallbacks
      ensures SurfacesOffer(ItemOf(sources, cli).surfaces, f.runtimeRef, SelectedModel(f.selector)) {
      AcceptedIsShown(cli, sources.surfaces, f.runtimeRef, SelectedModel(f.selector));
      ItemShows(sources, cli, f.runtimeRef, SelectedModel(f.selector));
    }
  }

  /** What the item of a CLI offers, the index of an owner that covers it accepts. */
  lemma OfferedIsAccepted(sources: Sources, cli: CLI, owner: CLI, spec: Spec)
    requires NulFree(sources.surfaces) && CoveredBy(Entries(cli, sources.surfaces), Entries(owner, sources.surfaces))
    requires TrimSpace(owner.cliID) == TrimSpace(cli.cliID) && ItemOffers(ItemOf(sources, cli), spec)
    ensures ProviderAccepts(IndexOf(sources, owner), spec)
  {
    var config := spec.runtimeConfig.value;
    ClassAgrees(sources, TrimSpace(cli.cliID), spec.executionClass);
    ItemShows(sources, cli, config.runtimeRef, PrimaryModel(config));
    ShownIsAccepted(cli, owner, sources.surfaces, config.runtimeRef, PrimaryModel(config));
    forall f <- config.fallbacks
      ensures SurfaceAccepted(IndexOf(sources, owner), f.runtimeRef, SelectedModel(f.selector)) {
      ItemShows(sources, cli, f.runtimeRef, SelectedModel(f.selector));
      ShownIsAccepted(cli, owner, sources.surfaces, f.runtimeRef, SelectedModel(f.selector));
    }
  }

  predicate OfferedIn(view: seq<ProviderOption>, spec: Option<Spec>) {
    spec.Some? && exists item <- view :: ItemOffers(item, spec.value)
  }

  /** The surfaces of the CLI are covered by those of the owner of its id. */
  ghost predicate OwnerCovers(sources: Sources, clis: seq<CLI>, cli: CLI) {
    var owner := Owner(sources, clis, TrimSpace(cli.cliID));
    owner.Some? && CoveredBy(Entries(cli, sources.surfaces), Entries(owner.value, sources.surfaces))
  }

  /** Every CLI shown is covered by the owner of its id, in the order they are filed. */
  ghost predicate Covered(sources: Sources, clis: seq<CLI>) {
    var sorted := StableSort(LabelLess, clis);
    forall c <- sorted :: Shown(sources, c) ==> OwnerCovers(sources, sorted, c)
  }

  /** When a CLI id names one CLI, it is enough that each shown one covers itself. */
  lemma UniqueCLIsCoveredIff(sources: Sources, clis: seq<CLI>)
    requires UniqueCLIs(clis)
    ensures Covered(sources, clis)
            <==> forall c <- clis :: Shown(sources, c) ==>
                CoveredBy(Entries(c, sources.surfaces), Entries(c, sources.surfaces))
  {
    var sorted := StableSort(LabelLess, clis);
    SortKeepsElements(LabelLess, clis);
    forall c <- sorted | Shown(sources, c) ensures Owner(sources, sorted, TrimSpace(c.cliID)) == Some(c) {
      UniqueOwners(sources, sorted, c);
    }
    if Covered(sources, clis) {
      forall c <- clis | Shown(sources, c)
        ensures CoveredBy(Entries(c, sources.surfaces), Entries(c, sources.surfaces)) {
        assert c in sorted && OwnerCovers(sources, sorted, c);
      }
    }
  }

  /**
   * A spec is accepted exactly when one item of the view offers its execution
   * class and, for the primary and every fallback, a surface with the
   * reference and model asked for; given that the owner of each shown id
   * covers every CLI shown under it, and that the catalog's ids hold no NUL.
   */
  lemma CatalogAgreesWithView(sources: Sources, clis: seq<CLI>, spec: Option<Spec>)
    requires NulFree(sources.surfaces) && Covered(sources, clis)
    ensures Accepts(Build(sources, clis), spec) <==> OfferedIn(Build(sources, clis).view, spec)
  {
    if spec.Some? {
      AgreesWithItems(sources, StableSort(LabelLess, clis), spec.value);
    }
  }

  lemma AgreesWithItems(sources: Sources, clis: seq<CLI>, spec: Spec)
    requires NulFree(sources.surfaces) && forall c <- clis :: Shown(sources, c) ==> OwnerCovers(sources, clis, c)
    ensures var id, providers := TrimSpace(spec.providerID), Providers(sources, clis);
            id in providers && ProviderAccepts(providers[id], spec)
            <==> exists item <- Items(sources, clis) :: ItemOffers(item, spec)
  {
    var id, providers := TrimSpace(spec.providerID), Providers(sources, clis);
    ProvidersHaveOwners(sources, clis, id);
    OwnerIsShown(sources, clis, id);
    if id in providers && ProviderAccepts(providers[id], spec) {
      var owner := Owner(sources, clis, id).value;
      AcceptedIsOffered(sources, owner, spec);
      ProviderItemsHoldAll(sources, clis, ItemOf(sources, owner));
      assert ItemOf(sources, owner) in Items(sources, clis);
    }
    forall item <- Items(sources, clis) | ItemOffers(item, spec)
      ensures id in providers && ProviderAccepts(providers[id], spec) {
      ProviderItemsHoldAll(sources, clis, item);
      var c :| c in clis && Shown(sources, c) && item == ItemOf(sources, c);
      assert OwnerCovers(sources, clis, c);
      OfferedIsAccepted(sources, c, Owner(sources, clis, id).value, spec);
    }
  }

  /** The spec that asks one CLI for one of its classes and one reference and model. */
  function AskFor(sources: Sources, cli: CLI, ref: Option<RuntimeRef>, id: string): Spec
    requires ExecutionClasses(sources, TrimSpace(cli.cliID)) != []
  {
    Spec("", cli.cliID, "", Some(RuntimeConfig(ref, [], Some(ProviderModel(id)))), None, None, None, 0,
         ExecutionClasses(sources, TrimSpace(cli.cliID))[0], [])
  }

  lemma ShownItemOffers(sources: Sources, cli: CLI, ref: Option<RuntimeRef>, model: string, spec: Spec)
    requires Shown(sources, cli) && spec == AskFor(sources, cli, ref, model) && TrimSpace(model) == model
    requires SurfacesOffer(SurfaceItems(cli, sources.surfaces), ref, model)
    ensures ItemOffers(ItemOf(sources, cli), spec)
  {
    var id := TrimSpace(cli.cliID);
    ClassesAreClean(DefinitionOf(sources.definitions, id).value.executionClasses, sources.images, id);
    TrimSpaceTrims(spec.executionClass);
    ItemShows(sources, cli, ref, model);
  }

  /** A shown CLI that its owner does not cover has a spec that is offered and refused. */
  lemma RefusedSpec(sources: Sources, clis: seq<CLI>, cli: CLI) returns (spec: Spec)
    requires NulFree(sources.surfaces) && cli in clis && Shown(sources, cli) && !OwnerCovers(sources, clis, cli)
    ensures exists item <- Items(sources, clis) :: ItemOffers(item, spec)
    ensures var id, providers := TrimSpace(spec.providerID), Providers(sources, clis);
            !(id in providers && ProviderAccepts(providers[id], spec))
  {
    var id := TrimSpace(cli.cliID);
    ProvidersHaveOwners(sources, clis, id);
    OwnerIsShown(sources, clis, id);
    var ref, model := RefusedModel(cli, Owner(sources, clis, id).value, sources.surfaces);
    spec := AskFor(sources, cli, ref, model);
    assert PrimaryModel(spec.runtimeConfig.value) == model;
    ShownItemOffers(sources, cli, ref, model, spec);
    ProviderItemsHoldAll(sources, clis, ItemOf(sources, cli));
    assert ItemOf(sources, cli) in Items(sources, clis);
  }

  /**
   * The exact condition, whatever CLIs there are: the view and the validator
   * agree on every spec if and only if the owner of each shown id covers every
   * CLI shown under it.
   */
  lemma CatalogAgreesIff(sources: Sources, clis: seq<CLI>)
    requires NulFree(sources.surfaces)
    ensures (forall spec: Option<Spec> ::
               Accepts(Build(sources, clis), spec) <==> OfferedIn(Build(sources, clis).view, spec))
            <==> Covered(sources, clis)
  {
    if Covered(sources, clis) {
      forall spec: Option<Spec> ensures Accepts(Build(sources, clis), spec)
        <==> OfferedIn(Build(sources, clis).view, spec) {
        CatalogAgreesWithView(sources, clis, spec);
      }
    } else {
      var spec := Disagreement(sources, clis);
    }
  }

  lemma Disagreement(sources: Sources, clis: seq<CLI>) returns (spec: Spec)
    requires NulFree(sources.surfaces) && !Covered(sources, clis)
    ensures OfferedIn(Build(sources, clis).view, Some(spec)) && !Accepts(Build(sources, clis), Some(spec))
  {
    var sorted := StableSort(LabelLess, clis);
    var cli :| cli in sorted && Shown(sources, cli) && !OwnerCovers(sources, sorted, cli);
    spec := RefusedSpec(sources, sorted, cli);
  }
}
