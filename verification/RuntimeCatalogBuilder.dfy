/**
 * The catalog builders and the validator as they are programmed, with maps and
 * lists filled in loops, shown to compute the functions of RuntimeCatalog.
 */
module RuntimeCatalogBuilder {
  import opened Text
  import opened SessionTypes
  import opened RuntimeCatalog

  method RuntimeSurfaceModels(models: seq<CatalogModel>) returns (values: seq<string>)
    ensures values == Models(models)
  {
    values := [];
    var seen := {};
    for i := 0 to |models|
      invariant values == Models(models[..i])
      invariant seen == set v | v in values
    {
      assert models[..i + 1][..i] == models[..i];
      var modelID := TrimSpace(models[i].providerModelID);
      if modelID == "" {
        modelID := TrimSpace(models[i].refModelID);
      }
      assert modelID == ModelID(models[i]) by { FirstOfTwo(models[i].providerModelID, models[i].refModelID); }
      if modelID == "" || modelID in seen {
        continue;
      }
      seen := seen + {modelID};
      values := values + [modelID];
    }
    assert models[..|models|] == models;
  }

  /** The execution classes that have an image, by CLI id. */
  method RuntimeAvailableExecutionClasses(images: seq<Image>) returns (values: map<string, set<string>>)
    ensures Indexes(values, images)
  {
    values := map[];
    for i := 0 to |images|
      invariant Indexes(values, images[..i])
    {
      ImageIndexed(values, images, i);
      var cliID, executionClass := TrimSpace(images[i].cliID), TrimSpace(images[i].executionClass);
      if cliID == "" || executionClass == "" || TrimSpace(images[i].image) == "" {
        continue;
      }
      values := Added(values, cliID, executionClass);
    }
    assert images[..|images|] == images;
  }

  predicate Holds(values: map<string, set<string>>, id: string, c: string) { id in values && c in values[id] }

  ghost predicate Indexes(values: map<string, set<string>>, images: seq<Image>) {
    forall id, c :: Holds(values, id, c) <==> Available(images, id, c)
  }

  lemma ImageIndexed(values: map<string, set<string>>, images: seq<Image>, i: nat)
    requires i < |images| && Indexes(values, images[..i])
    ensures var id, c := TrimSpace(images[i].cliID), TrimSpace(images[i].executionClass);
            Indexes(if id == "" || c == "" || TrimSpace(images[i].image) == "" then values
                    else Added(values, id, c), images[..i + 1])
  {
    var cliID, executionClass := TrimSpace(images[i].cliID), TrimSpace(images[i].executionClass);
    var after := if cliID == "" || executionClass == "" || TrimSpace(images[i].image) == "" then values
        else Added(values, cliID, executionClass);
    forall id, c ensures Holds(after, id, c) <==> Available(images[..i + 1], id, c) {
      AvailableMore(images, i, id, c);
      assert Holds(values, id, c) <==> Available(images[..i], id, c);
    }
  }

  /** The inner set is made on first use. */
  function Added(values: map<string, set<string>>, id: string, c: string): (r: map<string, set<string>>)
    ensures forall i, x :: Holds(r, i, x) <==> Holds(values, i, x) || (i == id && x == c)
  {
    var made := if id in values then values else values[id := {}];
    made[id := made[id] + {c}]
  }

  lemma AvailableMore(images: seq<Image>, i: nat, id: string, c: string)
    requires i < |images|
    ensures Available(images[..i + 1], id, c) <==> Available(images[..i], id, c) || Provides(images[i], id, c)
  {
    assert forall m :: m in images[..i + 1] <==> m in images[..i] || m == images[i];
  }

  method RuntimeExecutionClasses(definition: Option<Definition>, available: set<string>, ghost images: seq<Image>,
                                 ghost cliID: string)
    returns (values: seq<string>)
    requires forall c :: c in available <==> Available(images, cliID, c)
    ensures values == if definition.None? then []
            else AvailableClasses(definition.value.executionClasses, images, cliID)
  {
    if definition.None? {
      return [];
    }
    var classes := definition.value.executionClasses;
    values := [];
    var seen := {};
    for i := 0 to |classes|
      invariant values == AvailableClasses(classes[..i], images, cliID)
      invariant seen == set v | v in values
    {
      assert classes[..i + 1][..i] == classes[..i];
      var executionClass := TrimSpace(classes[i]);
      if executionClass == "" || executionClass !in available || executionClass in seen {
        continue;
      }
      seen := seen + {executionClass};
      values := values + [executionClass];
    }
    assert classes[..|classes|] == classes;
  }

  /** The options of one CLI in display order, and the index of their models by key. */
  method RuntimeProviderSurfaces(cli: CLI, surfaces: seq<Surface>)
    returns (items: seq<SurfaceOption>, catalog: map<string, set<string>>)
    ensures items == StableSort(SurfaceLess, SurfaceItems(cli, surfaces))
    ensures catalog == SurfaceIndex(cli, surfaces)
  {
    var providerID := TrimSpace(cli.cliID);
    items, catalog := [], map[];
    for i := 0 to |surfaces|
      invariant items == SurfaceItems(cli, surfaces[..i])
      invariant catalog == SurfaceIndex(cli, surfaces[..i])
    {
      assert surfaces[..i + 1][..i] == surfaces[..i];
      var surface := surfaces[i];
      if !Matches(providerID, cli.protocols, surface) {
        continue;
      }
      var surfaceID := TrimSpace(surface.surfaceID);
      var models := [];
      if surface.runtime.Some? {
        models := RuntimeSurfaceModels(surface.runtime.value.models);
      }
      if surfaceID == "" || models == [] {
        continue;
      }
      var runtimeRef := RefForSurface(surface);
      if runtimeRef.None? {
        continue;
      }
      var key := CatalogKey(runtimeRef);
      items := items + [SurfaceOption(runtimeRef.value, SurfaceLabel(surface), models)];
      catalog := catalog[key := Trimmeds(models)];
    }
    assert surfaces[..|surfaces|] == surfaces;
    items := StableSort(SurfaceLess, items);
  }

  method DefinitionsByID(definitions: seq<Definition>) returns (byID: map<string, Definition>)
    ensures forall id :: (if id in byID then Some(byID[id]) else None) == DefinitionOf(definitions, id)
  {
    byID := map[];
    for i := 0 to |definitions|
      invariant forall id :: (if id in byID then Some(byID[id]) else None) == DefinitionOf(definitions[..i], id)
    {
      assert definitions[..i + 1][..i] == definitions[..i];
      var cliID := TrimSpace(definitions[i].cliID);
      if cliID != "" {
        byID := byID[cliID := definitions[i]];
      }
    }
    assert definitions[..|definitions|] == definitions;
  }

  function Built(sources: Sources, cli: CLI): Option<(ProviderOption, ProviderIndex)> {
    if Shown(sources, cli) then Some((ItemOf(sources, cli), IndexOf(sources, cli))) else None
  }

  lemma BuiltNext(sources: Sources, clis: seq<CLI>, i: nat, built: Option<(ProviderOption, ProviderIndex)>)
    requires i < |clis| && built == Built(sources, clis[i])
    ensures Items(sources, clis[..i + 1]) == Items(sources, clis[..i]) + if built.Some? then [built.value.0] else []
    ensures Providers(sources, clis[..i + 1])
            == if built.Some? then Providers(sources, clis[..i])[TrimSpace(clis[i].cliID) := built.value.1]
            else Providers(sources, clis[..i])
  {
    assert clis[..i + 1][..i] == clis[..i];
    assert Items(sources, clis[..i]) + [] == Items(sources, clis[..i]);
  }

  /** One CLI of the catalog; absent when it has no execution class or no surface to offer. */
  method BuildProvider(sources: Sources, cli: CLI, definitionByID: map<string, Definition>,
                       available: map<string, set<string>>)
    returns (built: Option<(ProviderOption, ProviderIndex)>)
    requires forall id ::
               (if id in definitionByID then Some(definitionByID[id]) else None)
               == DefinitionOf(sources.definitions, id)
    requires Indexes(available, sources.images)
    ensures built == Built(sources, cli)
  {
    var providerID := TrimSpace(cli.cliID);
    if providerID == "" {
      return None;
    }
    var definition := if providerID in definitionByID then Some(definitionByID[providerID]) else None;
    var classes := if providerID in available then available[providerID] else {};
    assert forall c :: c in classes <==> Holds(available, providerID, c);
    var executionClasses := RuntimeExecutionClasses(definition, classes, sources.images, providerID);
    var surfaces, surfaceCatalog := RuntimeProviderSurfaces(cli, sources.surfaces);
    SortedEmpty(SurfaceLess, SurfaceItems(cli, sources.surfaces));
    if executionClasses == [] || surfaces == [] {
      return None;
    }
    built := Some((ProviderOption(providerID, ProviderLabel(cli), executionClasses, surfaces),
                   ProviderIndex(Trimmeds(executionClasses), surfaceCatalog)));
  }

  method BuildRuntimeCatalog(sources: Sources, clis: seq<CLI>) returns (catalog: Catalog)
    ensures catalog == Build(sources, clis)
  {
    var definitionByID := DefinitionsByID(sources.definitions);
    var available := RuntimeAvailableExecutionClasses(sources.images);
    var sorted := StableSort(LabelLess, clis);
    var items, providers := [], map[];
    for i := 0 to |sorted|
      invariant items == Items(sources, sorted[..i])
      invariant providers == Providers(sources, sorted[..i])
    {
      var built := BuildProvider(sources, sorted[i], definitionByID, available);
      BuiltNext(sources, sorted, i, built);
      if built.None? {
        continue;
      }
      items := items + [built.value.0];
      providers := providers[TrimSpace(sorted[i].cliID) := built.value.1];
    }
    assert sorted[..|sorted|] == sorted;
    catalog := Catalog(items, providers);
  }

  lemma SortedEmpty<T>(less: (T, T) -> bool, s: seq<T>)
    ensures StableSort(less, s) == [] <==> s == []
  {
    SortKeepsElements(less, s);
    assert |multiset(s)| == |s| && |multiset(StableSort(less, s))| == |StableSort(less, s)|;
  }

  method ValidateRuntimeSurface(provider: ProviderIndex, runtimeRef: Option<RuntimeRef>, modelID: string)
    returns (ok: bool)
    ensures ok == SurfaceAccepted(provider, runtimeRef, modelID)
  {
    var key := CatalogKey(runtimeRef);
    if key !in provider.surfaces {
      return false;
    }
    ok := TrimSpace(modelID) in provider.surfaces[key];
  }

  method ValidateInlineSpec(spec: Option<Spec>, catalog: Catalog) returns (ok: bool)
    ensures ok == Accepts(catalog, spec)
  {
    if spec.None? {
      return false;
    }
    var providerID := TrimSpace(spec.value.providerID);
    if providerID !in catalog.providers {
      return false;
    }
    var provider := catalog.providers[providerID];
    if TrimSpace(spec.value.executionClass) !in provider.executionClasses || spec.value.runtimeConfig.None? {
      return false;
    }
    var config := spec.value.runtimeConfig.value;
    ok := ValidateRuntimeSurface(provider, config.runtimeRef, PrimaryModel(config));
    if !ok {
      return;
    }
    for i := 0 to |config.fallbacks|
      invariant ok && forall f <- config.fallbacks[..i] ::
                SurfaceAccepted(provider, f.runtimeRef, SelectedModel(f.selector))
    {
      var item := config.fallbacks[i];
      ok := ValidateRuntimeSurface(provider, item.runtimeRef, SelectedModel(item.selector));
      if !ok {
        return;
      }
    }
  }
}
