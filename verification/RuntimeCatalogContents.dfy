/**
 * What the catalog shows and accepts, told from the CLIs, definitions, images
 * and surfaces it is built from.
 */
module RuntimeCatalogContents {
  import opened Text
  import opened SessionTypes
  import opened RuntimeCatalog
  import opened RuntimeCatalogKeys
  import opened RuntimeCatalogProofs

  // ---------------------------------------------------------------- by the fields

  function FirstText(a: string, b: string): string { if TrimSpace(a) != "" then TrimSpace(a) else TrimSpace(b) }

  /** The surface has a model of this id, which is the provider's own or that of the model it refers to. */
  predicate NamesModel(s: Surface, id: string) {
    id != "" && s.runtime.Some? && exists m <- s.runtime.value.models ::
      FirstText(m.providerModelID, m.refModelID) == id
  }

  /** The surface's CLI runtime names the CLI, or it names none and the CLI speaks its protocol. */
  predicate BelongsTo(s: Surface, cli: CLI) {
    && s.runtime.Some?
    && match s.runtime.value.access
       case CliRuntime(owner) =>
         if TrimSpace(owner) != "" then TrimSpace(owner) == TrimSpace(cli.cliID) else 0 in cli.protocols
       case ApiRuntime(protocol) => protocol in cli.protocols
       case NoRuntime => false
  }

  predicate HasModels(s: Surface) {
    s.runtime.Some? && exists m <- s.runtime.value.models :: FirstText(m.providerModelID, m.refModelID) != ""
  }

  /** The CLI offers the surface. */
  predicate Serves(cli: CLI, s: Surface) {
    TrimSpace(s.surfaceID) != "" && TrimSpace(s.providerID) != "" && HasModels(s) && BelongsTo(s, cli)
  }

  /** The definition at k is the last of the id. */
  predicate IsLastOf(definitions: seq<Definition>, id: string, k: nat) {
    && k < |definitions| && TrimSpace(definitions[k].cliID) == id
    && forall j :: k < j < |definitions| ==> TrimSpace(definitions[j].cliID) != id
  }

  predicate HasImage(images: seq<Image>, id: string, c: string) {
    exists image <- images ::
      TrimSpace(image.cliID) == id && TrimSpace(image.executionClass) == c && TrimSpace(image.image) != ""
  }

  /** The last definition of the id lists the class, and an image of the id has it. */
  ghost predicate HasClass(sources: Sources, id: string, c: string) {
    && id != "" && c != "" && HasImage(sources.images, id, c)
    && exists k: nat ::
         && IsLastOf(sources.definitions, id, k)
         && exists x <- sources.definitions[k].executionClasses :: TrimSpace(x) == c
  }

  /** How a surface is shown: its ids, how it is reached, its label, and the models it names. */
  function ShownAs(s: Surface): SurfaceOption
    requires s.runtime.Some?
  {
    SurfaceOption(RuntimeRef(TrimSpace(s.providerID), TrimSpace(s.surfaceID),
                             match s.runtime.value.access
                             case ApiRuntime(protocol) => ApiAccess(protocol)
                             case CliRuntime(_) => CliAccess
                             case NoRuntime => NoAccess),
                  FirstText(s.providerDisplayName,
                            FirstText(s.runtime.value.displayName, FirstText(s.displayName, s.surfaceID))),
                  Models(s.runtime.value.models))
  }

  /** The CLI can be shown: it has an id, an available class and a surface. */
  ghost predicate CanShow(sources: Sources, cli: CLI) {
    && TrimSpace(cli.cliID) != ""
    && (exists c :: HasClass(sources, TrimSpace(cli.cliID), c))
    && exists s <- sources.surfaces :: Serves(cli, s)
  }

  /** The item shows the CLI: its id, its label, its available classes and the surfaces it serves. */
  ghost predicate ShowsCLI(sources: Sources, cli: CLI, item: ProviderOption) {
    && item.providerID == TrimSpace(cli.cliID) && item.labelText == FirstText(cli.displayName, cli.cliID)
    && (forall c :: c in item.executionClasses <==> HasClass(sources, TrimSpace(cli.cliID), c))
    && (forall option :: option in item.surfaces <==> ShowsOption(sources.surfaces, cli, option))
  }

  predicate ShowsOption(surfaces: seq<Surface>, cli: CLI, option: SurfaceOption) {
    exists s <- surfaces :: Serves(cli, s) && option == ShownAs(s)
  }

  // ---------------------------------------------------------------- surfaces

  lemma FirstOfFour(a: string, b: string, c: string, d: string)
    ensures FirstNonEmpty([a, b, c, d]) == FirstText(a, FirstText(b, FirstText(c, d)))
  {
    assert [a, b, c, d][1..] == [b, c, d] && [b, c, d][1..] == [c, d];
    FirstOfTwo(c, d);
    TrimSpaceTrims(b);
    TrimSpaceTrims(c);
    TrimSpaceTrims(d);
  }

  /** The models shown with a surface are the ids its models go by. */
  lemma ModelsByName(s: Surface, id: string)
    ensures id in SurfaceModels(s) <==> NamesModel(s, id)
    ensures s.runtime.Some? ==> SurfaceModels(s) == ShownAs(s).models
  {
    if s.runtime.Some? {
      var models := s.runtime.value.models;
      ModelsAreTheNamedOnes(models, id);
      forall m <- models ensures ModelID(m) == FirstText(m.providerModelID, m.refModelID) {
        FirstOfTwo(m.providerModelID, m.refModelID);
      }
    }
  }

  lemma HasModelsIff(s: Surface)
    ensures SurfaceModels(s) != [] <==> HasModels(s)
  {
    if SurfaceModels(s) != [] {
      ModelsByName(s, SurfaceModels(s)[0]);
    }
    if HasModels(s) {
      var m :| m in s.runtime.value.models && FirstText(m.providerModelID, m.refModelID) != "";
      ModelsByName(s, FirstText(m.providerModelID, m.refModelID));
    }
  }

  lemma OffersIff(cli: CLI, s: Surface)
    requires TrimSpace(cli.cliID) != ""
    ensures Offers(cli, s) <==> Serves(cli, s)
  {
    HasModelsIff(s);
  }

  lemma OptionShows(s: Surface)
    requires RefForSurface(s).Some?
    ensures OptionOf(s) == ShownAs(s)
  {
    FirstOfFour(s.providerDisplayName, s.runtime.value.displayName, s.displayName, s.surfaceID);
  }

  // ---------------------------------------------------------------- classes

  lemma ClassesIff(sources: Sources, id: string, c: string)
    ensures c in ExecutionClasses(sources, id) <==> HasClass(sources, id, c)
  {
    var k := LastDefinitionCounts(sources.definitions, id);
    var definition := DefinitionOf(sources.definitions, id);
    if definition.Some? {
      var classes := definition.value.executionClasses;
      ClassesAreTheAvailableOnes(classes, sources.images, id, c);
      AvailableIff(sources.images, id, c);
      assert IsLastOf(sources.definitions, id, k);
      assert forall i: nat :: IsLastOf(sources.definitions, id, i) ==> i == k;
    }
  }

  lemma AvailableIff(images: seq<Image>, id: string, c: string)
    ensures Available(images, id, c) <==> id != "" && c != "" && HasImage(images, id, c)
  {
    forall image <- images
      ensures Provides(image, id, c)
              <==> id != "" && c != "" && TrimSpace(image.cliID) == id && TrimSpace(image.executionClass) == c
                   && TrimSpace(image.image) != ""
    {
    }
  }

  lemma ShownIff(sources: Sources, cli: CLI)
    ensures Shown(sources, cli) <==> CanShow(sources, cli)
  {
    var id := TrimSpace(cli.cliID);
    if id != "" {
      forall c ensures c in ExecutionClasses(sources, id) <==> HasClass(sources, id, c) {
        ClassesIff(sources, id, c);
      }
      assert ExecutionClasses(sources, id) != [] <==> exists c :: c in ExecutionClasses(sources, id) by {
        if ExecutionClasses(sources, id) != [] {
          assert ExecutionClasses(sources, id)[0] in ExecutionClasses(sources, id);
        }
      }
      ServesSomeIff(cli, sources.surfaces);
    }
  }

  lemma ServesSomeIff(cli: CLI, surfaces: seq<Surface>)
    requires TrimSpace(cli.cliID) != ""
    ensures SurfaceItems(cli, surfaces) != [] <==> exists s <- surfaces :: Serves(cli, s)
  {
    var items := SurfaceItems(cli, surfaces);
    if items != [] {
      ItemsHoldAll(cli, surfaces, items[0]);
      var s :| s in surfaces && Offers(cli, s) && items[0] == OptionOf(s);
      OffersIff(cli, s);
    }
    forall s <- surfaces | Serves(cli, s) ensures items != [] {
      OffersIff(cli, s);
      ItemsHoldAll(cli, surfaces, OptionOf(s));
    }
  }

  // ---------------------------------------------------------------- the view

  lemma ItemShowsCLI(sources: Sources, cli: CLI)
    requires TrimSpace(cli.cliID) != ""
    ensures ShowsCLI(sources, cli, ItemOf(sources, cli))
  {
    var item := ItemOf(sources, cli);
    FirstOfTwo(cli.displayName, cli.cliID);
    SortKeepsElements(SurfaceLess, SurfaceItems(cli, sources.surfaces));
    forall c ensures c in item.executionClasses <==> HasClass(sources, TrimSpace(cli.cliID), c) {
      ClassesIff(sources, TrimSpace(cli.cliID), c);
    }
    forall option ensures option in item.surfaces <==> ShowsOption(sources.surfaces, cli, option) {
      OptionIff(cli, sources.surfaces, option);
    }
  }

  lemma OptionIff(cli: CLI, surfaces: seq<Surface>, option: SurfaceOption)
    requires TrimSpace(cli.cliID) != ""
    ensures option in SurfaceItems(cli, surfaces) <==> ShowsOption(surfaces, cli, option)
  {
    ItemsHoldAll(cli, surfaces, option);
    forall s <- surfaces
      ensures Offers(cli, s) <==> Serves(cli, s)
      ensures Offers(cli, s) ==> OptionOf(s) == ShownAs(s)
    {
      OffersIff(cli, s);
      if Offers(cli, s) {
        OptionShows(s);
      }
    }
  }

  ghost predicate IsItemOfSome(sources: Sources, clis: seq<CLI>, item: ProviderOption) {
    exists cli <- clis :: CanShow(sources, cli) && ShowsCLI(sources, cli, item)
  }

  ghost predicate HasItem(sources: Sources, view: seq<ProviderOption>, cli: CLI) {
    exists item <- view :: ShowsCLI(sources, cli, item)
  }

  lemma ItemIsOfCLI(sources: Sources, clis: seq<CLI>, item: ProviderOption)
    requires item in Build(sources, clis).view
    ensures IsItemOfSome(sources, clis, item)
  {
    SortKeepsElements(LabelLess, clis);
    ProviderItemsHoldAll(sources, StableSort(LabelLess, clis), item);
    var cli :| cli in StableSort(LabelLess, clis) && Shown(sources, cli) && item == ItemOf(sources, cli);
    ShownIff(sources, cli);
    ItemShowsCLI(sources, cli);
    assert cli in clis;
  }

  lemma CLIHasItem(sources: Sources, clis: seq<CLI>, cli: CLI)
    requires cli in clis && CanShow(sources, cli)
    ensures HasItem(sources, Build(sources, clis).view, cli)
  {
    SortKeepsElements(LabelLess, clis);
    ShownIff(sources, cli);
    ItemShowsCLI(sources, cli);
    ProviderItemsHoldAll(sources, StableSort(LabelLess, clis), ItemOf(sources, cli));
    assert ItemOf(sources, cli) in Build(sources, clis).view;
  }

  /**
   * The view shows exactly what the sources hold: every item is a CLI with an
   * id, an available class and a surface, with all its available classes and
   * all the surfaces it serves and nothing else; and every such CLI has its
   * item.
   */
  lemma ViewShowsSources(sources: Sources, clis: seq<CLI>)
    ensures forall item <- Build(sources, clis).view :: IsItemOfSome(sources, clis, item)
    ensures forall cli <- clis :: CanShow(sources, cli) ==> HasItem(sources, Build(sources, clis).view, cli)
  {
    forall item <- Build(sources, clis).view ensures IsItemOfSome(sources, clis, item) {
      ItemIsOfCLI(sources, clis, item);
    }
    forall cli <- clis | CanShow(sources, cli) ensures HasItem(sources, Build(sources, clis).view, cli) {
      CLIHasItem(sources, clis, cli);
    }
  }

  // ---------------------------------------------------------------- specs

  /** The model a selector names. */
  function Named(selector: ModelSelector): string {
    match selector
    case ProviderModel(id) => TrimSpace(id)
    case ModelByRef(id, _) => TrimSpace(id)
    case NoSelector => ""
  }

  /** The surface is the one the reference names, reached the way it says, and has the model. */
  predicate Answers(s: Surface, ref: Option<RuntimeRef>, model: string) {
    && ref.Some? && s.runtime.Some? && NamesModel(s, model)
    && TrimSpace(ref.value.providerID) == TrimSpace(s.providerID)
    && TrimSpace(ref.value.surfaceID) == TrimSpace(s.surfaceID)
    && match s.runtime.value.access
       case ApiRuntime(protocol) => ref.value.access == ApiAccess(protocol)
       case CliRuntime(_) => ref.value.access == CliAccess
       case NoRuntime => false
  }

  predicate AnswersFrom(surfaces: seq<Surface>, cli: CLI, ref: Option<RuntimeRef>, model: string) {
    exists s <- surfaces :: Serves(cli, s) && Answers(s, ref, model)
  }

  /** The CLI is the spec's provider, has its class, and serves what its primary and every fallback ask for. */
  ghost predicate CanRun(sources: Sources, cli: CLI, spec: Spec) {
    && TrimSpace(cli.cliID) == TrimSpace(spec.providerID) && TrimSpace(cli.cliID) != ""
    && HasClass(sources, TrimSpace(cli.cliID), TrimSpace(spec.executionClass))
    && spec.runtimeConfig.Some?
    && var config := spec.runtimeConfig.value;
       && AnswersFrom(sources.surfaces, cli, config.runtimeRef,
                      if config.primary.Some? then Named(config.primary.value) else "")
       && forall f <- config.fallbacks :: AnswersFrom(sources.surfaces, cli, f.runtimeRef, Named(f.selector))
  }

  lemma AnswersIff(s: Surface, ref: Option<RuntimeRef>, model: string)
    requires RefForSurface(s).Some? && TrimSpace(model) == model
    ensures SurfaceOffered(OptionOf(s), ref, model) <==> Answers(s, ref, model)
  {
    ModelsByName(s, model);
  }

  lemma AnswersFromIff(sources: Sources, cli: CLI, ref: Option<RuntimeRef>, model: string)
    requires TrimSpace(cli.cliID) != "" && TrimSpace(model) == model
    ensures SurfacesOffer(ItemOf(sources, cli).surfaces, ref, model)
            <==> AnswersFrom(sources.surfaces, cli, ref, model)
  {
    ItemShows(sources, cli, ref, model);
    var items := SurfaceItems(cli, sources.surfaces);
    forall option <- items | SurfaceOffered(option, ref, model) ensures AnswersFrom(sources.surfaces, cli, ref, model) {
      ItemsHoldAll(cli, sources.surfaces, option);
      var s :| s in sources.surfaces && Offers(cli, s) && option == OptionOf(s);
      OffersIff(cli, s);
      AnswersIff(s, ref, model);
    }
    forall s <- sources.surfaces | Serves(cli, s) && Answers(s, ref, model) ensures SurfacesOffer(items, ref, model) {
      OffersIff(cli, s);
      ItemsHoldAll(cli, sources.surfaces, OptionOf(s));
      AnswersIff(s, ref, model);
      assert OptionOf(s) in items;
    }
  }

  lemma NamedTrims(selector: ModelSelector)
    ensures Named(selector) == SelectedModel(selector) && TrimSpace(Named(selector)) == Named(selector)
  {
    match selector
    case ProviderModel(id) => TrimSpaceTrims(id);
    case ModelByRef(id, _) => TrimSpaceTrims(id);
    case NoSelector =>
  }

  /** The item of a CLI offers a spec exactly when the CLI can run it. */
  lemma ItemOffersIff(sources: Sources, cli: CLI, spec: Spec)
    requires TrimSpace(cli.cliID) != ""
    ensures ItemOffers(ItemOf(sources, cli), spec) <==> CanRun(sources, cli, spec)
  {
    ClassesIff(sources, TrimSpace(cli.cliID), TrimSpace(spec.executionClass));
    if spec.runtimeConfig.Some? {
      var config := spec.runtimeConfig.value;
      if config.primary.Some? {
        NamedTrims(config.primary.value);
      }
      AnswersFromIff(sources, cli, config.runtimeRef, PrimaryModel(config));
      forall f <- config.fallbacks
        ensures SurfacesOffer(ItemOf(sources, cli).surfaces, f.runtimeRef, SelectedModel(f.selector))
                <==> AnswersFrom(sources.surfaces, cli, f.runtimeRef, Named(f.selector))
      {
        NamedTrims(f.selector);
        AnswersFromIff(sources, cli, f.runtimeRef, SelectedModel(f.selector));
      }
    }
  }

  lemma RunnableIsShown(sources: Sources, cli: CLI, spec: Spec)
    requires CanRun(sources, cli, spec)
    ensures CanShow(sources, cli)
  {
  }

  /** Whatever is accepted, some CLI with the spec's provider id can run. */
  lemma AcceptedCanRun(sources: Sources, clis: seq<CLI>, spec: Option<Spec>)
    requires NulFree(sources.surfaces) && Accepts(Build(sources, clis), spec)
    ensures exists cli <- clis :: CanRun(sources, cli, spec.value)
  {
    var sorted, id := StableSort(LabelLess, clis), TrimSpace(spec.value.providerID);
    SortKeepsElements(LabelLess, clis);
    ProvidersHaveOwners(sources, sorted, id);
    OwnerIsShown(sources, sorted, id);
    var owner := Owner(sources, sorted, id).value;
    AcceptedIsOffered(sources, owner, spec.value);
    ItemOffersIff(sources, owner, spec.value);
    assert owner in clis;
  }

  /**
   * When the last CLI of each id covers the others, a spec is accepted exactly
   * when some CLI with its provider id has the execution class and serves, for
   * the primary and every fallback, a surface with the reference and model
   * asked for.
   */
  lemma AcceptsIffCanRun(sources: Sources, clis: seq<CLI>, spec: Option<Spec>)
    requires NulFree(sources.surfaces) && Covered(sources, clis)
    ensures Accepts(Build(sources, clis), spec)
            <==> spec.Some? && exists cli <- clis :: CanRun(sources, cli, spec.value)
  {
    if Accepts(Build(sources, clis), spec) {
      AcceptedCanRun(sources, clis, spec);
    }
    if spec.Some? && exists cli <- clis :: CanRun(sources, cli, spec.value) {
      var cli :| cli in clis && CanRun(sources, cli, spec.value);
      RunnableIsShown(sources, cli, spec.value);
      ShownIff(sources, cli);
      ItemOffersIff(sources, cli, spec.value);
      SortKeepsElements(LabelLess, clis);
      ProviderItemsHoldAll(sources, StableSort(LabelLess, clis), ItemOf(sources, cli));
      assert ItemOf(sources, cli) in Build(sources, clis).view;
      CatalogAgreesWithView(sources, clis, spec);
    }
  }
}
