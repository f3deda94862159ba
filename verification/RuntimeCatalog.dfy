/** The runtime options shown to users, and the index that specs are checked against. */
module RuntimeCatalog {
  import opened Text
  import opened Decimal
  import opened SessionTypes

  // ---------------------------------------------------------------- what the catalog is built from

  datatype CLI = CLI(cliID: string, displayName: string, protocols: seq<int>)

  datatype Definition = Definition(cliID: string, executionClasses: seq<string>)

  datatype Image = Image(cliID: string, executionClass: string, image: string)

  datatype CatalogModel = CatalogModel(providerModelID: string, refModelID: string)

  datatype RuntimeAccess = ApiRuntime(protocol: int) | CliRuntime(cliID: string) | NoRuntime

  datatype Runtime = Runtime(displayName: string, access: RuntimeAccess, models: seq<CatalogModel>)

  datatype Surface = Surface(
    surfaceID: string, providerID: string, providerDisplayName: string, displayName: string, runtime: Option<Runtime>)

  datatype Sources = Sources(definitions: seq<Definition>, images: seq<Image>, surfaces: seq<Surface>)

  // ---------------------------------------------------------------- what is built

  datatype SurfaceOption = SurfaceOption(ref: RuntimeRef, labelText: string, models: seq<string>)

  datatype ProviderOption = ProviderOption(providerID: string, labelText: string, executionClasses: seq<string>,
                                           surfaces: seq<SurfaceOption>)

  datatype ProviderIndex = ProviderIndex(executionClasses: set<string>, surfaces: map<string, set<string>>)

  datatype Catalog = Catalog(view: seq<ProviderOption>, providers: map<string, ProviderIndex>)

  // ---------------------------------------------------------------- labels and order

  /** Go's string order. */
  predicate StringLess(a: string, b: string) {
    b != "" && (a == "" || a[0] < b[0] || (a[0] == b[0] && StringLess(a[1..], b[1..])))
  }

  function ProviderLabel(cli: CLI): string { FirstNonEmpty([cli.displayName, cli.cliID]) }

  function SurfaceLabel(s: Surface): string {
    FirstNonEmpty([s.providerDisplayName, if s.runtime.Some? then s.runtime.value.displayName
                   else "", s.displayName, s.surfaceID])
  }

  /** sort.SliceStable as an insertion from the right: equal elements keep their order. */
  function InsertBy<T>(less: (T, T) -> bool, x: T, s: seq<T>): seq<T> {
    if s != [] && less(s[0], x) then [s[0]] + InsertBy(less, x, s[1..]) else [x] + s
  }

  function StableSort<T>(less: (T, T) -> bool, s: seq<T>): seq<T> {
    if s == [] then [] else InsertBy(less, s[0], StableSort(less, s[1..]))
  }

  lemma {:induction false} InsertKeepsElements<T>(less: (T, T) -> bool, x: T, s: seq<T>)
    ensures multiset(InsertBy(less, x, s)) == multiset(s) + multiset{x}
  {
    if s != [] && less(s[0], x) {
      InsertKeepsElements(less, x, s[1..]);
      assert s == [s[0]] + s[1..];
    }
  }

  /** Sorting rearranges; it neither adds nor drops. */
  lemma {:induction false} SortKeepsElements<T>(less: (T, T) -> bool, s: seq<T>)
    ensures multiset(StableSort(less, s)) == multiset(s)
    ensures forall x :: x in StableSort(less, s) <==> x in s
  {
    if s != [] {
      SortKeepsElements(less, s[1..]);
      InsertKeepsElements(less, s[0], StableSort(less, s[1..]));
      assert s == [s[0]] + s[1..];
    }
    assert forall x :: x in StableSort(less, s) <==> x in multiset(StableSort(less, s));
  }

  // ---------------------------------------------------------------- runtime references

  /** Protocol.String(): enum values without a name print as numbers. */
  function ProtocolName(protocol: int): string {
    if protocol == 0 then "PROTOCOL_UNSPECIFIED"
    else if protocol == 1 then "PROTOCOL_OPENAI_RESPONSES"
    else if protocol == 2 then "PROTOCOL_OPENAI_COMPATIBLE"
    else if protocol == 3 then "PROTOCOL_ANTHROPIC"
    else if protocol == 4 then "PROTOCOL_GEMINI"
    else FormatInt(protocol)
  }

  function Join(parts: seq<string>, separator: char): string {
    if parts == [] then "" else if |parts| == 1 then parts[0] else parts[0] + [separator] + Join(parts[1..], separator)
  }

  function AccessParts(access: Access): seq<string> {
    match access
    case ApiAccess(protocol) => ["api", TrimSpace(ProtocolName(protocol))]
    case CliAccess => ["cli"]
    case NoAccess => ["unspecified"]
  }

  function KeyParts(ref: RuntimeRef): seq<string> {
    [TrimSpace(ref.providerID), TrimSpace(ref.surfaceID)] + AccessParts(ref.access)
  }

  /** runtimeRefCatalogKey. */
  function CatalogKey(ref: Option<RuntimeRef>): string {
    if ref.None? then "" else Join(KeyParts(ref.value), NUL)
  }

  /** runtimeRefForSurface. */
  function RefForSurface(s: Surface): Option<RuntimeRef> {
    if s.runtime.None? then None else
    var access := match s.runtime.value.access
                  case ApiRuntime(protocol) => ApiAccess(protocol)
                  case CliRuntime(_) => CliAccess
                  case NoRuntime => NoAccess;
    if access.NoAccess? || TrimSpace(s.providerID) == "" || TrimSpace(s.surfaceID) == "" then None
    else Some(RuntimeRef(TrimSpace(s.providerID), TrimSpace(s.surfaceID), access))
  }

  // ---------------------------------------------------------------- one provider

  function ModelID(m: CatalogModel): string { FirstNonEmpty([m.providerModelID, m.refModelID]) }

  /** runtimeSurfaceModels: the named models, each once, in order. */
  function Models(models: seq<CatalogModel>): seq<string> {
    if models == [] then [] else
    var before, id := Models(models[..|models| - 1]), ModelID(models[|models| - 1]);
    if id == "" || id in before then before else before + [id]
  }

  function SurfaceModels(s: Surface): seq<string> { if s.runtime.None? then [] else Models(s.runtime.value.models) }

  function RuntimeCLIID(runtime: Option<Runtime>): string {
    if runtime.Some? && runtime.value.access.CliRuntime? then TrimSpace(runtime.value.access.cliID) else ""
  }

  function RuntimeProtocol(runtime: Option<Runtime>): int {
    if runtime.Some? && runtime.value.access.ApiRuntime? then runtime.value.access.protocol else 0
  }

  /** matchesRuntimeProvider: a CLI surface belongs to its CLI, any other to the CLIs that speak its protocol. */
  predicate Matches(providerID: string, protocols: seq<int>, s: Surface) {
    if RuntimeCLIID(s.runtime) != "" then RuntimeCLIID(s.runtime) == providerID
    else RuntimeProtocol(s.runtime) in protocols
  }

  predicate Offers(cli: CLI, s: Surface) {
    && Matches(TrimSpace(cli.cliID), cli.protocols, s)
    && TrimSpace(s.surfaceID) != "" && SurfaceModels(s) != [] && RefForSurface(s).Some?
  }

  function OptionOf(s: Surface): SurfaceOption
    requires RefForSurface(s).Some?
  {
    SurfaceOption(RefForSurface(s).value, SurfaceLabel(s), SurfaceModels(s))
  }

  function SurfaceItems(cli: CLI, surfaces: seq<Surface>): seq<SurfaceOption> {
    if surfaces == [] then [] else
    var before, s := SurfaceItems(cli, surfaces[..|surfaces| - 1]), surfaces[|surfaces| - 1];
    if Offers(cli, s) then before + [OptionOf(s)] else before
  }

  function Trimmeds(values: seq<string>): set<string> { set v | v in values && TrimSpace(v) != "" :: TrimSpace(v) }

  /** A later surface with the same key replaces an earlier one. */
  function SurfaceIndex(cli: CLI, surfaces: seq<Surface>): map<string, set<string>> {
    if surfaces == [] then map[] else
    var before, s := SurfaceIndex(cli, surfaces[..|surfaces| - 1]), surfaces[|surfaces| - 1];
    if Offers(cli, s) then before[CatalogKey(RefForSurface(s)) := Trimmeds(SurfaceModels(s))] else before
  }

  predicate SurfaceLess(a: SurfaceOption, b: SurfaceOption) {
    if a.labelText == b.labelText then StringLess(CatalogKey(Some(a.ref)), CatalogKey(Some(b.ref)))
    else StringLess(a.labelText, b.labelText)
  }

  /** The definition a CLI id resolves to: the last one given. */
  function DefinitionOf(definitions: seq<Definition>, cliID: string): Option<Definition> {
    if definitions == [] then None else
    var last := definitions[|definitions| - 1];
    if TrimSpace(last.cliID) == cliID && cliID != "" then Some(last)
    else DefinitionOf(definitions[..|definitions| - 1], cliID)
  }

  predicate Provides(image: Image, cliID: string, executionClass: string) {
    && cliID != "" && TrimSpace(image.cliID) == cliID
    && executionClass != "" && TrimSpace(image.executionClass) == executionClass
    && TrimSpace(image.image) != ""
  }

  /** Some image is available for the execution class. */
  predicate Available(images: seq<Image>, cliID: string, executionClass: string) {
    exists i <- images :: Provides(i, cliID, executionClass)
  }

  /** The classes of a definition that have an image, each once, in order. */
  function AvailableClasses(classes: seq<string>, images: seq<Image>, cliID: string): seq<string> {
    if classes == [] then [] else
    var before, c := AvailableClasses(classes[..|classes| - 1], images, cliID), TrimSpace(classes[|classes| - 1]);
    if Available(images, cliID, c) && c !in before then before + [c] else before
  }

  function ExecutionClasses(sources: Sources, cliID: string): seq<string> {
    match DefinitionOf(sources.definitions, cliID)
    case None => []
    case Some(definition) => AvailableClasses(definition.executionClasses, sources.images, cliID)
  }

  // ---------------------------------------------------------------- all providers

  predicate Shown(sources: Sources, cli: CLI) {
    && TrimSpace(cli.cliID) != ""
    && ExecutionClasses(sources, TrimSpace(cli.cliID)) != [] && SurfaceItems(cli, sources.surfaces) != []
  }

  function ItemOf(sources: Sources, cli: CLI): ProviderOption {
    ProviderOption(TrimSpace(cli.cliID), ProviderLabel(cli), ExecutionClasses(sources, TrimSpace(cli.cliID)),
                   StableSort(SurfaceLess, SurfaceItems(cli, sources.surfaces)))
  }

  function IndexOf(sources: Sources, cli: CLI): ProviderIndex {
    ProviderIndex(Trimmeds(ExecutionClasses(sources, TrimSpace(cli.cliID))), SurfaceIndex(cli, sources.surfaces))
  }

  function Items(sources: Sources, clis: seq<CLI>): seq<ProviderOption> {
    if clis == [] then [] else
    var before, cli := Items(sources, clis[..|clis| - 1]), clis[|clis| - 1];
    if Shown(sources, cli) then before + [ItemOf(sources, cli)] else before
  }

  /** A later CLI with the same id replaces an earlier one. */
  function Providers(sources: Sources, clis: seq<CLI>): map<string, ProviderIndex> {
    if clis == [] then map[] else
    var before, cli := Providers(sources, clis[..|clis| - 1]), clis[|clis| - 1];
    if Shown(sources, cli) then before[TrimSpace(cli.cliID) := IndexOf(sources, cli)] else before
  }

  predicate LabelLess(a: CLI, b: CLI) { StringLess(ProviderLabel(a), ProviderLabel(b)) }

  /** buildRuntimeCatalog. */
  function Build(sources: Sources, clis: seq<CLI>): Catalog {
    var sorted := StableSort(LabelLess, clis);
    Catalog(Items(sources, sorted), Providers(sources, sorted))
  }

  // ---------------------------------------------------------------- checking a spec

  function SelectedModel(selector: ModelSelector): string {
    match selector
    case ProviderModel(id) => TrimSpace(id)
    case ModelByRef(modelID, _) => TrimSpace(modelID)
    case NoSelector => ""
  }

  function PrimaryModel(config: RuntimeConfig): string {
    if config.primary.None? then "" else SelectedModel(config.primary.value)
  }

  /** validateRuntimeSurface. */
  predicate SurfaceAccepted(provider: ProviderIndex, ref: Option<RuntimeRef>, model: string) {
    CatalogKey(ref) in provider.surfaces && TrimSpace(model) in provider.surfaces[CatalogKey(ref)]
  }

  predicate ConfigAccepted(provider: ProviderIndex, config: RuntimeConfig) {
    && SurfaceAccepted(provider, config.runtimeRef, PrimaryModel(config))
    && forall f <- config.fallbacks :: SurfaceAccepted(provider, f.runtimeRef, SelectedModel(f.selector))
  }

  /** validateInlineSpecAgainstCatalog accepts the spec. */
  predicate Accepts(catalog: Catalog, spec: Option<Spec>) {
    && spec.Some?
    && TrimSpace(spec.value.providerID) in catalog.providers
    && var provider := catalog.providers[TrimSpace(spec.value.providerID)];
       && TrimSpace(spec.value.executionClass) in provider.executionClasses
       && spec.value.runtimeConfig.Some?
       && ConfigAccepted(provider, spec.value.runtimeConfig.value)
  }
}
