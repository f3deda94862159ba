/** A catalog whose view and validator disagree. */
module RuntimeCatalogExamples {
  import opened Text
  import opened SessionTypes
  import opened RuntimeCatalog
  import opened RuntimeCatalogKeys
  import opened RuntimeCatalogProofs

  /** With two surfaces of one reference only the last one's models are accepted, though both are shown. */
  lemma LastSurfaceWins(cli: CLI, first: Surface, last: Surface, model: string)
    requires Offers(cli, first) && Offers(cli, last) && RefForSurface(first) == RefForSurface(last)
             && NulFree([first, last])
    requires model in SurfaceModels(first) && model !in SurfaceModels(last)
    ensures SurfacesOffer(SurfaceItems(cli, [first, last]), RefForSurface(first), model)
    ensures !IndexAccepts(SurfaceIndex(cli, [first, last]), CatalogKey(RefForSurface(first)), model)
  {
    var both, ref := [first, last], RefForSurface(first);
    EntriesOfTwo(cli, first, last);
    EntriesAreClean(cli, both);
    var entries := Entries(cli, both);
    assert entries[0] == EntryOf(first) && entries[1] == EntryOf(last) && entries[0] in entries
           && entries[1] in entries;
    TrimmedsOfClean(entries[0].models, model);
    TrimmedsOfClean(entries[1].models, model);
    TrimSpaceTrims(model);
    FiledIsLast(entries, 1);
    EntriesAreFiled(cli, both);
    ShownAsFiled(cli, both, ref, model);
  }

  lemma EntriesOfTwo(cli: CLI, first: Surface, last: Surface)
    requires Offers(cli, first) && Offers(cli, last)
    ensures Entries(cli, [first, last]) == [EntryOf(first), EntryOf(last)]
  {
    assert [first, last][..1] == [first] && [first][..0] == [];
    assert Entries(cli, [first]) == Entries(cli, []) + [EntryOf(first)];
  }

  lemma TrimmedTexts()
    ensures TrimSpace("c") == "c" && TrimSpace("e") == "e" && TrimSpace("i") == "i" && TrimSpace("p") == "p"
            && TrimSpace("s") == "s"
    ensures TrimSpace("m") == "m" && TrimSpace("n") == "n"
  {
    forall text <- ["c", "e", "i", "p", "s", "m", "n"] ensures TrimSpace(text) == text {
      TrimSpaceTrims(text);
      assert |text| == 1 && !IsSpace(text[0]);
    }
    var texts := ["c", "e", "i", "p", "s", "m", "n"];
    assert forall k :: 0 <= k < 7 ==> texts[k] in texts;
  }

  const EXAMPLE_CLI := CLI("c", "", [])

  /** A surface of the example's CLI with one model. */
  function OneModel(id: string): Surface {
    Surface("s", "p", "", "", Some(Runtime("", CliRuntime("c"), [CatalogModel(id, "")])))
  }

  /** Two surfaces of one reference, each with a model of its own. */
  const EXAMPLE := Sources([Definition("c", ["e"])], [Image("c", "e", "i")], [OneModel("m"), OneModel("n")])

  lemma OneModelIsOffered(id: string)
    requires id != "" && TrimSpace(id) == id
    ensures Offers(EXAMPLE_CLI, OneModel(id)) && SurfaceModels(OneModel(id)) == [id]
    ensures NUL !in TrimSpace(OneModel(id).providerID) && NUL !in TrimSpace(OneModel(id).surfaceID)
    ensures RefForSurface(OneModel(id)) == Some(RuntimeRef("p", "s", CliAccess))
  {
    TrimmedTexts();
    ModelsOfOne(id);
  }

  lemma ModelsOfOne(id: string)
    requires id != "" && TrimSpace(id) == id
    ensures Models([CatalogModel(id, "")]) == [id]
  {
    var model := CatalogModel(id, "");
    FirstOfTwo(id, "");
    assert [model][..0] == [] && ModelID(model) == id && Models([]) == [];
  }

  lemma ExampleIsNotCovered()
    ensures NulFree(EXAMPLE.surfaces) && Offers(EXAMPLE_CLI, OneModel("m"))
            && !CoveredBy(Entries(EXAMPLE_CLI, EXAMPLE.surfaces), Entries(EXAMPLE_CLI, EXAMPLE.surfaces))
  {
    TrimmedTexts();
    OneModelIsOffered("m");
    OneModelIsOffered("n");
    EntriesOfTwo(EXAMPLE_CLI, OneModel("m"), OneModel("n"));
    NotCovered(EntryOf(OneModel("m")), EntryOf(OneModel("n")), "m");
  }

  lemma NotCovered(first: Entry, last: Entry, id: string)
    requires first.key == last.key && id in first.models && id !in last.models
    ensures !CoveredBy([first, last], [first, last])
  {
    var both := [first, last];
    assert both[0] in both && both[1].key == both[0].key;
    assert !IsLast(both, 0) && !EntryCovered(first, both);
  }

  lemma ExampleIsShown()
    requires Offers(EXAMPLE_CLI, OneModel("m"))
    ensures Shown(EXAMPLE, EXAMPLE_CLI)
  {
    TrimmedTexts();
    ItemsHoldAll(EXAMPLE_CLI, EXAMPLE.surfaces, OptionOf(OneModel("m")));
    assert EXAMPLE.surfaces[0] in EXAMPLE.surfaces;
    var definition := Definition("c", ["e"]);
    assert EXAMPLE.definitions[|EXAMPLE.definitions| - 1] == definition;
    assert DefinitionOf(EXAMPLE.definitions, "c") == Some(definition);
    assert EXAMPLE.images[0] in EXAMPLE.images && Provides(EXAMPLE.images[0], "c", "e");
    assert ["e"][..0] == [] && AvailableClasses([], EXAMPLE.images, "c") == [];
    assert AvailableClasses(["e"], EXAMPLE.images, "c") == [] + ["e"];
  }

  /** It happens: the first surface's model is in the view and is refused. */
  lemma CatalogCanDisagree() returns (spec: Spec)
    ensures UniqueCLIs([EXAMPLE_CLI]) && NulFree(EXAMPLE.surfaces)
    ensures OfferedIn(Build(EXAMPLE, [EXAMPLE_CLI]).view, Some(spec))
            && !Accepts(Build(EXAMPLE, [EXAMPLE_CLI]), Some(spec))
  {
    ExampleIsNotCovered();
    ExampleIsShown();
    UniqueCLIsCoveredIff(EXAMPLE, [EXAMPLE_CLI]);
    assert EXAMPLE_CLI in [EXAMPLE_CLI];
    spec := Disagreement(EXAMPLE, [EXAMPLE_CLI]);
  }
}
