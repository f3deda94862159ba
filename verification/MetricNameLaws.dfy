/** StorageName is one character replacement; SemanticName undoes it exactly where it can. */
module MetricNameLaws {
  import opened Text
  import opened MetricNames

  // ---------------------------------------------------------------- the table

  predicate GoodEntry(e: (string, string)) {
    && Underscored(e.0) == e.1 && e.0 != "" && Trimmed(e.0) && '.' in e.0
    && !(SEMANTIC_CLI_PREFIX <= e.0) && !(SEMANTIC_VENDOR_PREFIX <= e.0)
    && !(STORAGE_CLI_PREFIX <= e.1) && !(STORAGE_VENDOR_PREFIX <= e.1)
  }

  predicate GoodTable(table: seq<(string, string)>) {
    && (forall e <- table :: GoodEntry(e))
    && (forall i, j :: 0 <= i < j < |table| ==> table[i].1 != table[j].1)
  }

  lemma PrefixTexts()
    ensures Underscored("gen_ai.provider.") == "gen_ai_provider_" && |"gen_ai.provider."| == |"gen_ai_provider_"| == 16
    ensures "gen_ai.provider."[0] == 'g' && "gen_ai.provider."[6] == '.'
    ensures Underscored("cli.oauth.") == "cli_oauth_" && Underscored("vendor.api_key.") == "vendor_api_key_"
  {
  }

  lemma PrefixesMatch()
    ensures Underscored(SEMANTIC_CLI_PREFIX) == STORAGE_CLI_PREFIX
            && Underscored(SEMANTIC_VENDOR_PREFIX) == STORAGE_VENDOR_PREFIX
    ensures |SEMANTIC_CLI_PREFIX| == |STORAGE_CLI_PREFIX| == 26
            && |SEMANTIC_VENDOR_PREFIX| == |STORAGE_VENDOR_PREFIX| == 31
    ensures SEMANTIC_CLI_PREFIX[0] == 'g' == SEMANTIC_VENDOR_PREFIX[0]
    ensures SEMANTIC_CLI_PREFIX[16] == 'c' == STORAGE_CLI_PREFIX[16]
            && SEMANTIC_VENDOR_PREFIX[16] == 'v' == STORAGE_VENDOR_PREFIX[16]
    ensures SEMANTIC_CLI_PREFIX[25] == '.' && SEMANTIC_VENDOR_PREFIX[30] == '.'
  {
    PrefixTexts();
    JoinedPieces("gen_ai.provider.", "cli.oauth.", "gen_ai_provider_", "cli_oauth_");
    JoinedPieces("gen_ai.provider.", "vendor.api_key.", "gen_ai_provider_", "vendor_api_key_");
  }

  lemma TailMakesGoodEntry(tail: (string, string))
    requires TailOk(tail)
    ensures GoodEntry(("gen_ai.provider." + tail.0, "gen_ai_provider_" + tail.1))
  {
    PrefixTexts();
    PrefixesMatch();
    var semantic, storage := "gen_ai.provider." + tail.0, "gen_ai_provider_" + tail.1;
    JoinedPieces("gen_ai.provider.", tail.0, "gen_ai_provider_", tail.1);
    assert semantic[16] == tail.0[0] && storage[16] == tail.1[0] == tail.0[0];
    assert semantic[0] == 'g' && semantic[6] == '.' && semantic[|semantic| - 1] == tail.0[|tail.0| - 1];
  }

  predicate DistinctStorage(tails: seq<(string, string)>) {
    forall i, j :: 0 <= i < j < |tails| ==> tails[i].1 != tails[j].1
  }

  lemma {:induction false} TableOfGoodTails(tails: seq<(string, string)>)
    requires (forall i :: 0 <= i < |tails| ==> TailOk(tails[i])) && DistinctStorage(tails)
    ensures GoodTable(Table(tails)) && |Table(tails)| == |tails|
    ensures forall i :: 0 <= i < |tails| ==> Table(tails)[i].1 == "gen_ai_provider_" + tails[i].1
  {
    if tails != [] {
      TableOfGoodTails(tails[1..]);
      TailMakesGoodEntry(tails[0]);
      forall j | 0 < j < |tails| ensures Table(tails)[0].1 != Table(tails)[j].1 {
        assert Table(tails)[j].1 == "gen_ai_provider_" + tails[j].1;
        assert Table(tails)[0].1[16..] == tails[0].1 && Table(tails)[j].1[16..] == tails[j].1;
      }
    }
  }

  /** Storage names differ in length, or at the first or seventh character. */
  lemma TailsAreDistinct()
    ensures DistinctStorage(Tails())
  {
    var tails := Tails();
    assert forall i, j :: 0 <= i < j < |tails| ==>
      |tails[i].1| != |tails[j].1| || tails[i].1[0] != tails[j].1[0] || tails[i].1[6] != tails[j].1[6];
  }

  lemma TheTableIsGood()
    ensures GoodTable(Table(Tails()))
  {
    TailsAreOk();
    TailsAreDistinct();
    TableOfGoodTails(Tails());
  }

  predicate HasSemantic(table: seq<(string, string)>, name: string) { exists e <- table :: e.0 == name }

  predicate HasStorage(table: seq<(string, string)>, name: string) { exists e <- table :: e.1 == name }

  lemma {:induction false} StorageLookup(table: seq<(string, string)>, name: string)
    requires forall e <- table :: GoodEntry(e)
    ensures StorageOf(table, name).Some? <==> HasSemantic(table, name)
    ensures StorageOf(table, name).Some? ==> StorageOf(table, name).value == Underscored(name)
  {
    if table != [] {
      StorageLookup(table[1..], name);
      assert GoodEntry(table[0]);
      assert forall e :: e in table <==> e == table[0] || e in table[1..];
    }
  }

  lemma {:induction false} SemanticLookup(table: seq<(string, string)>, name: string)
    requires GoodTable(table)
    ensures SemanticOf(table, name).Some? <==> HasStorage(table, name)
    ensures SemanticOf(table, name).Some? ==> (SemanticOf(table, name).value, name) in table
    ensures forall e <- table :: e.1 == name ==> SemanticOf(table, name) == Some(e.0)
  {
    if table != [] {
      SemanticLookup(table[1..], name);
      assert forall e :: e in table <==> e == table[0] || e in table[1..];
      assert forall k :: 0 <= k < |table[1..]| ==> table[1..][k] == table[k + 1] && table[0].1 != table[k + 1].1;
      assert forall e <- table[1..] :: e.1 != table[0].1;
    }
  }

  // ---------------------------------------------------------------- storage names

  lemma PrefixedIsUnderscored(name: string, prefix: string, storagePrefix: string)
    requires prefix <= name && Underscored(prefix) == storagePrefix
    ensures storagePrefix + Underscored(name[|prefix|..]) == Underscored(name)
  {
    assert name == prefix + name[|prefix|..];
    ReplaceConcat(prefix, name[|prefix|..], '.', '_');
  }

  lemma StorageIsUnderscored(table: seq<(string, string)>, s: string)
    requires GoodTable(table)
    ensures StorageIn(table, s) == Underscored(TrimSpace(s))
  {
    var name := TrimSpace(s);
    StorageLookup(table, name);
    PrefixesMatch();
    UnderscoredHasNoDot(name);
    if SEMANTIC_CLI_PREFIX <= name {
      PrefixedIsUnderscored(name, SEMANTIC_CLI_PREFIX, STORAGE_CLI_PREFIX);
    }
    if SEMANTIC_VENDOR_PREFIX <= name {
      PrefixedIsUnderscored(name, SEMANTIC_VENDOR_PREFIX, STORAGE_VENDOR_PREFIX);
    }
  }

  /** For every string, StorageName is trimming and then replacing each '.' by '_'. */
  lemma StorageNameIsReplacement(s: string)
    ensures StorageName(s) == Underscored(TrimSpace(s))
  {
    TheTableIsGood();
    StorageIsUnderscored(Table(Tails()), s);
  }

  // ---------------------------------------------------------------- semantic names

  lemma DottedBack(s: string)
    ensures Underscored(Dotted(s)) == Underscored(s)
    ensures Dotted(Underscored(s)) == s <==> '_' !in s
    ensures |Dotted(s)| == |s|
  {
    if '_' in s {
      var i :| 0 <= i < |s| && s[i] == '_';
      assert Dotted(Underscored(s))[i] == '.';
    }
  }

  /** A prefixed name made semantic is still trimmed, and has the same storage name. */
  lemma PrefixedSemantic(name: string, prefix: string, storagePrefix: string)
    requires storagePrefix <= name && Trimmed(name) && Underscored(prefix) == storagePrefix
    requires prefix != "" && !IsSpace(prefix[0]) && !IsSpace(prefix[|prefix| - 1])
    ensures var semantic := prefix + Dotted(name[|storagePrefix|..]);
            Trimmed(semantic) && Underscored(semantic) == Underscored(name)
  {
    var rest := name[|storagePrefix|..];
    var semantic := prefix + Dotted(rest);
    assert name == storagePrefix + rest;
    assert Underscored(semantic) == Underscored(name) by {
      ReplaceConcat(storagePrefix, rest, '.', '_');
      ReplaceConcat(prefix, Dotted(rest), '.', '_');
      UnderscoredHasNoDot(prefix);
      DottedBack(rest);
    }
    assert Trimmed(semantic) by {
      assert rest != "" ==> name[|name| - 1] == rest[|rest| - 1];
    }
  }

  lemma SemanticKeepsStorage(table: seq<(string, string)>, s: string)
    requires GoodTable(table)
    ensures StorageIn(table, SemanticIn(table, s)) == StorageIn(table, s)
  {
    var name, semantic := TrimSpace(s), SemanticIn(table, s);
    TrimSpaceTrims(s);
    SemanticLookup(table, name);
    PrefixesMatch();
    StorageIsUnderscored(table, s);
    StorageIsUnderscored(table, semantic);
    TrimSpaceTrims(semantic);
    if name == "" {
    } else if SemanticOf(table, name).Some? {
      assert GoodEntry((semantic, name));
      UnderscoredHasNoDot(semantic);
    } else if STORAGE_CLI_PREFIX <= name {
      PrefixedSemantic(name, SEMANTIC_CLI_PREFIX, STORAGE_CLI_PREFIX);
    } else if STORAGE_VENDOR_PREFIX <= name {
      PrefixedSemantic(name, SEMANTIC_VENDOR_PREFIX, STORAGE_VENDOR_PREFIX);
    }
  }

  /** Making a name semantic never changes what it is stored as. */
  lemma SemanticNameKeepsStorageName(s: string)
    ensures StorageName(SemanticName(s)) == StorageName(s)
  {
    TheTableIsGood();
    SemanticKeepsStorage(Table(Tails()), s);
  }

  // ---------------------------------------------------------------- when the round trip is exact

  predicate PrefixedWithout(x: string, prefix: string) { prefix <= x && '_' !in x[|prefix|..] }

  /** Names SemanticName recovers from their storage name. */
  predicate Recoverable(table: seq<(string, string)>, x: string) {
    || HasSemantic(table, x)
    || PrefixedWithout(x, SEMANTIC_CLI_PREFIX) || PrefixedWithout(x, SEMANTIC_VENDOR_PREFIX)
    || ('.' !in x && !HasStorage(table, x) && !(STORAGE_CLI_PREFIX <= x) && !(STORAGE_VENDOR_PREFIX <= x))
  }

  /** How a trimmed name comes back, by the form of its storage name. */
  lemma BackFromStorage(table: seq<(string, string)>, x: string)
    requires GoodTable(table) && Trimmed(x)
    ensures var u := Underscored(x);
            SemanticIn(table, u) == if u == "" then ""
            else if SemanticOf(table, u).Some? then SemanticOf(table, u).value
                                    else if STORAGE_CLI_PREFIX <= u then SEMANTIC_CLI_PREFIX + Dotted(u[26..])
                                    else if STORAGE_VENDOR_PREFIX <= u then SEMANTIC_VENDOR_PREFIX + Dotted(u[31..])
                                    else u
  {
    var u := Underscored(x);
    TrimSpaceTrims(u);
    PrefixesMatch();
    assert u != "" ==> !IsSpace(u[0]) && !IsSpace(u[|u| - 1]);
  }

  lemma PrefixedComesBackIff(x: string, prefix: string, storagePrefix: string)
    requires Underscored(prefix) == storagePrefix && storagePrefix <= Underscored(x)
    ensures prefix + Dotted(Underscored(x)[|prefix|..]) == x <==> PrefixedWithout(x, prefix)
  {
    var n := |prefix|;
    assert Underscored(x)[n..] == Underscored(x[n..]);
    DottedBack(x[n..]);
    assert prefix <= x ==> x == prefix + x[n..];
    var back := prefix + Dotted(Underscored(x[n..]));
    assert back[..n] == prefix && back[n..] == Dotted(Underscored(x[n..]));
  }

  lemma RoundTripIff(table: seq<(string, string)>, x: string)
    requires GoodTable(table) && Trimmed(x)
    ensures SemanticIn(table, StorageIn(table, x)) == x <==> Recoverable(table, x)
  {
    var u := Underscored(x);
    TrimSpaceTrims(x);
    StorageIsUnderscored(table, x);
    BackFromStorage(table, x);
    PrefixesMatch();
    UnderscoredHasNoDot(x);
    SemanticLookup(table, u);
    PrefixUnderscores(x);
    if SemanticOf(table, u).Some? {
      TableComesBackIff(table, x);
    } else {
      NotInTable(table, x);
      if STORAGE_CLI_PREFIX <= u {
        PrefixedComesBackIff(x, SEMANTIC_CLI_PREFIX, STORAGE_CLI_PREFIX);
      } else if STORAGE_VENDOR_PREFIX <= u {
        PrefixedComesBackIff(x, SEMANTIC_VENDOR_PREFIX, STORAGE_VENDOR_PREFIX);
      }
    }
  }

  /** A semantic prefix shows as a storage prefix; a name without '.' has only what it shows. */
  lemma PrefixUnderscores(x: string)
    ensures SEMANTIC_CLI_PREFIX <= x ==> STORAGE_CLI_PREFIX <= Underscored(x)
    ensures SEMANTIC_VENDOR_PREFIX <= x ==> STORAGE_VENDOR_PREFIX <= Underscored(x)
    ensures !(STORAGE_CLI_PREFIX <= Underscored(x) && STORAGE_VENDOR_PREFIX <= Underscored(x))
    ensures SEMANTIC_CLI_PREFIX <= x || SEMANTIC_VENDOR_PREFIX <= x ==> '.' in x
  {
    PrefixesMatch();
    if SEMANTIC_CLI_PREFIX <= x {
      PrefixedIsUnderscored(x, SEMANTIC_CLI_PREFIX, STORAGE_CLI_PREFIX);
      assert x[25] == '.';
    }
    if SEMANTIC_VENDOR_PREFIX <= x {
      PrefixedIsUnderscored(x, SEMANTIC_VENDOR_PREFIX, STORAGE_VENDOR_PREFIX);
      assert x[30] == '.';
    }
  }

  lemma NotInTable(table: seq<(string, string)>, x: string)
    requires GoodTable(table) && !HasStorage(table, Underscored(x))
    ensures !HasSemantic(table, x)
    ensures '.' !in x ==> !HasStorage(table, x)
  {
    UnderscoredHasNoDot(x);
    forall e <- table ensures e.0 != x {
      assert GoodEntry(e);
    }
  }

  lemma TableComesBackIff(table: seq<(string, string)>, x: string)
    requires GoodTable(table) && HasStorage(table, Underscored(x))
    ensures SemanticOf(table, Underscored(x)) == Some(x) <==> HasSemantic(table, x)
    ensures !(STORAGE_CLI_PREFIX <= Underscored(x)) && !(STORAGE_VENDOR_PREFIX <= Underscored(x))
    ensures '.' !in x ==> HasStorage(table, x)
  {
    SemanticLookup(table, Underscored(x));
    UnderscoredHasNoDot(x);
    var e :| e in table && e.1 == Underscored(x);
    assert GoodEntry(e);
    forall f <- table | f.0 == x ensures f.1 == Underscored(x) {
      assert GoodEntry(f);
    }
  }

  /**
   * A trimmed name comes back from its storage name exactly when it is in the
   * table, or has one of the two prefixes and no '_' behind it, or is a plain
   * name that is not itself a storage name.
   */
  lemma SemanticNameRecoversIff(x: string)
    requires Trimmed(x)
    ensures SemanticName(StorageName(x)) == x <==> Recoverable(Table(Tails()), x)
  {
    TheTableIsGood();
    RoundTripIff(Table(Tails()), x);
  }
}
