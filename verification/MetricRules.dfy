/** The naming rules of metrics, and what they mean for stored names. */
module MetricRules {
  import opened Text
  import opened MetricNames
  import opened MetricNameLaws

  predicate Lower(c: char) { 'a' <= c <= 'z' }

  predicate Numeric(c: char) { '0' <= c <= '9' }

  predicate Word(c: char) { Lower(c) || Numeric(c) || c == '_' }

  /** ^[a-z][a-z0-9_]*(\.[a-z][a-z0-9_]*)*$ */
  predicate AttributeName(s: string) {
    && s != "" && Lower(s[0]) && s[|s| - 1] != '.'
    && (forall i :: 0 <= i < |s| ==> Word(s[i]) || s[i] == '.')
    && (forall i :: 0 < i < |s| && s[i - 1] == '.' ==> Lower(s[i]))
  }

  /** ^[a-z][a-z0-9_]*(\.[a-z][a-z0-9_]*)+$ */
  predicate SemanticPattern(s: string) { AttributeName(s) && '.' in s }

  predicate PromStart(c: char) { Lower(c) || 'A' <= c <= 'Z' || c == '_' || c == ':' }

  /** ^[a-zA-Z_:][a-zA-Z0-9_:]*$ */
  predicate PromPattern(s: string) {
    s != "" && PromStart(s[0]) && forall i :: 0 <= i < |s| ==> PromStart(s[i]) || Numeric(s[i])
  }

  predicate HasSuffix(s: string, suffix: string) { |suffix| <= |s| && s[|s| - |suffix|..] == suffix }

  predicate OccursAt(s: string, part: string, i: nat) {
    i + |part| <= |s| && forall k :: 0 <= k < |part| ==> s[i + k] == part[k]
  }

  predicate Contains(s: string, part: string) { exists i :: 0 <= i <= |s| && OccursAt(s, part, i) }

  const COUNTER := 2

  /** validateMetricNameAndUnit: suffixes are dotted for semantic names. */
  predicate NameAndUnitOk(name: string, unit: string, kind: int) {
    var dotted := SemanticPattern(name);
    && (HasSuffix(name, if dotted then ".total" else "_total") <==> kind == COUNTER)
    && (unit == "s" ==>
          HasSuffix(name, if Contains(name, "timestamp")
                    then (if dotted then ".timestamp.seconds" else "_timestamp_seconds")
                          else if dotted then ".seconds" else "_seconds"))
  }

  predicate MetricNameOk(name: string, unit: string, kind: int) {
    name != "" && (PromPattern(name) || SemanticPattern(name)) && NameAndUnitOk(name, unit, kind)
  }

  // ---------------------------------------------------------------- stored names

  /** The stored form of a semantic name is a Prometheus name and no longer semantic. */
  lemma StoredIsProm(name: string)
    requires SemanticPattern(name)
    ensures PromPattern(Underscored(name)) && !SemanticPattern(Underscored(name)) && Trimmed(name)
  {
    UnderscoredHasNoDot(name);
    var u := Underscored(name);
    assert Lower(name[0]) && u[0] == name[0];
    forall i | 0 <= i < |name| ensures (PromStart(u[i]) || Numeric(u[i])) && !IsSpace(name[i]) {
      assert Word(name[i]) || name[i] == '.';
    }
  }

  lemma SuffixUnderscored(name: string, suffix: string)
    requires HasSuffix(name, suffix)
    ensures HasSuffix(Underscored(name), Underscored(suffix))
  {
    assert name == name[..|name| - |suffix|] + suffix;
    ReplaceConcat(name[..|name| - |suffix|], suffix, '.', '_');
  }

  lemma ContainsUnderscored(name: string, part: string)
    requires '.' !in part && '_' !in part
    ensures Contains(Underscored(name), part) <==> Contains(name, part)
  {
    var u := Underscored(name);
    forall i | 0 <= i <= |name| ensures OccursAt(u, part, i) <==> OccursAt(name, part, i) {
      assert forall k :: 0 <= k < |part| ==> part[k] in part;
      assert i + |part| <= |name| ==> forall k :: 0 <= k < |part| ==> (u[i + k] == part[k] <==> name[i + k] == part[k]);
    }
  }

  lemma SuffixTexts()
    ensures Underscored(".total") == "_total" && Underscored(".seconds") == "_seconds"
    ensures Underscored(".timestamp.seconds") == "_timestamp_seconds"
    ensures '.' !in "timestamp" && '_' !in "timestamp"
  {
  }

  /**
   * A valid semantic name is stored under a valid Prometheus name, with the
   * suffix its kind and unit ask for, unless it is a non-counter that ends in
   * "_total": that suffix is free in semantic names but not in stored ones.
   */
  lemma StoredNameIsValidIff(name: string, unit: string, kind: int)
    requires SemanticPattern(name) && MetricNameOk(name, unit, kind)
    ensures PromPattern(StorageName(name))
    ensures MetricNameOk(StorageName(name), unit, kind) <==> kind == COUNTER || !HasSuffix(name, "_total")
  {
    var stored := Underscored(name);
    StoredIsProm(name);
    TrimSpaceTrims(name);
    StorageNameIsReplacement(name);
    SuffixTexts();
    ContainsUnderscored(name, "timestamp");
    if HasSuffix(name, ".total") {
      SuffixUnderscored(name, ".total");
    }
    if HasSuffix(name, ".seconds") {
      SuffixUnderscored(name, ".seconds");
    }
    if HasSuffix(name, ".timestamp.seconds") {
      SuffixUnderscored(name, ".timestamp.seconds");
    }
    StoredTotal(name);
  }

  lemma EndsInTotal(tail: string)
    requires Underscored(tail) == "_total"
    ensures tail == "_total" || tail == ".total"
  {
    var stored := "_total";
    assert |tail| == 6 && forall k :: 0 <= k < 6 ==> Underscored(tail)[k] == stored[k];
    assert forall k :: 0 < k < 6 ==> tail[k] == stored[k];
  }

  /** The stored name ends in "_total" when the name ends in ".total" or "_total". */
  lemma StoredTotal(name: string)
    ensures HasSuffix(Underscored(name), "_total") <==> HasSuffix(name, ".total") || HasSuffix(name, "_total")
  {
    SuffixTexts();
    if HasSuffix(name, "_total") {
      SuffixUnderscored(name, "_total");
      UnderscoredHasNoDot("_total");
    }
    if HasSuffix(name, ".total") {
      SuffixUnderscored(name, ".total");
    }
    if HasSuffix(Underscored(name), "_total") {
      EndsInTotal(name[|name| - 6..]);
      assert Underscored(name)[|name| - 6..] == Underscored(name[|name| - 6..]);
    }
  }

  /** It happens: this gauge has a valid semantic name, and its stored name is refused. */
  lemma StoredNameCanFail(unit: string, kind: int)
    requires unit != "s" && kind != COUNTER
    ensures var name := "a.b_total";
            SemanticPattern(name) && MetricNameOk(name, unit, kind) && !MetricNameOk(StorageName(name), unit, kind)
  {
    var name := "a.b_total";
    assert name[1] == '.' && name[2] == 'b' && name[3] == '_';
    assert name[|name| - 6..] == "_total" && ".total"[0] == '.';
    assert !HasSuffix(name, ".total") && HasSuffix(name, "_total");
    StoredNameIsValidIff(name, unit, kind);
  }
}
