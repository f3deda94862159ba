/**
 * The contract validator as it is programmed: loops with sets of what was seen,
 * returning at the first fault. Every method accepts exactly the contracts the
 * declarative predicates of Observability describe.
 */
module ObservabilityValidator {
  import opened Text
  import opened MetricRules
  import opened Observability
  import Decimal
  import PageTokens

  // ---------------------------------------------------------------- seen sets

  /** The first `i` keys are all different, and `seen` holds them. */
  ghost predicate Seen<T(!new)>(keys: seq<T>, i: nat, seen: set<T>) {
    i <= |keys| && Unique(keys[..i]) && seen == set k | k in keys[..i]
  }

  /** Where a key was seen. */
  lemma SeenAt<T(!new)>(keys: seq<T>, i: nat, seen: set<T>, x: T) returns (k: nat)
    requires Seen(keys, i, seen) && x in seen
    ensures k < i && keys[k] == x
  {
    k :| 0 <= k < i && keys[..i][k] == x;
  }

  /** A key that was seen spoils the list. */
  lemma SeenAgain<T(!new)>(keys: seq<T>, i: nat, seen: set<T>, key: T)
    requires i < |keys| && Seen(keys, i, seen) && keys[i] == key && key in seen
    ensures !Unique(keys)
  {
    var k := SeenAt(keys, i, seen, key);
  }

  /** A new key is seen from now on. */
  lemma SeenMore<T(!new)>(keys: seq<T>, i: nat, seen: set<T>, key: T)
    requires i < |keys| && Seen(keys, i, seen) && keys[i] == key && key !in seen
    ensures Seen(keys, i + 1, seen + {key})
  {
    assert keys[..i + 1] == keys[..i] + [key];
  }

  lemma SeenNone<T(!new)>(keys: seq<T>)
    ensures Seen(keys, 0, {})
  {
  }

  lemma SeenAll<T(!new)>(keys: seq<T>, seen: set<T>)
    requires Seen(keys, |keys|, seen)
    ensures Unique(keys) && seen == set k | k in keys
  {
    assert keys[..|keys|] == keys;
  }

  /** Notes the next key; fails if it was seen. */
  method AddKey<T(==,!new)>(ghost keys: seq<T>, ghost i: nat, seen: set<T>, key: T) returns (ok: bool, more: set<T>)
    requires i < |keys| && Seen(keys, i, seen) && keys[i] == key
    ensures ok ==> Seen(keys, i + 1, more)
    ensures !ok ==> !Unique(keys)
  {
    more := seen + {key};
    if key in seen {
      SeenAgain(keys, i, seen, key);
      return false, more;
    }
    SeenMore(keys, i, seen, key);
    ok := true;
  }

  /** Which items are good, one by one. */
  ghost function Marks<T(!new)>(good: T -> bool, items: seq<T>): (marks: seq<bool>)
    ensures |marks| == |items| && forall i :: 0 <= i < |items| ==> marks[i] == good(items[i])
    ensures (forall i :: 0 <= i < |items| ==> marks[i]) <==> forall x <- items :: good(x)
  {
    var marks := seq(|items|, i requires 0 <= i < |items| => good(items[i]));
    assert forall i :: 0 <= i < |items| ==> items[i] in items && marks[i] == good(items[i]);
    marks
  }

  // ---------------------------------------------------------------- metrics

  method ValidateMetric(item: Option<Metric>) returns (ok: bool)
    ensures ok == GoodMetric(item)
  {
    if item.None? {
      return false;
    }
    var metric := item.value;
    var name, unit := TrimSpace(metric.name), TrimSpace(metric.unit);
    if name == "" || (!PromPattern(name) && !SemanticPattern(name)) || TrimSpace(metric.description) == "" {
      return false;
    }
    if unit != "" && !UnitPattern(unit) {
      return false;
    }
    if metric.kind == UNSPECIFIED || metric.category == UNSPECIFIED || !NameAndUnitOk(name, unit, metric.kind) {
      return false;
    }
    ok := ValidateAttributes(metric.attributes);
  }

  method ValidateAttribute(item: Option<Attribute>) returns (ok: bool)
    ensures ok == GoodAttribute(item)
  {
    if item.None? {
      return false;
    }
    var name := TrimSpace(item.value.name);
    if name == "" || !AttributeName(name) || TrimSpace(item.value.description) == "" {
      return false;
    }
    ok := item.value.requirement != UNSPECIFIED;
  }

  method ValidateAttributes(items: seq<Option<Attribute>>) returns (ok: bool)
    ensures ok == ((forall a <- items :: GoodAttribute(a)) && Unique(AttributeNames(items)))
  {
    var seen := {};
    ghost var keys := AttributeNames(items);
    SeenNone(keys);
    for i := 0 to |items|
      invariant forall k :: 0 <= k < i ==> GoodAttribute(items[k])
      invariant Seen(keys, i, seen)
    {
      var good := ValidateAttribute(items[i]);
      if !good {
        assert items[i] in items;
        return false;
      }
      var name := TrimSpace(items[i].value.name);
      assert keys[i] == name;
      if name in seen {
        SeenAgain(keys, i, seen, name);
        return false;
      }
      SeenMore(keys, i, seen, name);
      seen := seen + {name};
    }
    SeenAll(keys, seen);
    ok := true;
  }

  /** The declared label names by metric name. */
  ghost predicate Declared(metrics: seq<Option<Metric>>, declared: map<string, set<string>>) {
    && (forall n :: n in declared <==> n in MetricNamesOf(metrics))
    && forall n, a :: Lists(declared, n, a) <==> Declares(metrics, n, a)
  }

  predicate Lists(declared: map<string, set<string>>, n: string, a: string) { n in declared && a in declared[n] }

  lemma DeclaredNext(metrics: seq<Option<Metric>>, i: nat, declared: map<string, set<string>>, attributes: set<string>)
    requires i < |metrics| && metrics[i].Some? && Declared(metrics[..i], declared)
    requires MetricNamesOf(metrics)[i] !in MetricNamesOf(metrics)[..i]
    requires forall a :: a in attributes <==> a in AttributeNames(metrics[i].value.attributes)
    ensures Declared(metrics[..i + 1], declared[TrimSpace(metrics[i].value.name) := attributes])
  {
    var name := TrimSpace(metrics[i].value.name);
    var more := declared[name := attributes];
    assert MetricNamesOf(metrics[..i]) == MetricNamesOf(metrics)[..i];
    assert MetricNamesOf(metrics[..i + 1]) == MetricNamesOf(metrics[..i]) + [name];
    MoreMetrics(metrics, i);
    forall n, a ensures Lists(more, n, a) <==> Declares(metrics[..i + 1], n, a) {
      assert Lists(declared, n, a) <==> Declares(metrics[..i], n, a);
      if n == name {
        NotDeclaredYet(metrics[..i], n, a);
      }
    }
    assert Declared(metrics[..i + 1], more);
  }

  lemma MoreMetrics(metrics: seq<Option<Metric>>, i: nat)
    requires i < |metrics| && metrics[i].Some?
    ensures forall n, a :: Declares(metrics[..i + 1], n, a)
              <==> Declares(metrics[..i], n, a)
                   || (TrimSpace(metrics[i].value.name) == n && a in AttributeNames(metrics[i].value.attributes))
  {
    assert forall m :: m in metrics[..i + 1] <==> m in metrics[..i] || m == metrics[i];
    forall n, a ensures Declares(metrics[..i + 1], n, a)
      <==> Declares(metrics[..i], n, a)
           || (TrimSpace(metrics[i].value.name) == n && a in AttributeNames(metrics[i].value.attributes))
    {
      assert metrics[i] in metrics[..i + 1];
    }
  }

  lemma NotDeclaredYet(metrics: seq<Option<Metric>>, name: string, attribute: string)
    requires name !in MetricNamesOf(metrics)
    ensures !Declares(metrics, name, attribute)
  {
    forall m <- metrics | m.Some? ensures TrimSpace(m.value.name) != name {
      var k :| 0 <= k < |metrics| && metrics[k] == m;
      assert MetricNamesOf(metrics)[k] in MetricNamesOf(metrics);
    }
  }

  method CheckMetric(metrics: seq<Option<Metric>>, i: nat, ghost marks: seq<bool>) returns (ok: bool)
    requires i < |metrics| && marks == Marks(GoodMetric, metrics)
    ensures ok == marks[i] && (ok ==> metrics[i].Some? && forall a <- metrics[i].value.attributes :: a.Some?)
  {
    ok := ValidateMetric(metrics[i]);
  }

  /** Notes a metric's name and labels; fails if the name was seen. */
  method AddMetric(metrics: seq<Option<Metric>>, i: nat, names: set<string>, declared: map<string, set<string>>)
    returns (ok: bool, moreNames: set<string>, moreDeclared: map<string, set<string>>)
    requires i < |metrics| && metrics[i].Some? && forall a <- metrics[i].value.attributes :: a.Some?
    requires Seen(MetricNamesOf(metrics), i, names) && Declared(metrics[..i], declared)
    ensures ok ==> Seen(MetricNamesOf(metrics), i + 1, moreNames) && Declared(metrics[..i + 1], moreDeclared)
    ensures !ok ==> !Unique(MetricNamesOf(metrics))
  {
    var name := TrimSpace(metrics[i].value.name);
    moreNames, moreDeclared := names + {name}, declared;
    if name in names {
      SeenAgain(MetricNamesOf(metrics), i, names, name);
      return false, moreNames, moreDeclared;
    }
    var attributes := CollectNames(metrics[i].value.attributes);
    SeenMore(MetricNamesOf(metrics), i, names, name);
    DeclaredNext(metrics, i, declared, attributes);
    moreDeclared := declared[name := attributes];
    ok := true;
  }

  method ValidateMetrics(metrics: seq<Option<Metric>>)
    returns (ok: bool, names: set<string>, declared: map<string, set<string>>)
    ensures ok == GoodMetrics(metrics)
    ensures ok ==> names == (set n | n in MetricNamesOf(metrics)) && Declared(metrics, declared)
  {
    names, declared := {}, map[];
    if metrics == [] {
      return false, names, declared;
    }
    ghost var marks := Marks(GoodMetric, metrics);
    SeenNone(MetricNamesOf(metrics));
    for i := 0 to |metrics|
      invariant forall k :: 0 <= k < i ==> marks[k]
      invariant Seen(MetricNamesOf(metrics), i, names) && Declared(metrics[..i], declared)
    {
      ok := CheckMetric(metrics, i, marks);
      if !ok {
        return;
      }
      ok, names, declared := AddMetric(metrics, i, names, declared);
      if !ok {
        return;
      }
    }
    SeenAll(MetricNamesOf(metrics), names);
    assert metrics[..|metrics|] == metrics;
    ok := true;
  }

  method CollectNames(items: seq<Option<Attribute>>) returns (names: set<string>)
    requires forall a <- items :: a.Some?
    ensures names == set a | a in AttributeNames(items)
  {
    names := {};
    for i := 0 to |items|
      invariant names == set a | a in AttributeNames(items)[..i]
    {
      assert items[i] in items
             && AttributeNames(items)[..i + 1] == AttributeNames(items)[..i] + [AttributeNames(items)[i]];
      names := names + {TrimSpace(items[i].value.name)};
    }
    assert AttributeNames(items)[..|items|] == AttributeNames(items);
  }

  // ---------------------------------------------------------------- active queries

  method ValidateActiveQuery(casing: Casing, q: ActiveQuery) returns (ok: bool)
    ensures ok == GoodActiveQuery(casing, q)
  {
    if !Positive(q.interval) {
      return false;
    }
    if q.collectorID != "" && !CollectorID(TrimSpace(q.collectorID)) {
      return false;
    }
    ok := ValidateParameters(q.parameters);
    if !ok {
      return;
    }
    ok := ValidateBackfills(casing, q.backfills);
    if !ok {
      return;
    }
    ok := ValidateMaterialFields(q.materialFields);
    if !ok || q.form.None? {
      return;
    }
    ok := ValidateForm(q.form.value);
  }

  method ValidateParameters(items: seq<Option<Parameter>>) returns (ok: bool)
    ensures ok == ((forall p <- items :: GoodParameter(p)) && Unique(ParameterIDs(items)))
  {
    var seen := {};
    ghost var keys := ParameterIDs(items);
    SeenNone(keys);
    for i := 0 to |items|
      invariant forall k :: 0 <= k < i ==> GoodParameter(items[k])
      invariant Seen(keys, i, seen)
    {
      assert items[i] in items;
      if items[i].None? {
        return false;
      }
      var id := TrimSpace(items[i].value.parameterID);
      assert keys[i] == id;
      if id == "" || id in seen {
        if id in seen {
          SeenAgain(keys, i, seen, id);
        }
        return false;
      }
      SeenMore(keys, i, seen, id);
      seen := seen + {id};
      if TrimSpace(items[i].value.displayName) == "" {
        return false;
      }
    }
    SeenAll(keys, seen);
    ok := true;
  }

  method ValidateBackfill(casing: Casing, item: Option<Backfill>) returns (ok: bool)
    ensures ok == GoodBackfill(casing, item)
  {
    if item.None? {
      return false;
    }
    var ruleID, sourceName, target := TrimSpace(item.value.ruleID), TrimSpace(item.value.sourceName),
        TrimSpace(item.value.targetKey);
    if ruleID == "" || !CollectorID(ruleID) || item.value.source == UNSPECIFIED || sourceName == ""
       || HasSpace(sourceName) {
      return false;
    }
    if item.value.source == RESPONSE_HEADER && !HeaderName(casing, sourceName) {
      return false;
    }
    ok := target != "" && MaterialKey(target);
  }

  method CheckBackfill(casing: Casing, items: seq<Option<Backfill>>, i: nat, ghost marks: seq<bool>) returns (ok: bool)
    requires i < |items| && marks == Marks(b => GoodBackfill(casing, b), items)
    ensures ok == marks[i] && (ok ==> items[i].Some?)
  {
    ok := ValidateBackfill(casing, items[i]);
  }

  /** Notes a backfill's rule and target; fails if either was seen. */
  method AddBackfill(items: seq<Option<Backfill>>, i: nat, ruleIDs: set<string>, targets: set<string>)
    returns (ok: bool, moreIDs: set<string>, moreTargets: set<string>)
    requires i < |items| && items[i].Some?
    requires Seen(BackfillIDs(items), i, ruleIDs) && Seen(BackfillTargets(items), i, targets)
    ensures ok ==> Seen(BackfillIDs(items), i + 1, moreIDs) && Seen(BackfillTargets(items), i + 1, moreTargets)
    ensures !ok ==> !Unique(BackfillIDs(items)) || !Unique(BackfillTargets(items))
  {
    var ruleID, target := TrimSpace(items[i].value.ruleID), TrimSpace(items[i].value.targetKey);
    moreIDs, moreTargets := ruleIDs + {ruleID}, targets + {target};
    if ruleID in ruleIDs {
      SeenAgain(BackfillIDs(items), i, ruleIDs, ruleID);
      return false, moreIDs, moreTargets;
    }
    if target in targets {
      SeenAgain(BackfillTargets(items), i, targets, target);
      return false, moreIDs, moreTargets;
    }
    SeenMore(BackfillIDs(items), i, ruleIDs, ruleID);
    SeenMore(BackfillTargets(items), i, targets, target);
    ok := true;
  }

  method ValidateBackfills(casing: Casing, items: seq<Option<Backfill>>) returns (ok: bool)
    ensures ok == GoodBackfills(casing, items)
  {
    var ruleIDs, targets := {}, {};
    ghost var marks := Marks(b => GoodBackfill(casing, b), items);
    SeenNone(BackfillIDs(items));
    SeenNone(BackfillTargets(items));
    for i := 0 to |items|
      invariant forall k :: 0 <= k < i ==> marks[k]
      invariant Seen(BackfillIDs(items), i, ruleIDs) && Seen(BackfillTargets(items), i, targets)
    {
      ok := CheckBackfill(casing, items, i, marks);
      if !ok {
        return;
      }
      ok, ruleIDs, targets := AddBackfill(items, i, ruleIDs, targets);
      if !ok {
        return;
      }
    }
    SeenAll(BackfillIDs(items), ruleIDs);
    SeenAll(BackfillTargets(items), targets);
    ok := true;
  }

  method ValidateMaterialFields(items: seq<string>) returns (ok: bool)
    ensures ok == GoodMaterialFields(items)
  {
    var seen := {};
    ghost var keys := Trims(items);
    SeenNone(keys);
    for i := 0 to |items|
      invariant forall k :: 0 <= k < i ==> MaterialKey(keys[k])
      invariant Seen(keys, i, seen)
    {
      var field := TrimSpace(items[i]);
      if field == "" || !MaterialKey(field) {
        assert keys[i] in keys;
        return false;
      }
      assert keys[i] == field;
      if field in seen {
        SeenAgain(keys, i, seen, field);
        return false;
      }
      SeenMore(keys, i, seen, field);
      seen := seen + {field};
    }
    SeenAll(keys, seen);
    ok := true;
  }

  method ValidateForm(form: Form) returns (ok: bool)
    ensures ok == GoodForm(form)
  {
    var schemaID := TrimSpace(form.schemaID);
    if schemaID == "" || !CollectorID(schemaID) || TrimSpace(form.title) == "" || TrimSpace(form.actionCaption) == ""
       || form.fields == [] {
      return false;
    }
    var stored;
    ok, stored := ValidateFields(form.fields);
    if !ok {
      return;
    }
    ok := ValidateTargets(form.fields, stored);
  }

  method ValidateField(item: Option<Field>) returns (ok: bool)
    ensures ok == GoodField(item)
  {
    if item.None? {
      return false;
    }
    var field := item.value;
    var id, target := TrimSpace(field.fieldID), TrimSpace(field.targetFieldID);
    if id == "" || !MaterialKey(id) || TrimSpace(field.caption) == "" || field.control == UNSPECIFIED {
      return false;
    }
    if field.sensitive && TrimSpace(field.defaultValue) != "" {
      return false;
    }
    if field.persistence == STORED {
      return target == "" && (field.transform == UNSPECIFIED || field.transform == IDENTITY);
    }
    if field.persistence == TRANSIENT {
      if field.required || target == "" || !MaterialKey(target) {
        return false;
      }
      return field.transform != UNSPECIFIED && field.transform != IDENTITY;
    }
    ok := false;
  }

  method CheckField(fields: seq<Option<Field>>, i: nat, ghost marks: seq<bool>) returns (ok: bool)
    requires i < |fields| && marks == Marks(GoodField, fields)
    ensures ok == marks[i] && (ok ==> fields[i].Some?)
  {
    ok := ValidateField(fields[i]);
  }

  /** Notes a field's id, and whether it is stored; fails if the id was seen. */
  method AddField(fields: seq<Option<Field>>, i: nat, seen: set<string>, stored: set<string>)
    returns (ok: bool, moreSeen: set<string>, moreStored: set<string>)
    requires i < |fields| && fields[i].Some? && Seen(FieldIDs(fields), i, seen)
    requires forall id :: id in stored <==> IsStored(fields[..i], id)
    ensures ok ==> Seen(FieldIDs(fields), i + 1, moreSeen)
    ensures ok ==> forall id :: id in moreStored <==> IsStored(fields[..i + 1], id)
    ensures !ok ==> !Unique(FieldIDs(fields))
  {
    var id := TrimSpace(fields[i].value.fieldID);
    moreSeen, moreStored := seen + {id}, stored;
    if id in seen {
      SeenAgain(FieldIDs(fields), i, seen, id);
      return false, moreSeen, moreStored;
    }
    SeenMore(FieldIDs(fields), i, seen, id);
    StoredNext(fields, i);
    if fields[i].value.persistence == STORED {
      moreStored := stored + {id};
    }
    ok := true;
  }

  /** The first pass over the fields collects the ids of the stored ones. */
  method ValidateFields(fields: seq<Option<Field>>) returns (ok: bool, stored: set<string>)
    ensures ok == ((forall f <- fields :: GoodField(f)) && Unique(FieldIDs(fields)))
    ensures ok ==> forall id :: id in stored <==> IsStored(fields, id)
  {
    var seen := {};
    stored := {};
    ghost var marks := Marks(GoodField, fields);
    SeenNone(FieldIDs(fields));
    for i := 0 to |fields|
      invariant forall k :: 0 <= k < i ==> marks[k]
      invariant Seen(FieldIDs(fields), i, seen)
      invariant forall id :: id in stored <==> IsStored(fields[..i], id)
    {
      ok := CheckField(fields, i, marks);
      if !ok {
        return;
      }
      ok, seen, stored := AddField(fields, i, seen, stored);
      if !ok {
        return;
      }
    }
    SeenAll(FieldIDs(fields), seen);
    assert fields[..|fields|] == fields;
    ok := true;
  }

  lemma StoredNext(fields: seq<Option<Field>>, i: nat)
    requires i < |fields| && fields[i].Some?
    ensures forall id :: IsStored(fields[..i + 1], id)
              <==> IsStored(fields[..i], id)
                   || (fields[i].value.persistence == STORED && TrimSpace(fields[i].value.fieldID) == id)
  {
    assert forall f :: f in fields[..i + 1] <==> f in fields[..i] || f == fields[i];
    forall id ensures IsStored(fields[..i + 1], id)
      <==> IsStored(fields[..i], id)
           || (fields[i].value.persistence == STORED && TrimSpace(fields[i].value.fieldID) == id)
    {
      assert fields[i] in fields[..i + 1];
    }
  }

  /** The second pass checks that transient fields name stored ones. */
  method ValidateTargets(fields: seq<Option<Field>>, stored: set<string>) returns (ok: bool)
    requires forall f <- fields :: GoodField(f)
    requires forall id :: id in stored <==> IsStored(fields, id)
    ensures ok == TargetsStored(fields)
  {
    for i := 0 to |fields|
      invariant forall k :: 0 <= k < i && fields[k].Some? && fields[k].value.persistence == TRANSIENT ==>
                  IsStored(fields, TrimSpace(fields[k].value.targetFieldID))
    {
      assert fields[i] in fields;
      if fields[i].value.persistence != TRANSIENT {
        continue;
      }
      if TrimSpace(fields[i].value.targetFieldID) !in stored {
        return false;
      }
    }
    ok := true;
  }

  // ---------------------------------------------------------------- queries and availability

  method ValidateQuery(item: Option<Query>, names: set<string>, ghost metrics: seq<Option<Metric>>) returns (ok: bool)
    requires names == set n | n in MetricNamesOf(metrics)
    ensures ok == GoodQuery(metrics, item)
  {
    if item.None? || TrimSpace(item.value.queryID) == "" || TrimSpace(item.value.displayName) == "" {
      return false;
    }
    var query := item.value;
    if query.language == UNSPECIFIED || TrimSpace(query.statement) == "" || query.metricNames == [] {
      return false;
    }
    for i := 0 to |query.metricNames|
      invariant forall k :: 0 <= k < i ==> TrimSpace(query.metricNames[k]) in MetricNamesOf(metrics)
    {
      if TrimSpace(query.metricNames[i]) !in names {
        assert query.metricNames[i] in query.metricNames;
        return false;
      }
    }
    ok := query.resultKind != UNSPECIFIED;
  }

  method ValidateQueries(items: seq<Option<Query>>, names: set<string>, ghost metrics: seq<Option<Metric>>)
    returns (ok: bool, queryIDs: set<string>)
    requires names == set n | n in MetricNamesOf(metrics)
    ensures ok == ((forall q <- items :: GoodQuery(metrics, q)) && Unique(QueryIDs(items)))
    ensures ok ==> queryIDs == set k | k in QueryIDs(items)
  {
    queryIDs := {};
    ghost var keys := QueryIDs(items);
    SeenNone(keys);
    for i := 0 to |items|
      invariant forall k :: 0 <= k < i ==> GoodQuery(metrics, items[k])
      invariant Seen(keys, i, queryIDs)
    {
      assert items[i] in items;
      if items[i].None? {
        return false, queryIDs;
      }
      var id := TrimSpace(items[i].value.queryID);
      assert keys[i] == id;
      if id in queryIDs {
        SeenAgain(keys, i, queryIDs, id);
        return false, queryIDs;
      }
      SeenMore(keys, i, queryIDs, id);
      queryIDs := queryIDs + {id};
      var good := ValidateQuery(items[i], names, metrics);
      if !good {
        return false, queryIDs;
      }
    }
    SeenAll(keys, queryIDs);
    ok := true;
  }

  method ValidateAvailability(a: Availability, queryIDs: set<string>, ghost ids: seq<string>) returns (ok: bool)
    requires queryIDs == set q | q in ids
    ensures ok == GoodAvailability(ids, a)
  {
    if a.subjectKind == UNSPECIFIED || TrimSpace(a.subjectKey) == "" || a.queryIDs == [] {
      return false;
    }
    for i := 0 to |a.queryIDs|
      invariant forall k :: 0 <= k < i ==> TrimSpace(a.queryIDs[k]) in ids
    {
      if TrimSpace(a.queryIDs[i]) !in queryIDs {
        assert a.queryIDs[i] in a.queryIDs;
        return false;
      }
    }
    ok := ValidateRules(a.rules, queryIDs, ids);
  }

  method ValidateRules(items: seq<Option<Rule>>, queryIDs: set<string>, ghost ids: seq<string>) returns (ok: bool)
    requires queryIDs == set q | q in ids
    ensures ok == ((forall r <- items :: GoodRule(ids, r)) && Unique(RuleIDs(items)))
  {
    var seen := {};
    ghost var keys := RuleIDs(items);
    SeenNone(keys);
    for i := 0 to |items|
      invariant forall k :: 0 <= k < i ==> GoodRule(ids, items[k])
      invariant Seen(keys, i, seen)
    {
      assert items[i] in items;
      if items[i].None? {
        return false;
      }
      var rule := items[i].value;
      var id := TrimSpace(rule.ruleID);
      assert keys[i] == id;
      if id == "" || id in seen {
        if id in seen {
          SeenAgain(keys, i, seen, id);
        }
        return false;
      }
      SeenMore(keys, i, seen, id);
      seen := seen + {id};
      if TrimSpace(rule.displayName) == "" || rule.allOf == [] || rule.state == UNSPECIFIED {
        return false;
      }
      var good := ValidateComparisons(rule.allOf, queryIDs, ids);
      if !good {
        return false;
      }
    }
    SeenAll(keys, seen);
    ok := true;
  }

  method ValidateComparisons(items: seq<Option<Comparison>>, queryIDs: set<string>, ghost ids: seq<string>)
    returns (ok: bool)
    requires queryIDs == set q | q in ids
    ensures ok == forall c <- items :: GoodComparison(ids, c)
  {
    for i := 0 to |items|
      invariant forall k :: 0 <= k < i ==> GoodComparison(ids, items[k])
    {
      if items[i].None? || TrimSpace(items[i].value.queryID) !in queryIDs || items[i].value.operator == UNSPECIFIED {
        assert items[i] in items;
        return false;
      }
    }
    ok := true;
  }

  // ---------------------------------------------------------------- passive telemetry

  method ValidateSelector(casing: Casing, item: Option<Selector>) returns (ok: bool)
    ensures ok == GoodSelector(casing, item)
  {
    if item.None? {
      return false;
    }
    var selector := item.value;
    for i := 0 to |selector.methods|
      invariant forall k :: 0 <= k < i ==>
                  !Blank(selector.methods[k])
                    && TrimSpace(selector.methods[k]) == casing.upper(TrimSpace(selector.methods[k]))
    {
      var m := TrimSpace(selector.methods[i]);
      if m == "" || m != casing.upper(m) {
        assert selector.methods[i] in selector.methods;
        return false;
      }
    }
    for i := 0 to |selector.pathPrefixes|
      invariant forall k :: 0 <= k < i ==>
                  !Blank(selector.pathPrefixes[k]) && TrimSpace(selector.pathPrefixes[k])[0] == '/'
    {
      var prefix := TrimSpace(selector.pathPrefixes[i]);
      if prefix == "" || prefix[0] != '/' {
        assert selector.pathPrefixes[i] in selector.pathPrefixes;
        return false;
      }
    }
    ok := ValidateStatusesAndHosts(selector);
  }

  method ValidateStatusesAndHosts(selector: Selector) returns (ok: bool)
    ensures ok == ((forall s <- selector.statusCodes :: 100 <= s <= 599)
                   && (forall h <- selector.hostnames :: !Blank(h)))
  {
    for i := 0 to |selector.statusCodes|
      invariant forall k :: 0 <= k < i ==> 100 <= selector.statusCodes[k] <= 599
    {
      if selector.statusCodes[i] < 100 || selector.statusCodes[i] > 599 {
        assert selector.statusCodes[i] in selector.statusCodes;
        return false;
      }
    }
    for i := 0 to |selector.hostnames|
      invariant forall k :: 0 <= k < i ==> !Blank(selector.hostnames[k])
    {
      if TrimSpace(selector.hostnames[i]) == "" {
        assert selector.hostnames[i] in selector.hostnames;
        return false;
      }
    }
    ok := true;
  }

  method ValidateSelectors(casing: Casing, items: seq<Option<Selector>>) returns (ok: bool)
    ensures ok == forall s <- items :: GoodSelector(casing, s)
  {
    for i := 0 to |items|
      invariant forall k :: 0 <= k < i ==> GoodSelector(casing, items[k])
    {
      var good := ValidateSelector(casing, items[i]);
      if !good {
        assert items[i] in items;
        return false;
      }
    }
    ok := true;
  }

  method ValidateLabel(items: seq<Option<Label>>, i: nat, attributes: set<string>, ghost metrics: seq<Option<Metric>>,
                       ghost metricName: string, ghost marks: seq<bool>)
    returns (ok: bool)
    requires i < |items| && forall a :: a in attributes <==> Declares(metrics, metricName, a)
    requires marks == Marks(l => GoodLabel(metrics, metricName, l), items)
    ensures ok == marks[i] && (ok ==> items[i].Some?)
  {
    assert marks[i] == GoodLabel(metrics, metricName, items[i]);
    if items[i].None? {
      return false;
    }
    var name := TrimSpace(items[i].value.name);
    if name == "" || !AttributeName(name) {
      return false;
    }
    ok := TrimSpace(items[i].value.value) != "" && name in attributes;
  }

  method ValidateLabels(items: seq<Option<Label>>, attributes: set<string>, ghost metrics: seq<Option<Metric>>,
                        ghost metricName: string)
    returns (ok: bool)
    requires forall a :: a in attributes <==> Declares(metrics, metricName, a)
    ensures ok == ((forall l <- items :: GoodLabel(metrics, metricName, l)) && Unique(LabelNames(items)))
  {
    var seen := {};
    ghost var keys, marks := LabelNames(items), Marks(l => GoodLabel(metrics, metricName, l), items);
    SeenNone(keys);
    for i := 0 to |items|
      invariant forall k :: 0 <= k < i ==> marks[k]
      invariant Seen(keys, i, seen)
    {
      ok := ValidateLabel(items, i, attributes, metrics, metricName, marks);
      if !ok {
        return;
      }
      ok, seen := AddKey(keys, i, seen, TrimSpace(items[i].value.name));
      if !ok {
        return;
      }
    }
    SeenAll(keys, seen);
    ok := true;
  }

  method ValidateTransform(casing: Casing, item: Option<Transform>, names: set<string>,
                           declared: map<string, set<string>>,
                           ghost metrics: seq<Option<Metric>>) returns (ok: bool)
    requires (forall n :: n in names <==> n in MetricNamesOf(metrics)) && Declared(metrics, declared)
    ensures ok == GoodTransform(casing, metrics, item)
  {
    if item.None? || item.value.source == UNSPECIFIED {
      return false;
    }
    var header := casing.lower(TrimSpace(item.value.headerName));
    if !HeaderName(casing, header) || Sensitive(casing, header) {
      return false;
    }
    var metricName := TrimSpace(item.value.metricName);
    if metricName == "" || metricName !in names || item.value.valueType == UNSPECIFIED {
      return false;
    }
    assert forall a :: Lists(declared, metricName, a) <==> a in declared[metricName];
    ok := ValidateLabels(item.value.labels, declared[metricName], metrics, metricName);
  }

  /** HttpHeaderSource.String(). */
  function SourceName(source: int): string {
    if source == 0 then "HTTP_HEADER_SOURCE_UNSPECIFIED"
    else if source == 1 then "HTTP_HEADER_SOURCE_REQUEST"
    else if source == 2 then "HTTP_HEADER_SOURCE_RESPONSE"
    else Decimal.FormatInt(source)
  }

  /** The text transforms are told apart by. */
  function KeyText(key: (int, string, string)): string { SourceName(key.0) + [NUL] + key.1 + [NUL] + key.2 }

  lemma SourceNameInjective(a: int, b: int)
    ensures NUL !in SourceName(a)
    ensures SourceName(a) == SourceName(b) ==> a == b
  {
    var x, y := if a < 0 then -a else a, if b < 0 then -b else b;
    var dx, dy := Decimal.FormatNat(x), Decimal.FormatNat(y);
    assert dx[0] in dx && dy[0] in dy && Decimal.IsDigit(dx[0]) && Decimal.IsDigit(dy[0]) && NUL !in dx;
    var sx, sy := SourceName(a), SourceName(b);
    assert 0 <= a <= 2 ==> sx[0] == 'H';
    assert 0 <= b <= 2 ==> sy[0] == 'H';
    assert !(0 <= a <= 2) ==> sx[0] != 'H' && (sx[0] == '-' <==> a < 0);
    assert !(0 <= b <= 2) ==> sy[0] != 'H' && (sy[0] == '-' <==> b < 0);
    if sx == sy && !(0 <= a <= 2) {
      assert a < 0 ==> sx[1..] == dx && sy[1..] == dy;
      Decimal.FormatNatInjective(x, y);
    } else if sx == sy {
      assert sx[19..] == sy[19..];
      assert 0 <= b <= 2;
      SourceWords(a, b);
    }
  }

  lemma SourceWords(a: int, b: int)
    requires 0 <= a <= 2 && 0 <= b <= 2 && SourceName(a) == SourceName(b)
    ensures a == b
  {
    assert |SourceName(0)| == 30 && |SourceName(1)| == 26 && |SourceName(2)| == 27;
  }

  /** With headers free of NUL the text tells the keys apart. */
  lemma KeyTextInjective(a: (int, string, string), b: (int, string, string))
    requires NUL !in a.1 && NUL !in b.1 && KeyText(a) == KeyText(b)
    ensures a == b
  {
    SourceNameInjective(a.0, b.0);
    SourceNameInjective(b.0, a.0);
    var sa, sb := SourceName(a.0), SourceName(b.0);
    assert KeyText(a) == sa + [NUL] + (a.1 + [NUL] + a.2) && KeyText(b) == sb + [NUL] + (b.1 + [NUL] + b.2);
    PageTokens.SplitJoined(sa, a.1 + [NUL] + a.2, NUL);
    PageTokens.SplitJoined(sb, b.1 + [NUL] + b.2, NUL);
    PageTokens.SplitJoined(a.1, a.2, NUL);
    PageTokens.SplitJoined(b.1, b.2, NUL);
  }

  function KeyTexts(keys: seq<(int, string, string)>): (texts: seq<string>)
    ensures |texts| == |keys|
  {
    seq(|keys|, i requires 0 <= i < |keys| => KeyText(keys[i]))
  }

  predicate PlainHeaders(keys: seq<(int, string, string)>, n: nat) {
    forall k :: 0 <= k < n && k < |keys| ==> NUL !in keys[k].1
  }

  lemma TextRepeats(keys: seq<(int, string, string)>, i: nat, k: nat)
    requires k < i < |keys| && NUL !in keys[k].1 && NUL !in keys[i].1 && KeyTexts(keys)[k] == KeyTexts(keys)[i]
    ensures !Unique(keys)
  {
    KeyTextInjective(keys[k], keys[i]);
  }

  lemma DistinctTexts(keys: seq<(int, string, string)>)
    requires Unique(KeyTexts(keys))
    ensures Unique(keys)
  {
    var texts := KeyTexts(keys);
    forall i, j | 0 <= i < j < |keys| ensures keys[i] != keys[j] {
      assert texts[i] != texts[j];
    }
  }

  lemma TransformKeyAt(casing: Casing, metrics: seq<Option<Metric>>, items: seq<Option<Transform>>, i: nat)
    requires i < |items| && GoodTransform(casing, metrics, items[i])
    ensures var key := TransformKeys(casing, items)[i];
            && NUL !in key.1
            && KeyTexts(TransformKeys(casing, items))[i] == TransformText(casing, items[i].value)
  {
  }

  function TransformText(casing: Casing, transform: Transform): string {
    KeyText((transform.source, HeaderOf(casing, transform.headerName), TrimSpace(transform.metricName)))
  }

  /** The keys before `i` are told apart by the texts in `seen`. */
  ghost predicate KeysSeen(keys: seq<(int, string, string)>, i: nat, seen: set<string>) {
    PlainHeaders(keys, i) && Seen(KeyTexts(keys), i, seen)
  }

  lemma KeysSeenNext(keys: seq<(int, string, string)>, i: nat, seen: set<string>, text: string)
    requires i < |keys| && KeysSeen(keys, i, seen) && NUL !in keys[i].1 && KeyTexts(keys)[i] == text
    ensures text !in seen ==> KeysSeen(keys, i + 1, seen + {text})
    ensures text in seen ==> !Unique(keys)
  {
    if text in seen {
      var k := SeenAt(KeyTexts(keys), i, seen, text);
      TextRepeats(keys, i, k);
    } else {
      SeenMore(KeyTexts(keys), i, seen, text);
    }
  }

  /** Notes a transform's key; fails if it was seen. */
  method AddTransform(casing: Casing, items: seq<Option<Transform>>, i: nat, seen: set<string>)
    returns (ok: bool, more: set<string>)
    requires i < |items| && items[i].Some? && NUL !in TransformKeys(casing, items)[i].1
    requires KeysSeen(TransformKeys(casing, items), i, seen)
    ensures ok ==> KeysSeen(TransformKeys(casing, items), i + 1, more)
    ensures !ok ==> !Unique(TransformKeys(casing, items))
  {
    var key := TransformText(casing, items[i].value);
    KeysSeenNext(TransformKeys(casing, items), i, seen, key);
    ok, more := key !in seen, seen + {key};
  }

  /** Which transforms are good, one by one. */
  ghost function TransformMarks(casing: Casing, metrics: seq<Option<Metric>>, items: seq<Option<Transform>>)
    : (marks: seq<bool>)
    ensures |marks| == |items|
  {
    seq(|items|, i requires 0 <= i < |items| => GoodTransform(casing, metrics, items[i]))
  }

  lemma AllMarked(casing: Casing, metrics: seq<Option<Metric>>, items: seq<Option<Transform>>)
    ensures (forall t <- items :: GoodTransform(casing, metrics, t))
            <==> forall k :: 0 <= k < |items| ==> TransformMarks(casing, metrics, items)[k]
  {
    var marks := TransformMarks(casing, metrics, items);
    assert forall k :: 0 <= k < |items| ==> marks[k] == GoodTransform(casing, metrics, items[k]) && items[k] in items;
  }

  method CheckTransform(casing: Casing, items: seq<Option<Transform>>, i: nat, names: set<string>,
                        declared: map<string, set<string>>, ghost metrics: seq<Option<Metric>>) returns (ok: bool)
    requires i < |items|
    requires (forall n :: n in names <==> n in MetricNamesOf(metrics)) && Declared(metrics, declared)
    ensures ok == TransformMarks(casing, metrics, items)[i]
    ensures ok ==> items[i].Some? && NUL !in TransformKeys(casing, items)[i].1
  {
    ok := ValidateTransform(casing, items[i], names, declared, metrics);
    assert ok == TransformMarks(casing, metrics, items)[i];
    if ok {
      TransformKeyAt(casing, metrics, items, i);
    }
  }

  /** One transform after the other: well formed, and not one seen before. */
  method NextTransform(casing: Casing, items: seq<Option<Transform>>, i: nat, seen: set<string>, names: set<string>,
                       declared: map<string, set<string>>, ghost metrics: seq<Option<Metric>>,
                       ghost keys: seq<(int, string, string)>)
                         returns (ok: bool, more: set<string>)
    requires keys == TransformKeys(casing, items) && i < |items| && KeysSeen(keys, i, seen)
    requires (forall n :: n in names <==> n in MetricNamesOf(metrics)) && Declared(metrics, declared)
    ensures ok ==> TransformMarks(casing, metrics, items)[i] && KeysSeen(keys, i + 1, more)
    ensures !ok ==> !TransformMarks(casing, metrics, items)[i] || !Unique(keys)
  {
    more := seen;
    ok := CheckTransform(casing, items, i, names, declared, metrics);
    if ok {
      ok, more := AddTransform(casing, items, i, seen);
    }
  }

  lemma KeysAllSeen(keys: seq<(int, string, string)>, seen: set<string>)
    requires KeysSeen(keys, |keys|, seen)
    ensures Unique(keys)
  {
    SeenAll(KeyTexts(keys), seen);
    DistinctTexts(keys);
  }

  lemma NoKeysSeen(keys: seq<(int, string, string)>)
    ensures KeysSeen(keys, 0, {})
  {
    SeenNone(KeyTexts(keys));
  }

  method ValidateTransforms(casing: Casing, items: seq<Option<Transform>>, names: set<string>,
                            declared: map<string, set<string>>,
                            ghost metrics: seq<Option<Metric>>) returns (ok: bool)
    requires (forall n :: n in names <==> n in MetricNamesOf(metrics)) && Declared(metrics, declared)
    ensures ok == ((forall t <- items :: GoodTransform(casing, metrics, t)) && Unique(TransformKeys(casing, items)))
  {
    var seen := {};
    ghost var keys, marks := TransformKeys(casing, items), TransformMarks(casing, metrics, items);
    NoKeysSeen(keys);
    AllMarked(casing, metrics, items);
    for i := 0 to |items|
      invariant forall k :: 0 <= k < i ==> marks[k]
      invariant KeysSeen(keys, i, seen)
    {
      ok, seen := NextTransform(casing, items, i, seen, names, declared, metrics, keys);
      if !ok {
        return;
      }
    }
    KeysAllSeen(keys, seen);
    ok := true;
  }

  method ValidateRedaction(casing: Casing, r: Redaction) returns (ok: bool)
    ensures ok == GoodRedaction(casing, r)
  {
    if !r.dropRawHeaders {
      return false;
    }
    var all := r.hashHeaders + r.redactHeaders;
    var seen := {};
    ghost var keys := Headers(casing, r);
    SeenNone(keys);
    for i := 0 to |all|
      invariant forall k :: 0 <= k < i ==> HeaderName(casing, keys[k])
      invariant Seen(keys, i, seen)
    {
      var header := casing.lower(TrimSpace(all[i]));
      assert header == keys[i] && keys[i] in keys;
      assert keys[i] == header;
      if !HeaderName(casing, header) || header in seen {
        if header in seen {
          SeenAgain(keys, i, seen, header);
        }
        return false;
      }
      SeenMore(keys, i, seen, header);
      seen := seen + {header};
    }
    SeenAll(keys, seen);
    ok := true;
  }

  method ValidatePassiveHttp(casing: Casing, http: PassiveHttp, names: set<string>, declared: map<string, set<string>>,
                             ghost metrics: seq<Option<Metric>>) returns (ok: bool)
    requires (forall n :: n in names <==> n in MetricNamesOf(metrics)) && Declared(metrics, declared)
    ensures ok == GoodPassiveHttp(casing, metrics, http)
  {
    if http.capturePoint == UNSPECIFIED || http.transforms == [] {
      return false;
    }
    ok := ValidateSelectors(casing, http.selectors);
    if !ok {
      return;
    }
    ok := ValidateTransforms(casing, http.transforms, names, declared, metrics);
    if !ok {
      return;
    }
    if http.redaction.None? {
      return false;
    }
    ok := ValidateRedaction(casing, http.redaction.value);
  }

  // ---------------------------------------------------------------- profiles

  method ValidateProfile(casing: Casing, item: Option<Profile>) returns (ok: bool)
    ensures ok == GoodProfile(casing, item)
  {
    if item.None? || TrimSpace(item.value.profileID) == "" || TrimSpace(item.value.displayName) == "" {
      return false;
    }
    var profile := item.value;
    var names, declared;
    ok, names, declared := ValidateMetrics(profile.metrics);
    if !ok {
      return;
    }
    match profile.collection {
      case NoCollection => ok := false;
      case Active(query) => ok := ValidateActiveQuery(casing, query);
      case Passive(http) => ok := ValidatePassiveHttp(casing, http, names, declared, profile.metrics);
    }
    if !ok {
      return;
    }
    var queryIDs;
    ok, queryIDs := ValidateQueries(profile.queries, names, profile.metrics);
    if !ok || profile.availability.None? {
      return;
    }
    ok := ValidateAvailability(profile.availability.value, queryIDs, QueryIDs(profile.queries));
  }

  /** One profile after the other: it has an id that was not seen before, and is well formed. */
  method NextProfile(casing: Casing, items: seq<Option<Profile>>, i: nat, seen: set<string>, ghost marks: seq<bool>)
    returns (ok: bool, more: set<string>)
    requires i < |items| && Seen(ProfileIDs(items), i, seen)
    requires marks == Marks(p => GoodProfile(casing, p), items)
    ensures ok ==> marks[i] && Seen(ProfileIDs(items), i + 1, more)
    ensures !ok ==> !marks[i] || !Unique(ProfileIDs(items))
  {
    more := seen;
    assert marks[i] == GoodProfile(casing, items[i]);
    if items[i].None? {
      return false, more;
    }
    var id := TrimSpace(items[i].value.profileID);
    if id == "" {
      return false, more;
    }
    ok, more := AddKey(ProfileIDs(items), i, seen, id);
    if ok {
      ok := ValidateProfile(casing, items[i]);
    }
  }

  method ValidateCapability(casing: Casing, profiles: Option<seq<Option<Profile>>>) returns (ok: bool)
    ensures ok == GoodCapability(casing, profiles)
  {
    if profiles.None? {
      return false;
    }
    var items := profiles.value;
    var seen := {};
    ghost var marks := Marks(p => GoodProfile(casing, p), items);
    SeenNone(ProfileIDs(items));
    for i := 0 to |items|
      invariant forall k :: 0 <= k < i ==> marks[k]
      invariant Seen(ProfileIDs(items), i, seen)
    {
      ok, seen := NextProfile(casing, items, i, seen, marks);
      if !ok {
        return;
      }
    }
    SeenAll(ProfileIDs(items), seen);
    ok := true;
  }

  // ---------------------------------------------------------------- what acceptance means

  /** A query of the profile whose metrics are all declared. */
  predicate Resolves(profile: Profile, queryID: string) {
    exists q <- profile.queries :: q.Some? && TrimSpace(q.value.queryID) == queryID && q.value.metricNames != []
      && forall n <- q.value.metricNames ::
           exists m <- profile.metrics :: m.Some? && TrimSpace(m.value.name) == TrimSpace(n)
  }

  lemma NamedQuery(items: seq<Option<Query>>, id: string) returns (q: Option<Query>)
    requires id in QueryIDs(items) && forall q <- items :: q.Some?
    ensures q in items && q.Some? && TrimSpace(q.value.queryID) == id
  {
    var k :| 0 <= k < |items| && QueryIDs(items)[k] == id;
    q := items[k];
  }

  lemma QueryResolves(casing: Casing, profile: Profile, id: string)
    requires GoodProfile(casing, Some(profile)) && id in QueryIDs(profile.queries)
    ensures Resolves(profile, id)
  {
    assert forall q <- profile.queries :: GoodQuery(profile.metrics, q);
    var q := NamedQuery(profile.queries, id);
    forall n <- q.value.metricNames
      ensures exists m <- profile.metrics :: m.Some? && TrimSpace(m.value.name) == TrimSpace(n) {
      var k :| 0 <= k < |profile.metrics| && MetricNamesOf(profile.metrics)[k] == TrimSpace(n);
      assert GoodMetric(profile.metrics[k]);
    }
  }

  /** Every comparison of an accepted availability judgment reaches declared metrics through a query. */
  lemma AvailabilityResolves(casing: Casing, profile: Profile, rule: Option<Rule>, comparison: Option<Comparison>)
    requires GoodProfile(casing, Some(profile)) && profile.availability.Some?
    requires rule in profile.availability.value.rules && rule.Some? && comparison in rule.value.allOf
    ensures comparison.Some? && Resolves(profile, TrimSpace(comparison.value.queryID))
  {
    assert GoodRule(QueryIDs(profile.queries), rule);
    assert GoodComparison(QueryIDs(profile.queries), comparison);
    QueryResolves(casing, profile, TrimSpace(comparison.value.queryID));
  }

  /** Every label of an accepted transform is declared by the one metric the transform feeds. */
  lemma LabelsAreDeclared(casing: Casing, profile: Profile, transform: Option<Transform>, item: Option<Label>)
    returns (metric: Metric)
    requires GoodProfile(casing, Some(profile)) && profile.collection.Passive?
    requires transform in profile.collection.http.transforms && transform.Some? && item in transform.value.labels
    ensures item.Some? && Some(metric) in profile.metrics
            && TrimSpace(metric.name) == TrimSpace(transform.value.metricName)
    ensures TrimSpace(item.value.name) in AttributeNames(metric.attributes)
    ensures forall m <- profile.metrics ::
              m.Some? && TrimSpace(m.value.name) == TrimSpace(transform.value.metricName) ==> m.value == metric
  {
    assert GoodTransform(casing, profile.metrics, transform);
    assert GoodLabel(profile.metrics, TrimSpace(transform.value.metricName), item);
    var m :| m in profile.metrics && m.Some? && TrimSpace(m.value.name) == TrimSpace(transform.value.metricName)
             && TrimSpace(item.value.name) in AttributeNames(m.value.attributes);
    metric := m.value;
    OneMetricPerName(profile.metrics, m);
  }

  lemma OneMetricPerName(metrics: seq<Option<Metric>>, m: Option<Metric>)
    requires Unique(MetricNamesOf(metrics)) && m in metrics && m.Some?
    ensures forall other <- metrics :: other.Some? && TrimSpace(other.value.name) == TrimSpace(m.value.name) ==>
              other == m
  {
    forall other <- metrics | other.Some? && TrimSpace(other.value.name) == TrimSpace(m.value.name) ensures other == m {
      var i :| 0 <= i < |metrics| && metrics[i] == m;
      var j :| 0 <= j < |metrics| && metrics[j] == other;
      assert MetricNamesOf(metrics)[i] == MetricNamesOf(metrics)[j];
    }
  }
}
