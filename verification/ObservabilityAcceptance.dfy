/** What a consumer of an accepted capability may rely on, and capabilities that are accepted. */
module ObservabilityAcceptance {
  import opened Text
  import opened MetricRules
  import opened Observability

  predicate IsProfileOf(casing: Casing, profiles: Option<seq<Option<Profile>>>, profile: Profile) {
    GoodCapability(casing, profiles) && Some(profile) in profiles.value
  }

  // ---------------------------------------------------------------- passive capture

  lemma HeaderIsTrimmed(value: string)
    requires HeaderPattern(value)
    ensures TrimSpace(value) == value
  {
    TrimSpaceTrims(value);
    assert value[0] in value && value[|value| - 1] in value;
  }

  /**
   * An accepted capture drops the raw headers and measures none that carries
   * a credential, however it is written.
   */
  lemma NoCredentialIsMeasured(casing: Casing, profiles: Option<seq<Option<Profile>>>, profile: Profile,
                               transform: Option<Transform>)
    requires IsProfileOf(casing, profiles, profile) && profile.collection.Passive?
    requires transform in profile.collection.http.transforms
    ensures profile.collection.http.redaction.Some? && profile.collection.http.redaction.value.dropRawHeaders
    ensures transform.Some?
    ensures casing.lower(TrimSpace(transform.value.headerName))
            !in {"authorization", "cookie", "proxy-authorization", "set-cookie", "x-api-key"}
  {
    assert GoodProfile(casing, Some(profile));
    assert GoodTransform(casing, profile.metrics, transform);
    HeaderIsTrimmed(HeaderOf(casing, transform.value.headerName));
  }

  /** Nothing is measured twice: of two transforms the source, the header or the metric differs. */
  lemma TransformsDiffer(casing: Casing, profiles: Option<seq<Option<Profile>>>, profile: Profile, i: nat, j: nat)
    requires IsProfileOf(casing, profiles, profile) && profile.collection.Passive?
    requires i < j < |profile.collection.http.transforms|
    ensures var transforms := profile.collection.http.transforms;
            && transforms[i].Some? && transforms[j].Some?
            && var a, b := transforms[i].value, transforms[j].value;
               || a.source != b.source
               || casing.lower(TrimSpace(a.headerName)) != casing.lower(TrimSpace(b.headerName))
               || TrimSpace(a.metricName) != TrimSpace(b.metricName)
  {
    var transforms := profile.collection.http.transforms;
    assert GoodProfile(casing, Some(profile));
    assert GoodTransform(casing, profile.metrics, transforms[i])
           && GoodTransform(casing, profile.metrics, transforms[j]);
    assert TransformKeys(casing, transforms)[i] != TransformKeys(casing, transforms)[j];
  }

  /** A header is hashed or blanked, once. */
  lemma RedactedOnce(casing: Casing, profiles: Option<seq<Option<Profile>>>, profile: Profile, redaction: Redaction,
                     i: nat, j: nat)
    requires IsProfileOf(casing, profiles, profile) && profile.collection.Passive?
    requires profile.collection.http.redaction == Some(redaction)
    requires i < |redaction.hashHeaders| && j < |redaction.redactHeaders|
    ensures casing.lower(TrimSpace(redaction.hashHeaders[i])) != casing.lower(TrimSpace(redaction.redactHeaders[j]))
  {
    assert GoodProfile(casing, Some(profile));
    var headers, n := Headers(casing, redaction), |redaction.hashHeaders|;
    assert headers[i] != headers[n + j];
  }

  // ---------------------------------------------------------------- active queries

  /** An accepted form keeps no default of a sensitive field. */
  lemma SecretsHaveNoDefault(casing: Casing, profiles: Option<seq<Option<Profile>>>, profile: Profile, form: Form,
                             field: Option<Field>)
    requires IsProfileOf(casing, profiles, profile) && profile.collection.Active?
    requires profile.collection.query.form == Some(form) && field in form.fields
    ensures field.Some? && (field.value.sensitive ==> TrimSpace(field.value.defaultValue) == "")
  {
    assert GoodProfile(casing, Some(profile));
    assert GoodField(field);
  }

  /** What a transient field turns into is one field of the form that is stored, and only one. */
  lemma TransientsAreStored(casing: Casing, profiles: Option<seq<Option<Profile>>>, profile: Profile, form: Form,
                            field: Option<Field>) returns (i: nat)
    requires IsProfileOf(casing, profiles, profile) && profile.collection.Active?
    requires profile.collection.query.form == Some(form) && field in form.fields
    requires field.Some? && field.value.persistence == 2
    ensures i < |form.fields| && form.fields[i].Some? && form.fields[i].value.persistence == 1
    ensures TrimSpace(form.fields[i].value.fieldID) == TrimSpace(field.value.targetFieldID)
    ensures forall j :: 0 <= j < |form.fields| && j != i && form.fields[j].Some? ==>
              TrimSpace(form.fields[j].value.fieldID) != TrimSpace(field.value.targetFieldID)
  {
    assert GoodProfile(casing, Some(profile));
    assert IsStored(form.fields, TrimSpace(field.value.targetFieldID));
    i :| 0 <= i < |form.fields| && form.fields[i].Some? && form.fields[i].value.persistence == STORED
         && TrimSpace(form.fields[i].value.fieldID) == TrimSpace(field.value.targetFieldID);
    var ids := FieldIDs(form.fields);
    forall j | 0 <= j < |form.fields| && j != i && form.fields[j].Some?
      ensures TrimSpace(form.fields[j].value.fieldID) != TrimSpace(field.value.targetFieldID)
    {
      assert ids[i] != ids[j];
    }
  }

  /** No two backfill rules of an accepted query write the same key or go by the same id. */
  lemma BackfillsDiffer(casing: Casing, profiles: Option<seq<Option<Profile>>>, profile: Profile, i: nat, j: nat)
    requires IsProfileOf(casing, profiles, profile) && profile.collection.Active?
    requires i < j < |profile.collection.query.backfills|
    ensures var rules := profile.collection.query.backfills;
            && rules[i].Some? && rules[j].Some?
            && TrimSpace(rules[i].value.targetKey) != TrimSpace(rules[j].value.targetKey)
            && TrimSpace(rules[i].value.ruleID) != TrimSpace(rules[j].value.ruleID)
  {
    var rules := profile.collection.query.backfills;
    assert GoodProfile(casing, Some(profile));
    assert GoodBackfill(casing, rules[i]) && GoodBackfill(casing, rules[j]);
    assert BackfillTargets(rules)[i] != BackfillTargets(rules)[j] && BackfillIDs(rules)[i] != BackfillIDs(rules)[j];
  }

  /** An accepted query is repeated after some time that passes. */
  lemma IntervalPasses(casing: Casing, profiles: Option<seq<Option<Profile>>>, profile: Profile)
    requires IsProfileOf(casing, profiles, profile) && profile.collection.Active?
    ensures profile.collection.query.interval.Some?
    ensures var interval := profile.collection.query.interval.value;
            interval.seconds * 1_000_000_000 + interval.nanos > 0
  {
    assert GoodProfile(casing, Some(profile));
  }

  // ---------------------------------------------------------------- profiles and metrics

  /** Profiles, and the metrics of a profile, go by different names. */
  lemma NamesDiffer(casing: Casing, profiles: Option<seq<Option<Profile>>>, a: Profile, b: Profile)
    requires IsProfileOf(casing, profiles, a) && IsProfileOf(casing, profiles, b)
    ensures TrimSpace(a.profileID) == TrimSpace(b.profileID) ==> a == b
    ensures forall i, j :: 0 <= i < j < |a.metrics| && a.metrics[i].Some? && a.metrics[j].Some? ==>
              TrimSpace(a.metrics[i].value.name) != TrimSpace(a.metrics[j].value.name)
  {
    var items := profiles.value;
    var i :| 0 <= i < |items| && items[i] == Some(a);
    var j :| 0 <= j < |items| && items[j] == Some(b);
    assert ProfileIDs(items)[i] == TrimSpace(a.profileID) && ProfileIDs(items)[j] == TrimSpace(b.profileID);
    assert GoodProfile(casing, Some(a));
    forall i, j | 0 <= i < j < |a.metrics| && a.metrics[i].Some? && a.metrics[j].Some?
      ensures TrimSpace(a.metrics[i].value.name) != TrimSpace(a.metrics[j].value.name)
    {
      assert MetricNamesOf(a.metrics)[i] != MetricNamesOf(a.metrics)[j];
    }
  }

  /** What is counted says so by its suffix, what is timed by its unit, and nothing else does. */
  lemma SuffixTellsKind(casing: Casing, profiles: Option<seq<Option<Profile>>>, profile: Profile,
                        metric: Option<Metric>)
    requires IsProfileOf(casing, profiles, profile) && metric in profile.metrics
    ensures metric.Some?
    ensures var name := TrimSpace(metric.value.name);
            && (metric.value.kind == 2
                <==> HasSuffix(name, ".total") || (HasSuffix(name, "_total") && !SemanticPattern(name)))
            && (TrimSpace(metric.value.unit) == "s" ==> HasSuffix(name, ".seconds") || HasSuffix(name, "_seconds"))
  {
    assert GoodProfile(casing, Some(profile));
    assert GoodMetric(metric);
    var name := TrimSpace(metric.value.name);
    SecondsSuffix(name);
    DottedSuffix(name);
  }

  lemma SecondsSuffix(name: string)
    ensures HasSuffix(name, ".timestamp.seconds") ==> HasSuffix(name, ".seconds")
    ensures HasSuffix(name, "_timestamp_seconds") ==> HasSuffix(name, "_seconds")
  {
    var dotted, plain := ".timestamp.seconds", "_timestamp_seconds";
    assert dotted[10..] == ".seconds" && plain[10..] == "_seconds";
    if HasSuffix(name, dotted) {
      assert name[|name| - 18..][10..] == name[|name| - 8..];
    }
    if HasSuffix(name, plain) {
      assert name[|name| - 18..][10..] == name[|name| - 8..];
    }
  }

  /** A Prometheus name has no dotted suffix. */
  lemma DottedSuffix(name: string)
    requires PromPattern(name) || SemanticPattern(name)
    ensures HasSuffix(name, ".total") ==> SemanticPattern(name)
  {
    if HasSuffix(name, ".total") {
      assert name[|name| - 6..][0] == '.';
      assert name[|name| - 6] == '.';
    }
  }

  // ---------------------------------------------------------------- accepted capabilities

  const GAUGE := Metric("a.b", "a", "", 1, 1, [Some(Attribute("a", "a", 1))])

  const JUDGMENT := Availability(1, "a", ["a"], [Some(Rule("a", "a", [Some(Comparison("a", 1))], 1))])

  const MEASURE := Transform(1, "a", "a.b", 1, [Some(Label("a", "a"))])

  const CAPTURE := PassiveHttp(1, [], [Some(MEASURE)], Some(Redaction(true, [], [])))

  const COUNT := Query("a", "a", 1, "a", ["a.b"], 1)

  /** One stored secret, and one transient field that turns into it. */
  const SECRET_FORM := Form("a", "a", "a", [Some(Field("a", "a", 1, true, true, "", 1, "", 1)),
                                            Some(Field("b", "a", 1, true, false, "", 2, "a", 2))])

  const POLLING := ActiveQuery(Some(Duration(1, 0)), "", [], [], [], Some(SECRET_FORM))

  function Judged(profileID: string, collection: Collection): Profile {
    Profile(profileID, "a", [Some(GAUGE)], collection, [Some(COUNT)], Some(JUDGMENT))
  }

  lemma TextsTrim()
    ensures TrimSpace("a") == "a" && TrimSpace("b") == "b" && TrimSpace("a.b") == "a.b" && TrimSpace("") == ""
  {
    TrimSpaceTrims("a");
    TrimSpaceTrims("b");
    TrimSpaceTrims("a.b");
  }

  lemma GaugeIsGood()
    ensures GoodMetrics([Some(GAUGE)]) && MetricNamesOf([Some(GAUGE)]) == ["a.b"]
    ensures Declares([Some(GAUGE)], "a.b", "a")
  {
    TextsTrim();
    var name := "a.b";
    assert name[1] == '.' && name[2] == 'b';
    assert AttributeNames(GAUGE.attributes) == ["a"];
    assert Some(GAUGE) in [Some(GAUGE)];
  }

  lemma JudgmentIsGood()
    ensures GoodAvailability(["a"], JUDGMENT)
  {
    TextsTrim();
  }

  lemma QueriesAreGood()
    ensures GoodQuery([Some(GAUGE)], Some(COUNT)) && QueryIDs([Some(COUNT)]) == ["a"]
  {
    TextsTrim();
    GaugeIsGood();
  }

  lemma MeasureIsGood(casing: Casing)
    requires casing.lower("a") == "a"
    ensures GoodTransform(casing, [Some(GAUGE)], Some(MEASURE))
  {
    TextsTrim();
    GaugeIsGood();
    assert HeaderOf(casing, "a") == "a" && HeaderName(casing, "a");
    assert "a" !in SENSITIVE_HEADERS;
    assert GoodLabel([Some(GAUGE)], "a.b", MEASURE.labels[0]);
  }

  lemma CaptureIsGood(casing: Casing)
    requires casing.lower("a") == "a"
    ensures GoodPassiveHttp(casing, [Some(GAUGE)], CAPTURE)
  {
    MeasureIsGood(casing);
  }

  lemma PollingIsGood(casing: Casing)
    ensures GoodActiveQuery(casing, POLLING)
  {
    TextsTrim();
    var fields := SECRET_FORM.fields;
    assert GoodField(fields[0]) && GoodField(fields[1]);
    assert FieldIDs(fields) == ["a", "b"];
    assert fields[0] in fields;
  }

  lemma ProfileFromParts(casing: Casing, profile: Profile, query: Query, availability: Availability)
    requires !Blank(profile.profileID) && !Blank(profile.displayName) && GoodMetrics(profile.metrics)
    requires GoodCollection(casing, profile.metrics, profile.collection)
    requires profile.queries == [Some(query)] && GoodQuery(profile.metrics, Some(query))
    requires profile.availability == Some(availability) && GoodAvailability(QueryIDs(profile.queries), availability)
    ensures GoodProfile(casing, Some(profile))
  {
  }

  lemma JudgedIsGood(casing: Casing, profileID: string, collection: Collection)
    requires TrimSpace(profileID) != "" && GoodCollection(casing, [Some(GAUGE)], collection)
    ensures GoodProfile(casing, Some(Judged(profileID, collection)))
  {
    TextsTrim();
    GaugeIsGood();
    QueriesAreGood();
    JudgmentIsGood();
    ProfileFromParts(casing, Judged(profileID, collection), COUNT, JUDGMENT);
  }

  lemma ProfilesDiffer()
    ensures ProfileIDs([Some(Judged("a", Passive(CAPTURE))), Some(Judged("b", Active(POLLING)))]) == ["a", "b"]
  {
    TextsTrim();
  }

  /** A capability with a profile of either kind is accepted, so all of the above is about something. */
  lemma SomeAreAccepted(casing: Casing)
    requires casing.lower("a") == "a"
    ensures GoodCapability(casing, Some([Some(Judged("a", Passive(CAPTURE))), Some(Judged("b", Active(POLLING)))]))
  {
    TextsTrim();
    CaptureIsGood(casing);
    PollingIsGood(casing);
    JudgedIsGood(casing, "a", Passive(CAPTURE));
    JudgedIsGood(casing, "b", Active(POLLING));
    ProfilesDiffer();
  }
}
