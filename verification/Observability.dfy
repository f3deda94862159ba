/** Observability contracts, and what makes one well formed. */
module Observability {
  import opened Text
  import opened MetricRules

  // ---------------------------------------------------------------- contracts

  datatype Attribute = Attribute(name: string, description: string, requirement: int)

  datatype Metric = Metric(
    name: string, description: string, unit: string, kind: int, category: int, attributes: seq<Option<Attribute>>)

  datatype Duration = Duration(seconds: int, nanos: int)

  datatype Parameter = Parameter(parameterID: string, displayName: string)

  datatype Backfill = Backfill(ruleID: string, source: int, sourceName: string, targetKey: string)

  datatype Field = Field(
    fieldID: string, caption: string, control: int, sensitive: bool, required: bool, defaultValue: string,
    persistence: int, targetFieldID: string, transform: int)

  datatype Form = Form(schemaID: string, title: string, actionCaption: string, fields: seq<Option<Field>>)

  datatype ActiveQuery = ActiveQuery(
    interval: Option<Duration>, collectorID: string, parameters: seq<Option<Parameter>>,
    backfills: seq<Option<Backfill>>, materialFields: seq<string>, form: Option<Form>)

  datatype Selector = Selector(methods: seq<string>, pathPrefixes: seq<string>, statusCodes: seq<int>,
                               hostnames: seq<string>)

  datatype Label = Label(name: string, value: string)

  datatype Transform = Transform(source: int, headerName: string, metricName: string, valueType: int,
                                 labels: seq<Option<Label>>)

  datatype Redaction = Redaction(dropRawHeaders: bool, hashHeaders: seq<string>, redactHeaders: seq<string>)

  datatype PassiveHttp = PassiveHttp(
    capturePoint: int, selectors: seq<Option<Selector>>, transforms: seq<Option<Transform>>,
      redaction: Option<Redaction>)

  datatype Collection = NoCollection | Active(query: ActiveQuery) | Passive(http: PassiveHttp)

  datatype Query = Query(
    queryID: string, displayName: string, language: int, statement: string, metricNames: seq<string>, resultKind: int)

  datatype Comparison = Comparison(queryID: string, operator: int)

  datatype Rule = Rule(ruleID: string, displayName: string, allOf: seq<Option<Comparison>>, state: int)

  datatype Availability = Availability(subjectKind: int, subjectKey: string, queryIDs: seq<string>,
                                       rules: seq<Option<Rule>>)

  datatype Profile = Profile(
    profileID: string, displayName: string, metrics: seq<Option<Metric>>, collection: Collection,
    queries: seq<Option<Query>>, availability: Option<Availability>)

  /** strings.ToLower and strings.ToUpper. */
  datatype Casing = Casing(lower: string -> string, upper: string -> string)

  const UNSPECIFIED := 0
  const STORED := 1
  const TRANSIENT := 2
  const IDENTITY := 1
  const RESPONSE_HEADER := 2

  // ---------------------------------------------------------------- text rules

  predicate Blank(s: string) { TrimSpace(s) == "" }

  /** ^[a-z][a-z0-9_-]*$ */
  predicate CollectorID(s: string) { s != "" && Lower(s[0]) && forall c <- s :: Word(c) || c == '-' }

  /** ^[a-z][a-z0-9_]*$ */
  predicate MaterialKey(s: string) { s != "" && Lower(s[0]) && forall c <- s :: Word(c) }

  /** ^[a-z0-9][a-z0-9!#$%&'*+.^_`|~-]*$ */
  predicate HeaderPattern(s: string) {
    && s != "" && (Lower(s[0]) || Numeric(s[0]))
    && forall c <- s :: Word(c) || c in {'!', '#', '$', '%', '&', '\'', '*', '+', '.', '^', '`', '|', '~', '-'}
  }

  predicate UnitChar(c: char) { Lower(c) || 'A' <= c <= 'Z' || Numeric(c) || c in {'.', '/', '%', '-'} }

  /** ^(1|%|[a-zA-Z][a-zA-Z0-9./%-]*|\{[a-z][a-z0-9_.-]*\})$ */
  predicate UnitPattern(s: string) {
    || s == "1" || s == "%"
    || (s != "" && (Lower(s[0]) || 'A' <= s[0] <= 'Z') && forall c <- s :: UnitChar(c))
    || (|s| >= 3 && s[0] == '{' && s[|s| - 1] == '}' && Lower(s[1])
        && forall i :: 0 < i < |s| - 1 ==> Word(s[i]) || s[i] == '.' || s[i] == '-')
  }

  predicate HeaderName(casing: Casing, value: string) { value == casing.lower(value) && HeaderPattern(value) }

  const SENSITIVE_HEADERS := {"authorization", "cookie", "proxy-authorization", "set-cookie", "x-api-key"}

  predicate Sensitive(casing: Casing, value: string) { casing.lower(TrimSpace(value)) in SENSITIVE_HEADERS }

  predicate HasSpace(s: string) { exists c <- s :: c in {' ', '\t', '\r', '\n'} }

  predicate Positive(d: Option<Duration>) {
    && d.Some? && -315576000000 <= d.value.seconds <= 315576000000 && -1_000_000_000 < d.value.nanos < 1_000_000_000
    && !(d.value.seconds > 0 && d.value.nanos < 0) && !(d.value.seconds < 0 && d.value.nanos > 0)
    && (d.value.seconds > 0 || (d.value.seconds == 0 && d.value.nanos > 0))
  }

  predicate Unique<T(==)>(keys: seq<T>) { forall i, j :: 0 <= i < j < |keys| ==> keys[i] != keys[j] }

  // ---------------------------------------------------------------- metrics

  function AttributeNames(items: seq<Option<Attribute>>): (keys: seq<string>)
    ensures |keys| == |items|
  {
    seq(|items|, i requires 0 <= i < |items| => if items[i].Some? then TrimSpace(items[i].value.name) else "")
  }

  predicate GoodAttribute(item: Option<Attribute>) {
    && item.Some? && AttributeName(TrimSpace(item.value.name))
    && !Blank(item.value.description) && item.value.requirement != UNSPECIFIED
  }

  predicate GoodMetric(item: Option<Metric>) {
    && item.Some?
    && MetricNameOk(TrimSpace(item.value.name), TrimSpace(item.value.unit), item.value.kind)
    && !Blank(item.value.description) && (Blank(item.value.unit) || UnitPattern(TrimSpace(item.value.unit)))
    && item.value.kind != UNSPECIFIED && item.value.category != UNSPECIFIED
    && (forall a <- item.value.attributes :: GoodAttribute(a)) && Unique(AttributeNames(item.value.attributes))
  }

  function MetricNamesOf(items: seq<Option<Metric>>): (keys: seq<string>)
    ensures |keys| == |items|
  {
    seq(|items|, i requires 0 <= i < |items| => if items[i].Some? then TrimSpace(items[i].value.name) else "")
  }

  predicate GoodMetrics(items: seq<Option<Metric>>) {
    items != [] && (forall m <- items :: GoodMetric(m)) && Unique(MetricNamesOf(items))
  }

  /** A label name a metric declares. */
  predicate Declares(metrics: seq<Option<Metric>>, metricName: string, attributeName: string) {
    exists m <- metrics :: m.Some? && TrimSpace(m.value.name) == metricName
        && attributeName in AttributeNames(m.value.attributes)
  }

  // ---------------------------------------------------------------- active queries

  function ParameterIDs(items: seq<Option<Parameter>>): (keys: seq<string>)
    ensures |keys| == |items|
  {
    seq(|items|, i requires 0 <= i < |items| => if items[i].Some? then TrimSpace(items[i].value.parameterID) else "")
  }

  predicate GoodParameter(item: Option<Parameter>) {
    item.Some? && !Blank(item.value.parameterID) && !Blank(item.value.displayName)
  }

  predicate GoodBackfill(casing: Casing, item: Option<Backfill>) {
    && item.Some? && CollectorID(TrimSpace(item.value.ruleID)) && item.value.source != UNSPECIFIED
    && !Blank(item.value.sourceName) && !HasSpace(TrimSpace(item.value.sourceName))
    && (item.value.source == RESPONSE_HEADER ==> HeaderName(casing, TrimSpace(item.value.sourceName)))
    && MaterialKey(TrimSpace(item.value.targetKey))
  }

  function BackfillIDs(items: seq<Option<Backfill>>): (keys: seq<string>)
    ensures |keys| == |items|
  {
    seq(|items|, i requires 0 <= i < |items| => if items[i].Some? then TrimSpace(items[i].value.ruleID) else "")
  }

  function BackfillTargets(items: seq<Option<Backfill>>): (keys: seq<string>)
    ensures |keys| == |items|
  {
    seq(|items|, i requires 0 <= i < |items| => if items[i].Some? then TrimSpace(items[i].value.targetKey) else "")
  }

  predicate GoodBackfills(casing: Casing, items: seq<Option<Backfill>>) {
    (forall b <- items :: GoodBackfill(casing, b)) && Unique(BackfillIDs(items)) && Unique(BackfillTargets(items))
  }

  function Trims(items: seq<string>): (keys: seq<string>)
    ensures |keys| == |items|
  {
    seq(|items|, i requires 0 <= i < |items| => TrimSpace(items[i]))
  }

  predicate GoodMaterialFields(items: seq<string>) {
    (forall f <- Trims(items) :: MaterialKey(f)) && Unique(Trims(items))
  }

  function FieldIDs(items: seq<Option<Field>>): (keys: seq<string>)
    ensures |keys| == |items|
  {
    seq(|items|, i requires 0 <= i < |items| => if items[i].Some? then TrimSpace(items[i].value.fieldID) else "")
  }

  predicate GoodStored(f: Field) { Blank(f.targetFieldID) && (f.transform == UNSPECIFIED || f.transform == IDENTITY) }

  predicate GoodTransient(f: Field) {
    !f.required && MaterialKey(TrimSpace(f.targetFieldID)) && f.transform != UNSPECIFIED && f.transform != IDENTITY
  }

  predicate GoodField(item: Option<Field>) {
    && item.Some? && MaterialKey(TrimSpace(item.value.fieldID)) && !Blank(item.value.caption)
    && item.value.control != UNSPECIFIED
    && (item.value.sensitive ==> Blank(item.value.defaultValue))
    && ((item.value.persistence == STORED && GoodStored(item.value))
        || (item.value.persistence == TRANSIENT && GoodTransient(item.value)))
  }

  predicate IsStored(fields: seq<Option<Field>>, id: string) {
    exists f <- fields :: f.Some? && f.value.persistence == STORED && TrimSpace(f.value.fieldID) == id
  }

  /** Every transient field names a stored field, before or after it in the form. */
  predicate TargetsStored(fields: seq<Option<Field>>) {
    forall f <- fields :: f.Some? && f.value.persistence == TRANSIENT ==>
        IsStored(fields, TrimSpace(f.value.targetFieldID))
  }

  predicate GoodForm(form: Form) {
    && CollectorID(TrimSpace(form.schemaID)) && !Blank(form.title) && !Blank(form.actionCaption) && form.fields != []
    && (forall f <- form.fields :: GoodField(f)) && Unique(FieldIDs(form.fields)) && TargetsStored(form.fields)
  }

  predicate GoodActiveQuery(casing: Casing, q: ActiveQuery) {
    && Positive(q.interval) && (q.collectorID != "" ==> CollectorID(TrimSpace(q.collectorID)))
    && (forall p <- q.parameters :: GoodParameter(p)) && Unique(ParameterIDs(q.parameters))
    && GoodBackfills(casing, q.backfills) && GoodMaterialFields(q.materialFields)
    && (q.form.Some? ==> GoodForm(q.form.value))
  }

  // ---------------------------------------------------------------- passive telemetry

  predicate GoodSelector(casing: Casing, item: Option<Selector>) {
    && item.Some?
    && (forall m <- item.value.methods :: !Blank(m) && TrimSpace(m) == casing.upper(TrimSpace(m)))
    && (forall p <- item.value.pathPrefixes :: !Blank(p) && TrimSpace(p)[0] == '/')
    && (forall s <- item.value.statusCodes :: 100 <= s <= 599)
    && (forall h <- item.value.hostnames :: !Blank(h))
  }

  function LabelNames(items: seq<Option<Label>>): (keys: seq<string>)
    ensures |keys| == |items|
  {
    seq(|items|, i requires 0 <= i < |items| => if items[i].Some? then TrimSpace(items[i].value.name) else "")
  }

  predicate GoodLabel(metrics: seq<Option<Metric>>, metricName: string, item: Option<Label>) {
    && item.Some? && AttributeName(TrimSpace(item.value.name)) && !Blank(item.value.value)
    && Declares(metrics, metricName, TrimSpace(item.value.name))
  }

  function HeaderOf(casing: Casing, raw: string): string { casing.lower(TrimSpace(raw)) }

  predicate GoodTransform(casing: Casing, metrics: seq<Option<Metric>>, item: Option<Transform>) {
    && item.Some? && item.value.source != UNSPECIFIED
    && HeaderName(casing, HeaderOf(casing, item.value.headerName))
    && !Sensitive(casing, HeaderOf(casing, item.value.headerName))
    && !Blank(item.value.metricName) && TrimSpace(item.value.metricName) in MetricNamesOf(metrics)
    && item.value.valueType != UNSPECIFIED
    && (forall l <- item.value.labels :: GoodLabel(metrics, TrimSpace(item.value.metricName), l))
    && Unique(LabelNames(item.value.labels))
  }

  /** What a transform measures: no two transforms of a profile may share it. */
  function TransformKeys(casing: Casing, items: seq<Option<Transform>>): (keys: seq<(int, string, string)>)
    ensures |keys| == |items|
  {
    seq(|items|, i requires 0 <= i < |items| =>
      if items[i].Some? then (items[i].value.source, HeaderOf(casing, items[i].value.headerName),
                              TrimSpace(items[i].value.metricName))
      else (0, "", ""))
  }

  function Headers(casing: Casing, r: Redaction): (keys: seq<string>)
    ensures |keys| == |r.hashHeaders| + |r.redactHeaders|
  {
    var all := r.hashHeaders + r.redactHeaders;
    seq(|all|, i requires 0 <= i < |all| => HeaderOf(casing, all[i]))
  }

  predicate GoodRedaction(casing: Casing, r: Redaction) {
    r.dropRawHeaders && (forall h <- Headers(casing, r) :: HeaderName(casing, h)) && Unique(Headers(casing, r))
  }

  predicate GoodPassiveHttp(casing: Casing, metrics: seq<Option<Metric>>, http: PassiveHttp) {
    && http.capturePoint != UNSPECIFIED && http.transforms != []
    && (forall s <- http.selectors :: GoodSelector(casing, s))
    && (forall t <- http.transforms :: GoodTransform(casing, metrics, t))
    && Unique(TransformKeys(casing, http.transforms))
    && http.redaction.Some? && GoodRedaction(casing, http.redaction.value)
  }

  // ---------------------------------------------------------------- queries and availability

  predicate GoodQuery(metrics: seq<Option<Metric>>, item: Option<Query>) {
    && item.Some? && !Blank(item.value.queryID) && !Blank(item.value.displayName)
    && item.value.language != UNSPECIFIED && !Blank(item.value.statement) && item.value.resultKind != UNSPECIFIED
    && item.value.metricNames != [] && forall n <- item.value.metricNames :: TrimSpace(n) in MetricNamesOf(metrics)
  }

  function QueryIDs(items: seq<Option<Query>>): (keys: seq<string>)
    ensures |keys| == |items|
  {
    seq(|items|, i requires 0 <= i < |items| => if items[i].Some? then TrimSpace(items[i].value.queryID) else "")
  }

  predicate GoodComparison(queryIDs: seq<string>, item: Option<Comparison>) {
    item.Some? && TrimSpace(item.value.queryID) in queryIDs && item.value.operator != UNSPECIFIED
  }

  predicate GoodRule(queryIDs: seq<string>, item: Option<Rule>) {
    && item.Some? && !Blank(item.value.ruleID) && !Blank(item.value.displayName)
    && item.value.allOf != [] && item.value.state != UNSPECIFIED
    && forall c <- item.value.allOf :: GoodComparison(queryIDs, c)
  }

  function RuleIDs(items: seq<Option<Rule>>): (keys: seq<string>)
    ensures |keys| == |items|
  {
    seq(|items|, i requires 0 <= i < |items| => if items[i].Some? then TrimSpace(items[i].value.ruleID) else "")
  }

  predicate GoodAvailability(queryIDs: seq<string>, a: Availability) {
    && a.subjectKind != UNSPECIFIED && !Blank(a.subjectKey)
    && a.queryIDs != [] && (forall q <- a.queryIDs :: TrimSpace(q) in queryIDs)
    && (forall r <- a.rules :: GoodRule(queryIDs, r)) && Unique(RuleIDs(a.rules))
  }

  // ---------------------------------------------------------------- profiles

  predicate GoodCollection(casing: Casing, metrics: seq<Option<Metric>>, collection: Collection) {
    match collection
    case NoCollection => false
    case Active(query) => GoodActiveQuery(casing, query)
    case Passive(http) => GoodPassiveHttp(casing, metrics, http)
  }

  predicate GoodProfile(casing: Casing, item: Option<Profile>) {
    && item.Some? && !Blank(item.value.profileID) && !Blank(item.value.displayName)
    && GoodMetrics(item.value.metrics)
    && GoodCollection(casing, item.value.metrics, item.value.collection)
    && (forall q <- item.value.queries :: GoodQuery(item.value.metrics, q)) && Unique(QueryIDs(item.value.queries))
    && (item.value.availability.Some? ==> GoodAvailability(QueryIDs(item.value.queries), item.value.availability.value))
  }

  function ProfileIDs(items: seq<Option<Profile>>): (keys: seq<string>)
    ensures |keys| == |items|
  {
    seq(|items|, i requires 0 <= i < |items| => if items[i].Some? then TrimSpace(items[i].value.profileID) else "")
  }

  /** A capability's profiles; the capability itself may be missing. */
  predicate GoodCapability(casing: Casing, profiles: Option<seq<Option<Profile>>>) {
    profiles.Some? && (forall p <- profiles.value :: GoodProfile(casing, p)) && Unique(ProfileIDs(profiles.value))
  }
}
