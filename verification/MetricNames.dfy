/** Metric names as users write them and as the time series database stores them. */
module MetricNames {
  import opened Text

  const SEMANTIC_CLI_PREFIX := "gen_ai.provider." + "cli.oauth."
  const SEMANTIC_VENDOR_PREFIX := "gen_ai.provider." + "vendor.api_key."
  const STORAGE_CLI_PREFIX := "gen_ai_provider_" + "cli_oauth_"
  const STORAGE_VENDOR_PREFIX := "gen_ai_provider_" + "vendor_api_key_"

  /** A semantic name and its storage name, after "gen_ai.provider." and "gen_ai_provider_". */
  function Tails(): seq<(string, string)> {
    [("quota.limit", "quota_limit"),
     ("quota.usage", "quota_usage"),
     ("quota.remaining", "quota_remaining"),
     ("quota." + "remaining.fraction.percent", "quota_" + "remaining_fraction_percent"),
     ("quota." + "usage.fraction.percent", "quota_" + "usage_fraction_percent"),
     ("quota." + "reset.timestamp.seconds", "quota_" + "reset_timestamp_seconds"),
     ("runtime.quota.limit", "runtime_quota_limit"),
     ("runtime.quota.remaining", "runtime_quota_remaining"),
     ("runtime.requests.total", "runtime_requests_total"),
     ("runtime." + "rate_limit.events.total", "runtime_" + "rate_limit_events_total"),
     ("runtime." + "rate_limit.limit", "runtime_" + "rate_limit_limit"),
     ("runtime." + "rate_limit.remaining", "runtime_" + "rate_limit_remaining"),
     ("runtime." + "last_seen.timestamp.seconds", "runtime_" + "last_seen_timestamp_seconds"),
     ("runtime." + "retry_after.seconds", "runtime_" + "retry_after_seconds"),
     ("usage.requests.count", "usage_requests_count"),
     ("usage.tokens.count", "usage_tokens_count"),
     ("usage.cost.usd", "usage_cost_usd")]
  }

  /** semanticProviderMetricStorageNames; storageProviderMetricSemanticNames is the same list read backwards. */
  function Table(tails: seq<(string, string)>): seq<(string, string)> {
    if tails == [] then [] else
    [("gen_ai.provider." + tails[0].0, "gen_ai_provider_" + tails[0].1)] + Table(tails[1..])
  }

  function StorageOf(table: seq<(string, string)>, semantic: string): Option<string> {
    if table == [] then None else if table[0].0 == semantic then Some(table[0].1) else StorageOf(table[1..], semantic)
  }

  function SemanticOf(table: seq<(string, string)>, storage: string): Option<string> {
    if table == [] then None else if table[0].1 == storage then Some(table[0].0) else SemanticOf(table[1..], storage)
  }

  function Underscored(s: string): string { ReplaceChar(s, '.', '_') }

  function Dotted(s: string): string { ReplaceChar(s, '_', '.') }

  function StorageIn(table: seq<(string, string)>, s: string): string {
    var name := TrimSpace(s);
    if name == "" then ""
    else if StorageOf(table, name).Some? then StorageOf(table, name).value
    else if SEMANTIC_CLI_PREFIX <= name then STORAGE_CLI_PREFIX + Underscored(name[|SEMANTIC_CLI_PREFIX|..])
    else if SEMANTIC_VENDOR_PREFIX <= name then STORAGE_VENDOR_PREFIX + Underscored(name[|SEMANTIC_VENDOR_PREFIX|..])
    else if '.' in name then Underscored(name)
    else name
  }

  function SemanticIn(table: seq<(string, string)>, s: string): string {
    var name := TrimSpace(s);
    if name == "" then ""
    else if SemanticOf(table, name).Some? then SemanticOf(table, name).value
    else if STORAGE_CLI_PREFIX <= name then SEMANTIC_CLI_PREFIX + Dotted(name[|STORAGE_CLI_PREFIX|..])
    else if STORAGE_VENDOR_PREFIX <= name then SEMANTIC_VENDOR_PREFIX + Dotted(name[|STORAGE_VENDOR_PREFIX|..])
    else name
  }

  /** prometheusMetricRepo.StorageName. */
  function StorageName(s: string): string { StorageIn(Table(Tails()), s) }

  /** prometheusMetricRepo.SemanticName. */
  function SemanticName(s: string): string { SemanticIn(Table(Tails()), s) }

  // ---------------------------------------------------------------- replacing characters

  lemma ReplaceConcat(a: string, b: string, from: char, to: char)
    ensures ReplaceChar(a + b, from, to) == ReplaceChar(a, from, to) + ReplaceChar(b, from, to)
  {
  }

  lemma ReplaceAbsent(s: string, from: char, to: char)
    requires from !in s
    ensures ReplaceChar(s, from, to) == s
  {
  }

  lemma UnderscoredHasNoDot(s: string)
    ensures '.' !in Underscored(s)
    ensures Underscored(Underscored(s)) == Underscored(s)
    ensures '.' !in s ==> Underscored(s) == s
    ensures Underscored(s) == s ==> '.' !in s
  {
    var u := Underscored(s);
    assert forall c <- u :: c != '.' by {
      forall i | 0 <= i < |u| ensures u[i] != '.' {}
    }
    ReplaceAbsent(u, '.', '_');
    if '.' in s {
      var i :| 0 <= i < |s| && s[i] == '.';
      assert u[i] == '_';
    }
  }

  // ---------------------------------------------------------------- the table

  predicate TailOk(tail: (string, string)) {
    && Underscored(tail.0) == tail.1 && tail.0 != "" && tail.0[0] in {'q', 'r', 'u'} && !IsSpace(tail.0[|tail.0| - 1])
  }

  lemma JoinedPieces(a: string, b: string, x: string, y: string)
    requires Underscored(a) == x && Underscored(b) == y
    ensures Underscored(a + b) == x + y
  {
    ReplaceConcat(a, b, '.', '_');
  }

  lemma ShortTails()
    ensures Underscored("quota.limit") == "quota_limit"
    ensures Underscored("quota.usage") == "quota_usage"
    ensures Underscored("quota.remaining") == "quota_remaining"
    ensures Underscored("usage.requests.count") == "usage_requests_count"
    ensures Underscored("usage.tokens.count") == "usage_tokens_count"
    ensures Underscored("usage.cost.usd") == "usage_cost_usd"
  {
  }

  lemma QuotaTails()
    ensures Underscored("quota." + "remaining.fraction.percent") == "quota_" + "remaining_fraction_percent"
    ensures Underscored("quota." + "usage.fraction.percent") == "quota_" + "usage_fraction_percent"
    ensures Underscored("quota." + "reset.timestamp.seconds") == "quota_" + "reset_timestamp_seconds"
  {
    JoinedPieces("quota.", "remaining.fraction.percent", "quota_", "remaining_fraction_percent");
    JoinedPieces("quota.", "usage.fraction.percent", "quota_", "usage_fraction_percent");
    JoinedPieces("quota.", "reset.timestamp.seconds", "quota_", "reset_timestamp_seconds");
  }

  lemma RuntimeTails()
    ensures Underscored("runtime.quota.limit") == "runtime_quota_limit"
    ensures Underscored("runtime.quota.remaining") == "runtime_quota_remaining"
    ensures Underscored("runtime.requests.total") == "runtime_requests_total"
    ensures Underscored("runtime." + "retry_after.seconds") == "runtime_" + "retry_after_seconds"
    ensures Underscored("runtime." + "last_seen.timestamp.seconds") == "runtime_" + "last_seen_timestamp_seconds"
  {
    JoinedPieces("runtime.", "retry_after.seconds", "runtime_", "retry_after_seconds");
    JoinedPieces("runtime.", "last_seen.timestamp.seconds", "runtime_", "last_seen_timestamp_seconds");
  }

  lemma RateLimitTails()
    ensures Underscored("runtime." + "rate_limit.events.total") == "runtime_" + "rate_limit_events_total"
    ensures Underscored("runtime." + "rate_limit.limit") == "runtime_" + "rate_limit_limit"
    ensures Underscored("runtime." + "rate_limit.remaining") == "runtime_" + "rate_limit_remaining"
  {
    JoinedPieces("runtime.", "rate_limit.events.total", "runtime_", "rate_limit_events_total");
    JoinedPieces("runtime.", "rate_limit.limit", "runtime_", "rate_limit_limit");
    JoinedPieces("runtime.", "rate_limit.remaining", "runtime_", "rate_limit_remaining");
  }

  lemma TailsAreOk()
    ensures forall i :: 0 <= i < |Tails()| ==> TailOk(Tails()[i])
  {
    ShortTails();
    QuotaTails();
    RuntimeTails();
    RateLimitTails();
  }
}
