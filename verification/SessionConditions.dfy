/** The vocabulary of session conditions and the validity of a session status. */
module SessionConditions {
  import opened Text
  import opened SessionTypes

  function AllowedReasons(conditionType: string): set<string> {
    match conditionType
    case "WorkspaceReady" => {"WorkspacePrepared", "WorkspaceUnavailable"}
    case "WarmStateReady" => {"WarmStatePrepared", "WarmStateReset", "WarmStateUnavailable"}
    case "RuntimeConfigReady" => {"RuntimeConfigPrepared", "RuntimeConfigInvalid", "RuntimeConfigRevoked"}
    case "ResourceConfigReady" => {"ResourceConfigPrepared", "ResourceConfigInvalid", "ResourceConfigIncompatible"}
    case "ReadyForNextRun" => {"Ready", "SessionNotReady", "ActiveRunInProgress", "SessionSuspended", "SessionClosed"}
    case _ => {}
  }

  const KNOWN_TYPES := {"WorkspaceReady", "WarmStateReady", "RuntimeConfigReady", "ResourceConfigReady",
                        "ReadyForNextRun"}

  /** ^[A-Z][A-Za-z0-9]*$ */
  predicate IsCamelCase(reason: string) {
    && reason != "" && 'A' <= reason[0] <= 'Z'
    && forall c <- reason :: 'A' <= c <= 'Z' || 'a' <= c <= 'z' || '0' <= c <= '9'
  }

  /** The reason vocabulary decides most of what makes a condition valid. */
  predicate ValidCondition(condition: Option<Condition>) {
    && condition.Some?
    && condition.value.reason in AllowedReasons(condition.value.conditionType)
    && IsCamelCase(condition.value.reason)
    && condition.value.status != STATUS_UNSPECIFIED
    && condition.value.observedGeneration >= 0
  }

  predicate DistinctTypes(conditions: seq<Option<Condition>>) {
    forall i, j :: 0 <= i < j < |conditions| && conditions[i].Some? && conditions[j].Some? ==>
      conditions[i].value.conditionType != conditions[j].value.conditionType
  }

  predicate ValidConditions(conditions: seq<Option<Condition>>, observedGeneration: int) {
    && (forall c <- conditions :: ValidCondition(c) && c.value.observedGeneration <= observedGeneration)
    && DistinctTypes(conditions)
  }

  predicate ValidHeader(status: Status) {
    && status.sessionID != "" && status.phase != PHASE_UNSPECIFIED
    && status.observed.observedGeneration >= 0 && status.observed.runtimeConfigGeneration >= 0
    && status.observed.resourceConfigGeneration >= 0 && status.observed.stateGeneration >= 0
  }

  predicate ValidStatus(status: Status) {
    ValidHeader(status) && ValidConditions(status.conditions, status.observed.observedGeneration)
  }

  method ValidateAgentSessionCondition(condition: Option<Condition>) returns (ok: bool)
    ensures ok == ValidCondition(condition)
  {
    if condition.None? || condition.value.conditionType == "" {
      return false;
    }
    var c := condition.value;
    if c.conditionType !in KNOWN_TYPES || c.status == STATUS_UNSPECIFIED || c.reason == "" || !IsCamelCase(c.reason) {
      return false;
    }
    if c.reason !in AllowedReasons(c.conditionType) {
      return false;
    }
    ok := c.observedGeneration >= 0;
  }

  method ValidateAgentSessionStatus(status: Option<Status>) returns (ok: bool)
    ensures ok == (status.Some? && ValidStatus(status.value))
  {
    if status.None? || status.value.sessionID == "" || status.value.phase == PHASE_UNSPECIFIED {
      return false;
    }
    var observed := status.value.observed;
    if observed.observedGeneration < 0 || observed.runtimeConfigGeneration < 0
       || observed.resourceConfigGeneration < 0 || observed.stateGeneration < 0 {
      return false;
    }
    var conditions := status.value.conditions;
    var seen := {};
    for i := 0 to |conditions|
      invariant ValidConditions(conditions[..i], observed.observedGeneration)
      invariant seen == set c <- conditions[..i] | c.Some? :: c.value.conditionType
    {
      var condition := conditions[i];
      assert conditions[..i + 1] == conditions[..i] + [condition];
      var valid := ValidateAgentSessionCondition(condition);
      if !valid || condition.value.observedGeneration > observed.observedGeneration {
        assert condition in conditions;
        return false;
      }
      if condition.value.conditionType in seen {
        Repeated(conditions, i);
        return false;
      }
      seen := seen + {condition.value.conditionType};
    }
    assert conditions[..|conditions|] == conditions;
    ok := true;
  }

  lemma Repeated(conditions: seq<Option<Condition>>, i: nat)
    requires i < |conditions| && conditions[i].Some?
    requires exists c <- conditions[..i] :: c.Some? && c.value.conditionType == conditions[i].value.conditionType
    ensures !DistinctTypes(conditions)
  {
    var c :| c in conditions[..i] && c.Some? && c.value.conditionType == conditions[i].value.conditionType;
    var k :| 0 <= k < i && conditions[..i][k] == c;
    assert conditions[k] == c;
  }

  function TypesOf(conditions: seq<Option<Condition>>): set<string> {
    set c | c in conditions && c.Some? :: c.value.conditionType
  }

  lemma {:induction false} DistinctTypesCount(conditions: seq<Option<Condition>>)
    requires (forall c <- conditions :: c.Some?) && DistinctTypes(conditions)
    ensures |TypesOf(conditions)| == |conditions|
  {
    if conditions != [] {
      var n := |conditions| - 1;
      var before, last := conditions[..n], conditions[n].value.conditionType;
      assert conditions == before + [conditions[n]];
      assert forall c <- before :: c in conditions;
      DistinctTypesCount(before);
      assert TypesOf(conditions) == TypesOf(before) + {last};
      assert last !in TypesOf(before);
    }
  }

  lemma {:induction false} SubsetIsSmaller<T>(some: set<T>, all: set<T>)
    requires some <= all
    ensures |some| <= |all|
  {
    if some != {} {
      var x :| x in some;
      SubsetIsSmaller(some - {x}, all - {x});
    }
  }

  /**
   * A valid status has one condition for each of at most five types, each
   * decided, observed no later than the status itself.
   */
  lemma ValidStatusMeans(status: Status)
    requires ValidStatus(status)
    ensures |status.conditions| <= 5
    ensures forall c <- status.conditions ::
              && c.Some?
              && c.value.conditionType in {"WorkspaceReady", "WarmStateReady", "RuntimeConfigReady",
                                           "ResourceConfigReady", "ReadyForNextRun"}
              && c.value.status != 0 && 0 <= c.value.observedGeneration <= status.observed.observedGeneration
    ensures status.sessionID != "" && status.phase != 0
  {
    var known := {"WorkspaceReady", "WarmStateReady", "RuntimeConfigReady", "ResourceConfigReady", "ReadyForNextRun"};
    DistinctTypesCount(status.conditions);
    assert TypesOf(status.conditions) <= known;
    SubsetIsSmaller(TypesOf(status.conditions), known);
  }
}
