/** Agent session specs and states, and the errors the session services answer with. */
module SessionTypes {
  import opened Text

  datatype Code = InvalidArgument | NotFound | AlreadyExists | FailedPrecondition | Unknown

  datatype Outcome<+T> = Ok(value: T) | Err(code: Code)

  // ---------------------------------------------------------------- timestamps

  /** google.protobuf.Timestamp, and also a time.Time in UTC. */
  datatype Timestamp = Timestamp(seconds: int, nanos: int)

  /** Seconds of 0000-01-01T00:00:00Z and of 9999-12-31T23:59:59Z. */
  const FIRST_SECOND := -62167219200
  const LAST_SECOND := 253402300799
  const NANOS := 1_000_000_000

  /** Timestamp.AsTime moves excess nanoseconds into the seconds. */
  function AsTime(t: Timestamp): Timestamp { Timestamp(t.seconds + t.nanos / NANOS, t.nanos % NANOS) }

  /** Times that survive formatting and parsing. */
  predicate WellFormedTime(t: Timestamp) { 0 <= t.nanos < NANOS && FIRST_SECOND <= t.seconds <= LAST_SECOND }

  type RfcTime = t: Timestamp | WellFormedTime(t) witness Timestamp(0, 0)

  /** RFC 3339 text: absent, text that parses back, or text no parser reads (a year outside four digits). */
  datatype TimeText = NoText | Readable(time: RfcTime) | Unreadable(raw: Timestamp)

  /** Format(time.RFC3339Nano). */
  function FormatTime(t: Timestamp): TimeText {
    var time := AsTime(t);
    if WellFormedTime(time) then Readable(time) else Unreadable(time)
  }

  /** time.Parse(time.RFC3339Nano, text). */
  function ParseTime(text: TimeText): Option<Timestamp> { if text.Readable? then Some(text.time) else None }

  // ---------------------------------------------------------------- specs

  /** Which API or CLI a runtime reference reaches. */
  datatype Access = ApiAccess(protocol: int) | CliAccess | NoAccess

  datatype RuntimeRef = RuntimeRef(providerID: string, surfaceID: string, access: Access)

  datatype ModelSelector = ModelByRef(modelID: string,
                                      vendorID: string) | ProviderModel(providerModelID: string) | NoSelector

  datatype Fallback = Fallback(runtimeRef: Option<RuntimeRef>, selector: ModelSelector)

  /** The primary selector is a message of its own and may be absent. */
  datatype RuntimeConfig = RuntimeConfig(runtimeRef: Option<RuntimeRef>, fallbacks: seq<Fallback>,
                                         primary: Option<ModelSelector>)

  datatype Instruction = Instruction(kind: int, name: string, content: string)
  datatype ToolBinding = ToolBinding(name: string, kind: int, target: string)
  datatype Resources = Resources(snapshotID: string, instructions: seq<Instruction>, toolBindings: seq<ToolBinding>)

  datatype PrepareJob = PrepareJob(
    jobID: string, cliID: string, jobType: string, runType: int, changeKey: string, cleanup: bool,
      parametersYaml: string)

  datatype Spec = Spec(
    sessionID: string, providerID: string, profileID: string,
    runtimeConfig: Option<RuntimeConfig>, resourceConfig: Option<Resources>,
    workspaceRef: Option<string>, homeStateRef: Option<string>,
    profileGeneration: int, executionClass: string, prepareJobs: seq<PrepareJob>)

  function DefaultWorkspaceRef(sessionID: string): string { TrimSpace(sessionID) + "-workspace" }

  function DefaultHomeStateRef(sessionID: string): string { TrimSpace(sessionID) + "-home" }

  /** NormalizeSpec. */
  function NormalizeSpec(rawID: string, spec: Option<Spec>): Outcome<Spec> {
    var sessionID := TrimSpace(rawID);
    if sessionID == "" || spec.None? then Err(InvalidArgument) else
    var current := TrimSpace(spec.value.sessionID);
    if current != "" && current != sessionID then Err(InvalidArgument)
    else Ok(spec.value.(
              sessionID := sessionID,
              workspaceRef := if spec.value.workspaceRef.None? then Some(DefaultWorkspaceRef(sessionID))
              else spec.value.workspaceRef,
              homeStateRef := if spec.value.homeStateRef.None? then Some(DefaultHomeStateRef(sessionID))
              else spec.value.homeStateRef))
  }

  // ---------------------------------------------------------------- statuses

  const PHASE_UNSPECIFIED := 0
  const PHASE_PENDING := 1
  const PHASE_READY := 2
  const PHASE_RUNNING := 3
  const PHASE_FAILED := 5

  const STATUS_UNSPECIFIED := 0
  const STATUS_TRUE := 1
  const STATUS_FALSE := 2
  const STATUS_UNKNOWN := 3

  /** Enum fields are open: any number can arrive. */
  datatype Condition = Condition(
    conditionType: string, status: int, reason: string, message: string,
    observedGeneration: int, lastTransitionTime: Option<Timestamp>)

  /** The counters and texts that are stored as they are. */
  datatype Observed = Observed(
    observedGeneration: int, runtimeConfigGeneration: int, resourceConfigGeneration: int, stateGeneration: int,
    message: string, ruleRevision: string, skillRevision: string, mcpRevision: string, homeStateID: string)

  const NOTHING_OBSERVED := Observed(0, 0, 0, 0, "", "", "", "", "")

  /** A list entry can be a nil pointer. */
  datatype Status = Status(
    sessionID: string, phase: int, observed: Observed, activeRun: Option<string>,
    conditions: seq<Option<Condition>>, updatedAt: Option<Timestamp>)

  datatype State = State(generation: int, spec: Spec, status: Status)

  const EMPTY_CONDITION := Condition("", STATUS_UNSPECIFIED, "", "", 0, None)

  /** Cloning a message turns nil list entries into empty messages. */
  function ClonedConditions(items: seq<Option<Condition>>): (r: seq<Option<Condition>>)
    ensures |r| == |items| && forall c <- r :: c.Some?
    ensures (forall c <- items :: c.Some?) ==> r == items
  {
    seq(|items|, i requires 0 <= i < |items| => if items[i].Some? then items[i] else Some(EMPTY_CONDITION))
  }

  /** NormalizeStatus works on a clone. */
  function NormalizeStatus(rawID: string, status: Option<Status>, now: Timestamp): Outcome<Status> {
    var sessionID := TrimSpace(rawID);
    if sessionID == "" || status.None? then Err(InvalidArgument) else
    var current := TrimSpace(status.value.sessionID);
    if current != "" && current != sessionID then Err(InvalidArgument)
    else Ok(status.value.(sessionID := sessionID, conditions := ClonedConditions(status.value.conditions),
                          updatedAt := if status.value.updatedAt.None? then Some(now) else status.value.updatedAt))
  }
}
