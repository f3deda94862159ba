/**
 * Sessions and their outbox as one store: what each repository transaction
 * computes, as a function of the row it reads. Transactions run one at a time.
 */
module SessionStore {
  import opened Text
  import opened Decimal
  import opened SessionTypes
  import opened SessionResource

  /** One row of platform_sessions. */
  datatype Row = Row(payload: Resource, generation: int)

  datatype EventKind = Created | Updated | StatusUpdated

  /** One row of platform_domain_outbox. */
  datatype Event = Event(kind: EventKind, aggregateID: string, version: int, state: State)

  datatype Store = Store(rows: map<string, Row>, outbox: seq<Event>)

  const EMPTY_STORE := Store(map[], [])

  /** ReleaseActiveRun answers with a flag, the others with the session state. */
  datatype Reply = StateReply(state: State) | ReleasedReply(released: bool)

  datatype Call =
    | Create(session: Option<Spec>)
    | Update(sessionID: string, session: Option<Spec>)
    | UpdateStatus(sessionID: string, status: Option<Status>, now: Timestamp)
    | Claim(sessionID: string, runID: string, now: Timestamp)
    | Release(sessionID: string, runID: string, now: Timestamp)

  /** What a call does to the row it read: nothing, or a new row and an event announcing it. */
  datatype Effect = Unchanged(reply: Reply) | Rewritten(row: Row, kind: EventKind, reply: Reply) | Refused(code: Code)

  datatype Done = Done(store: Store, reply: Outcome<Reply>)

  // ---------------------------------------------------------------- reading a row

  /** getResource fills in a missing name and namespace. */
  function Read(namespace: string, sessionID: string, row: Row): Resource {
    row.payload.(metadata := row.payload.metadata.(
                   name := if row.payload.metadata.name == "" then sessionID else row.payload.metadata.name,
                   namespace := if row.payload.metadata.namespace == "" then namespace
                   else row.payload.metadata.namespace))
  }

  function Stamped(resource: Resource, generation: int): Resource {
    resource.(metadata := resource.metadata.(generation := generation, resourceVersion := FormatInt(generation)))
  }

  /** The state a resource reads as, or the code of the failure to read it. */
  function Answer(resource: Resource, generation: int): Effect {
    match StateOf(resource, generation)
    case Err(code) => Refused(code)
    case Ok(state) => Unchanged(StateReply(state))
  }

  /** A rewritten row is announced under the session id of its spec, which must not be blank. */
  function Rewrite(resource: Resource, generation: int, kind: EventKind): Effect {
    match StateOf(resource, generation)
    case Err(code) => Refused(code)
    case Ok(state) =>
      if TrimSpace(state.spec.sessionID) == "" then Refused(Unknown)
      else Rewritten(Row(resource, generation), kind, StateReply(state))
  }

  // ---------------------------------------------------------------- conditions

  predicate ConditionTrue(conditions: seq<StoredCondition>, conditionType: string) {
    exists c <- conditions :: c.conditionType == conditionType && c.status == "True"
  }

  const WORKSPACE_READY := "WorkspaceReady"
  const WARM_STATE_READY := "WarmStateReady"
  const READY_FOR_NEXT_RUN := "ReadyForNextRun"
  const ACTIVE_RUN_IN_PROGRESS := "ActiveRunInProgress"
  const ACTIVE_RUN_MESSAGE := "AgentSession has an active run."
  const RELEASED_MESSAGE := "AgentSession active run completed; waiting for readiness reconcile."

  /** activeRunDispatchReady. */
  predicate DispatchReady(conditions: seq<StoredCondition>) {
    ConditionTrue(conditions, WORKSPACE_READY) && ConditionTrue(conditions, WARM_STATE_READY)
  }

  predicate SameReport(a: StoredCondition, b: StoredCondition) {
    a.status == b.status && a.reason == b.reason && a.message == b.message
      && a.observedGeneration == b.observedGeneration
  }

  /** setResourceCondition: the first condition of the type is replaced, unless it already says the same. */
  function WithCondition(conditions: seq<StoredCondition>, next: StoredCondition): seq<StoredCondition> {
    if conditions == [] then [next]
    else if conditions[0].conditionType != next.conditionType
            then [conditions[0]] + WithCondition(conditions[1..], next)
    else if SameReport(conditions[0], next) then conditions
    else [next] + conditions[1..]
  }

  function ActiveRunCondition(generation: int, now: Timestamp): StoredCondition {
    StoredCondition(READY_FOR_NEXT_RUN, "False", ACTIVE_RUN_IN_PROGRESS, ACTIVE_RUN_MESSAGE, generation,
                    FormatTime(now))
  }

  // ---------------------------------------------------------------- one call on one row

  function UpdateRow(namespace: string, sessionID: string, row: Row, session: Spec): Effect {
    var current := Read(namespace, sessionID, row);
    if current.session.None? then Refused(InvalidArgument)
    else if current.session.value == session then Answer(current, row.generation)
    else Rewrite(Stamped(current, row.generation + 1).(session := Some(session)), row.generation + 1, Updated)
  }

  function UpdateStatusRow(namespace: string, sessionID: string, row: Row, status: Status): Effect {
    var current := Read(namespace, sessionID, row);
    if status.observed.observedGeneration != 0
       && status.observed.observedGeneration != row.generation then Refused(FailedPrecondition) else
    match StateOf(current, row.generation)
    case Err(code) => Refused(code)
    case Ok(state) =>
      if state.status == status then Unchanged(StateReply(state))
      else Rewrite(Stamped(current, row.generation).(status := StoredStatusOf(status)), row.generation, StatusUpdated)
  }

  function ClaimedStatus(status: StoredStatus, runID: string, generation: int, now: Timestamp): StoredStatus {
    StoredStatus(status.observed.(message := ACTIVE_RUN_MESSAGE),
                 WithCondition(status.conditions, ActiveRunCondition(generation, now)),
                 PhaseText(PHASE_RUNNING), runID, FormatTime(now))
  }

  function ReleasedStatus(status: StoredStatus, now: Timestamp): StoredStatus {
    status.(observed := status.observed.(message := RELEASED_MESSAGE), phase := PhaseText(PHASE_PENDING),
            activeRunID := "", updatedAt := FormatTime(now))
  }

  function ClaimRow(namespace: string, sessionID: string, row: Row, runID: string, now: Timestamp): Effect {
    var current := Read(namespace, sessionID, row);
    var active := TrimSpace(current.status.activeRunID);
    if current.session.None? then Refused(FailedPrecondition)
    else if active != "" && active != runID then Refused(FailedPrecondition)
    else if active == runID then Answer(current, row.generation)
    else if !DispatchReady(current.status.conditions) then Refused(FailedPrecondition)
    else Rewrite(Stamped(current.(status := ClaimedStatus(current.status, runID, row.generation, now)), row.generation),
                 row.generation, StatusUpdated)
  }

  function ReleaseRow(namespace: string, sessionID: string, row: Row, runID: string, now: Timestamp): Effect {
    var current := Read(namespace, sessionID, row);
    if TrimSpace(current.status.activeRunID) != runID then Unchanged(ReleasedReply(false)) else
    match Rewrite(Stamped(current.(status := ReleasedStatus(current.status, now)), row.generation), row.generation,
                  StatusUpdated)
    case Rewritten(next, kind, _) => Rewritten(next, kind, ReleasedReply(true))
    case other => other
  }

  // ---------------------------------------------------------------- one call on the store

  /** The session a call names, trimmed. */
  function Named(call: Call): string
    requires !call.Create?
  {
    TrimSpace(call.sessionID)
  }

  /** How a call answers before it reads a row, if it does. */
  function EarlyReply(call: Call): Option<Outcome<Reply>>
    requires !call.Create?
  {
    if call.Release? then
      if Named(call) == "" || TrimSpace(call.runID) == "" then Some(Ok(ReleasedReply(false))) else None
    else if Named(call) == "" then Some(Err(InvalidArgument))
    else match call
      case Update(_, session) => if NormalizeSpec(Named(call), session).Err? then Some(Err(InvalidArgument)) else None
      case UpdateStatus(_, status, now) => if NormalizeStatus(Named(call), status, now).Err?
        then Some(Err(InvalidArgument)) else None
      case Claim(_, runID, _) => if TrimSpace(runID) == "" then Some(Err(InvalidArgument)) else None
      case Release(_, _, _) => None
  }

  function RowEffect(namespace: string, row: Row, call: Call): Effect
    requires !call.Create? && EarlyReply(call).None?
  {
    var id := Named(call);
    match call
    case Update(_, session) => UpdateRow(namespace, id, row, NormalizeSpec(id, session).value)
    case UpdateStatus(_, status, now) => UpdateStatusRow(namespace, id, row, NormalizeStatus(id, status, now).value)
    case Claim(_, runID, now) => ClaimRow(namespace, id, row, TrimSpace(runID), now)
    case Release(_, runID, now) => ReleaseRow(namespace, id, row, TrimSpace(runID), now)
  }

  function StateIn(row: Row): Outcome<State> { StateOf(row.payload, row.generation) }

  function EventOf(row: Row, kind: EventKind): Event
    requires StateIn(row).Ok?
  {
    var state := StateIn(row).value;
    Event(kind, TrimSpace(state.spec.sessionID), row.generation, state)
  }

  predicate Announces(effect: Effect) { effect.Rewritten? ==> StateIn(effect.row).Ok? }

  /** The row and the event are written together or, after an error, not at all. */
  function Commit(store: Store, id: string, effect: Effect): Done
    requires Announces(effect)
  {
    match effect
    case Refused(code) => Done(store, Err(code))
    case Unchanged(reply) => Done(store, Ok(reply))
    case Rewritten(row, kind, reply) => Done(Store(store.rows[id := row], store.outbox + [EventOf(row, kind)]),
                                             Ok(reply))
  }

  lemma RowEffectAnnounces(namespace: string, row: Row, call: Call)
    requires !call.Create? && EarlyReply(call).None?
    ensures Announces(RowEffect(namespace, row, call))
  {
  }

  function CreateEffect(namespace: string, session: Spec): Effect {
    Rewrite(NewResource(namespace, session, 1), 1, Created)
  }

  function ExecuteCreate(namespace: string, store: Store, session: Option<Spec>): Done {
    if session.None? then Done(store, Err(InvalidArgument)) else
    match NormalizeSpec(TrimSpace(session.value.sessionID), session)
    case Err(code) => Done(store, Err(code))
    case Ok(spec) =>
      if spec.sessionID in store.rows then Done(store, Err(AlreadyExists))
      else Commit(store, spec.sessionID, CreateEffect(namespace, spec))
  }

  /** One repository call in a transaction of its own. */
  function Execute(namespace: string, store: Store, call: Call): Done {
    if call.Create? then ExecuteCreate(namespace, store, call.session)
    else if EarlyReply(call).Some? then Done(store, EarlyReply(call).value)
    else if Named(call) !in store.rows
            then Done(store, if call.Release? then Ok(ReleasedReply(false)) else Err(NotFound))
    else
      RowEffectAnnounces(namespace, store.rows[Named(call)], call);
      Commit(store, Named(call), RowEffect(namespace, store.rows[Named(call)], call))
  }

  /** Get. */
  function Get(namespace: string, store: Store, rawID: string): Outcome<State> {
    var id := TrimSpace(rawID);
    if id == "" then Err(InvalidArgument)
    else if id !in store.rows then Err(NotFound)
    else StateOf(Read(namespace, id, store.rows[id]), store.rows[id].generation)
  }

  /** A run: calls one after the other. */
  function ExecuteAll(namespace: string, store: Store, calls: seq<Call>): Store {
    if calls == [] then store else
    Execute(namespace, ExecuteAll(namespace, store, calls[..|calls| - 1]), calls[|calls| - 1]).store
  }
}
