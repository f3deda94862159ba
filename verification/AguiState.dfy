/** The session, action and run states the run stream reports on, and what it derives from them. */
module AguiState {
  import opened Text
  import opened RunOutputEvents

  datatype SessionPhase = SessionUnspecified | SessionPending | SessionReady | SessionRunning | SessionFailed

  /** The parts of a session state shown to the browser (missing messages read as empty strings). */
  datatype SessionView = SessionView(
    sessionID: string, providerID: string, profileID: string,
    phase: SessionPhase, message: string, activeRunID: string,
    ruleRevision: string, skillRevision: string, mcpRevision: string)

  /** Phases shared by actions and runs; runs also have Scheduled. */
  datatype Phase = Unspecified | Pending | Scheduled | Running | Succeeded | Failed | Canceled

  datatype ActionStatus = ActionStatus(
    phase: Phase, runID: string, message: string, failureClass: string, displayPhase: string,
    canStop: bool, canRetry: bool, retryCount: int, attemptCount: int, candidateIndex: int)

  datatype ActionState = ActionState(turnID: string, actionID: string, status: Option<ActionStatus>)

  datatype RunFailure = RunFailure(message: string, code: string)

  datatype RunStatus = RunStatus(phase: Phase, runID: string, message: string, failure: Option<RunFailure>)

  /** `steps` stands for the activity steps derived from the run's prepare jobs and status. */
  datatype RunState = RunState(specRunID: string, steps: seq<string>, status: Option<RunStatus>)

  datatype UsageProjection = UsageProjection(
    tokens: TokenUsage, requestCount: int, toolCallCount: int, modelID: string, contextWindowTokens: int)

  const NO_USAGE := UsageProjection(TokenUsage(0, 0, 0, 0), 0, 0, "", 0)

  datatype Projection = Projection(
    id: string, providerID: string, profileID: string, phase: string, message: string, activeRunID: string,
    ruleRevision: string, skillRevision: string, mcpRevision: string,
    usage: Option<UsageProjection>)

  datatype Activity = Activity(
    id: string, sessionID: string, runID: string, phase: string, displayPhase: string, message: string,
    canStop: bool, canRetry: bool, retryCount: int, attemptCount: int, candidateIndex: int,
    failureClass: string, steps: seq<string>)

  datatype Outcome =
    | ActionOutcome(phase: Phase, displayPhase: string, message: string, retryCount: int, attemptCount: int,
                    candidateIndex: int)
    | RunOutcome(phase: Phase, message: string)

  datatype TerminalEvent =
    | RunErrorEvent(message: string, code: Option<string>)
    | RunFinishedEvent(threadID: string, runID: string, outcome: Outcome)

  /** What is written to the browser's event stream. */
  datatype Frame =
    | StateSnapshot(projection: Projection)
    | ActivitySnapshot(activity: Activity)
    | OutputFrame(payload: string)
    | KeepAlive
    | TerminalFrame(event: TerminalEvent)

  function SessionPhaseLabel(phase: SessionPhase): string {
    match phase
    case SessionPending => "pending"
    case SessionReady => "ready"
    case SessionRunning => "running"
    case SessionFailed => "failed"
    case SessionUnspecified => ""
  }

  function ActionPhaseLabel(phase: Phase): string {
    match phase
    case Pending => "pending"
    case Running => "running"
    case Succeeded => "succeeded"
    case Failed => "failed"
    case Canceled => "canceled"
    case _ => ""
  }

  /** buildAGUIProjection. */
  function BuildProjection(sessionID: string, session: Option<SessionView>,
                           usage: Option<UsageProjection>): Projection {
    match session
    case None => Projection(sessionID, "", "", "", "", "", "", "", "", usage)
    case Some(view) =>
      Projection(
        if TrimSpace(view.sessionID) != "" then TrimSpace(view.sessionID) else sessionID,
        TrimSpace(view.providerID), TrimSpace(view.profileID), SessionPhaseLabel(view.phase),
        TrimSpace(view.message), TrimSpace(view.activeRunID),
        TrimSpace(view.ruleRevision), TrimSpace(view.skillRevision), TrimSpace(view.mcpRevision),
        usage)
  }

  predicate IsTerminalPhase(phase: Phase) { phase.Succeeded? || phase.Failed? || phase.Canceled? }

  function DefaultRunMessage(phase: Phase): string {
    match phase
    case Pending => "Run is pending."
    case Scheduled => "Run is scheduled."
    case Running => "Run is running."
    case Succeeded => "Run completed successfully."
    case Failed => "Run failed."
    case Canceled => "Run canceled."
    case Unspecified => ""
  }

  function DefaultActionMessage(phase: Phase): string {
    match phase
    case Pending => "Turn is pending."
    case Running => "Turn is running."
    case Succeeded => "Turn completed successfully."
    case Failed => "Turn failed."
    case Canceled => "Turn canceled."
    case _ => ""
  }

  /** aguiRunMessage. */
  function RunMessage(status: RunStatus): string {
    if TrimSpace(status.message) != "" then TrimSpace(status.message)
    else if status.failure.Some?
            && TrimSpace(status.failure.value.message) != "" then TrimSpace(status.failure.value.message)
    else DefaultRunMessage(status.phase)
  }

  function RunErrorCode(status: RunStatus): string {
    if status.failure.Some? then TrimSpace(status.failure.value.code) else ""
  }

  /** actionMessage, for an action that is present. */
  function ActionMessage(action: ActionState, run: Option<RunState>): string {
    if action.status.Some? && TrimSpace(action.status.value.message) != "" then TrimSpace(action.status.value.message)
    else if run.Some? && run.value.status.Some? && TrimSpace(RunMessage(run.value.status.value)) != ""
    then TrimSpace(RunMessage(run.value.status.value))
    else if action.status.Some? then DefaultActionMessage(action.status.value.phase)
    else ""
  }

  /** newRunErrorEvent. */
  function NewRunErrorEvent(message: string, code: string): TerminalEvent {
    RunErrorEvent(message, if TrimSpace(code) != "" then Some(TrimSpace(code)) else None)
  }

  function TerminalRunID(runID: string, action: Option<ActionState>, run: Option<RunState>): string {
    if action.Some? && action.value.status.Some? && TrimSpace(action.value.status.value.runID) != ""
    then TrimSpace(action.value.status.value.runID)
    else if run.Some? && TrimSpace(run.value.specRunID) != "" then TrimSpace(run.value.specRunID)
    else if run.Some? && run.value.status.Some? && TrimSpace(run.value.status.value.runID) != ""
    then TrimSpace(run.value.status.value.runID)
    else runID
  }

  function TerminalOfRun(threadID: string, runID: string, action: Option<ActionState>,
                         run: Option<RunState>): Option<TerminalEvent> {
    if run.None? || run.value.status.None? || !IsTerminalPhase(run.value.status.value.phase) then None
    else
      var status := run.value.status.value;
      Some(if status.phase.Failed? then NewRunErrorEvent(RunMessage(status), RunErrorCode(status))
           else RunFinishedEvent(threadID, TerminalRunID(runID, action, run),
                                 RunOutcome(status.phase, RunMessage(status))))
  }

  /** terminalRunEvent: the action decides; the run only when the action has no phase yet. */
  function TerminalRunEvent(threadID: string, runID: string, action: Option<ActionState>,
                            run: Option<RunState>): Option<TerminalEvent> {
    if action.Some? && action.value.status.Some? && IsTerminalPhase(action.value.status.value.phase) then
      var status := action.value.status.value;
      var message := ActionMessage(action.value, run);
      if status.phase.Failed? then
        var code := if status.failureClass == "" && run.Some? && run.value.status.Some?
                    then RunErrorCode(run.value.status.value) else status.failureClass;
        Some(NewRunErrorEvent(message, code))
      else
        Some(RunFinishedEvent(threadID, TerminalRunID(runID, action, run),
                              ActionOutcome(status.phase, status.displayPhase, message,
                                            status.retryCount, status.attemptCount, status.candidateIndex)))
    else if action.Some? && action.value.status.Some? && !action.value.status.value.phase.Unspecified? then None
    else TerminalOfRun(threadID, runID, action, run)
  }

  /** buildAGUITurnActivityContent: absent when neither the turn nor the action has an id. */
  function BuildActivity(sessionID: string, action: Option<ActionState>, run: Option<RunState>,
                         runID: string): Option<Activity> {
    if action.None? then None else
    var id := FirstNonEmpty([action.value.turnID, action.value.actionID]);
    if id == "" then None else
    var steps := if run.Some? then run.value.steps else [];
    var message := ActionMessage(action.value, run);
    match action.value.status
    case None =>
      Some(Activity(id, TrimSpace(sessionID), TrimSpace(runID), "", "", message, false, false, 0, 0, 0, "", steps))
    case Some(status) =>
      Some(Activity(id, TrimSpace(sessionID), TrimSpace(runID), ActionPhaseLabel(status.phase), status.displayPhase,
                    message,
                    status.canStop, status.canRetry, status.retryCount, status.attemptCount, status.candidateIndex,
                    status.failureClass, steps))
  }

  /** The run the loop follows: the action's run when it names one, else the run followed so far. */
  function FollowedRunID(action: Option<ActionState>, fallback: string): string {
    if action.Some? && action.value.status.Some? && TrimSpace(action.value.status.value.runID) != ""
    then TrimSpace(action.value.status.value.runID)
    else TrimSpace(fallback)
  }

  /** The phase that decides whether the turn is over: the action's, or the run's while the action has none. */
  function DecidingPhase(action: Option<ActionState>, run: Option<RunState>): Phase {
    if action.Some? && action.value.status.Some?
       && !action.value.status.value.phase.Unspecified? then action.value.status.value.phase
    else if run.Some? && run.value.status.Some? then run.value.status.value.phase
    else Unspecified
  }

  /** There is a terminal event exactly when the deciding phase is over; it is an error exactly when that failed. */
  lemma TerminalEventIff(threadID: string, runID: string, action: Option<ActionState>, run: Option<RunState>)
    ensures var event, phase := TerminalRunEvent(threadID, runID, action, run), DecidingPhase(action, run);
            && (event.Some? <==> phase.Succeeded? || phase.Failed? || phase.Canceled?)
            && (event.Some? ==> (event.value.RunErrorEvent? <==> phase.Failed?))
            && (event.Some? && event.value.RunFinishedEvent? ==>
                event.value.threadID == threadID && event.value.outcome.phase == phase)
  {
  }

  /** The run of a finished event is the one loadCurrentRun follows, when the action names it. */
  lemma FinishedRunIsFollowed(threadID: string, runID: string, action: Option<ActionState>, run: Option<RunState>)
    requires action.Some? && action.value.status.Some? && TrimSpace(action.value.status.value.runID) != ""
    ensures var event := TerminalRunEvent(threadID, runID, action, run);
            event.Some? && event.value.RunFinishedEvent? ==> event.value.runID == FollowedRunID(action, runID)
  {
  }
}
