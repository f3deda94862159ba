/** The run output events that flow from the run's source stream to the browser. */
module RunOutputEvents {
  import opened Text

  /** Token counters of one usage report (missing or non-numeric JSON members decode to zero). */
  datatype TokenUsage = TokenUsage(inputTokens: int, outputTokens: int, cachedInputTokens: int,
                                   reasoningOutputTokens: int)

  /** The decoded "value" member of a CUSTOM event; modelNames lists the candidate model id members in lookup order. */
  datatype UsageValue = UsageValue(
    modelNames: seq<string>,
    contextWindowTokens: int,
    usage: TokenUsage,
    requestCount: int,
    toolCallCount: int)

  /** An AG-UI event document. `decodes` says whether it decodes to a valid AG-UI event; `payload` is its JSON text. */
  datatype AguiEvent = AguiEvent(typeName: string, decodes: bool, payload: string, name: string, value: UsageValue)

  datatype RunOutput = RunOutput(sequence: nat, event: Option<AguiEvent>)

  datatype RunDelta = RunDelta(output: Option<RunOutput>)

  datatype ResultPayload =
    | NoPayload
    | OutputPayload(output: Option<RunOutput>)
    | TerminalPayload(result: Option<string>)

  datatype RunResult = RunResult(payload: ResultPayload)

  datatype RunOutputEvent = RunOutputEvent(delta: Option<RunDelta>, result: Option<RunResult>)

  const MESSAGES_SNAPSHOT := "MESSAGES_SNAPSHOT"
  const CUSTOM := "CUSTOM"
  const RUN_LLM_USAGE := "run.llm_usage"
  const RUN_TURN_USAGE := "run.turn_usage"

  /** runOutput: a delta wins over a result. */
  function OutputOf(event: RunOutputEvent): Option<RunOutput> {
    match event.delta
    case Some(delta) => delta.output
    case None =>
      match event.result
      case Some(RunResult(OutputPayload(output))) => output
      case _ => None
  }

  /** runOutputSequence: zero when the event carries no output. */
  function SequenceOf(event: RunOutputEvent): nat {
    match OutputOf(event)
    case Some(output) => output.sequence
    case None => 0
  }

  /** runOutputTerminal. */
  predicate IsTerminal(event: RunOutputEvent) {
    event.result.Some? && event.result.value.payload.TerminalPayload? && event.result.value.payload.result.Some?
  }

  function EventType(output: RunOutput): string {
    match output.event
    case Some(event) => TrimSpace(event.typeName)
    case None => ""
  }

  /** An event that takes part in de-duplication: a non-terminal, numbered output document. */
  predicate IsSequenced(event: RunOutputEvent) { HasDocument(event) && SequenceOf(event) != 0 }

  /** A sequenced event the browser is meant to see. */
  predicate IsForwardable(event: RunOutputEvent) {
    IsSequenced(event) && EventType(OutputOf(event).value) != MESSAGES_SNAPSHOT
  }

  predicate HasDocument(event: RunOutputEvent) {
    !IsTerminal(event) && OutputOf(event).Some? && OutputOf(event).value.event.Some?
  }

  function DocumentOf(event: RunOutputEvent): AguiEvent
    requires HasDocument(event)
  {
    OutputOf(event).value.event.value
  }

  predicate Decodes(event: RunOutputEvent) {
    HasDocument(event) && DocumentOf(event).decodes
  }

  /** The output of an event is its delta's, or without a delta that of its result; one with neither has number zero. */
  lemma OutputOfIff(event: RunOutputEvent, output: RunOutput)
    ensures OutputOf(event) == Some(output) <==>
            || (event.delta.Some? && event.delta.value.output == Some(output))
            || (event.delta.None? && event.result == Some(RunResult(OutputPayload(Some(output)))))
    ensures OutputOf(event) == Some(output) ==> SequenceOf(event) == output.sequence
    ensures OutputOf(event).None? ==> SequenceOf(event) == 0
  {
  }
}
