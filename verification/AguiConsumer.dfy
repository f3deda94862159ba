/** De-duplication of forwarded output events and of usage reports within one attachment. */
module AguiConsumer {
  import opened Text
  import opened RunOutputEvents
  import opened AguiState

  /** The browser's event stream; writes fail once `capacity` frames have been written. */
  class AguiStreamWriter {
    var written: seq<Frame>
    const capacity: Option<nat>

    constructor (capacity: Option<nat>)
      ensures written == [] && this.capacity == capacity
    {
      written := [];
      this.capacity := capacity;
    }

    predicate CanWrite() reads this { capacity.None? || |written| < capacity.value }

    method Write(frame: Frame) returns (ok: bool)
      modifies this
      ensures ok <==> old(CanWrite())
      ensures written == old(written) + if ok then [frame] else []
    {
      ok := CanWrite();
      if ok {
        written := written + [frame];
      }
    }
  }

  /** What apply does with one event: the new resume cursor, the forwarded event, or a decoding failure. */
  datatype Applied = Applied(lastSequence: nat, forwarded: Option<AguiEvent>, failed: bool)

  function ApplyOutput(lastSequence: nat, event: RunOutputEvent): Applied {
    if IsTerminal(event) then Applied(lastSequence, None, false) else
    match OutputOf(event)
    case Some(RunOutput(sequence, Some(document))) =>
      if sequence != 0 && sequence <= lastSequence then Applied(lastSequence, None, false)
      else
        var cursor := if sequence != 0 then sequence else lastSequence;
        if TrimSpace(document.typeName) == MESSAGES_SNAPSHOT then Applied(cursor, None, false)
        else if !document.decodes then Applied(cursor, None, true)
        else Applied(cursor, Some(document), false)
    case _ => Applied(lastSequence, None, false)
  }

  class AguiRunOutputState {
    var lastSequence: nat

    constructor ()
      ensures lastSequence == 0
    {
      lastSequence := 0;
    }

    method Apply(stream: AguiStreamWriter, event: RunOutputEvent) returns (ok: bool)
      modifies this, stream
      ensures var applied := ApplyOutput(old(lastSequence), event);
              && lastSequence == applied.lastSequence
              && ok == (!applied.failed && (applied.forwarded.Some? ==> old(stream.CanWrite())))
              && stream.written == old(stream.written)
                 + if applied.forwarded.Some? && ok then [OutputFrame(applied.forwarded.value.payload)] else []
    {
      if IsTerminal(event) {
        return true;
      }
      var output := OutputOf(event);
      if output.None? || output.value.event.None? {
        return true;
      }
      var sequence := output.value.sequence;
      if sequence != 0 {
        if sequence <= lastSequence {
          return true;
        }
        lastSequence := sequence;
      }
      if EventType(output.value) == MESSAGES_SNAPSHOT {
        return true;
      }
      if !output.value.event.value.decodes {
        return false;
      }
      ok := stream.Write(OutputFrame(output.value.event.value.payload));
    }
  }

  datatype UsageState = UsageState(lastLLMSequence: nat, lastTurnSequence: nat, projection: Option<UsageProjection>)

  const NEW_USAGE := UsageState(0, 0, None)

  predicate IsUsage(event: RunOutputEvent, name: string) {
    && OutputOf(event).Some? && EventType(OutputOf(event).value) == CUSTOM
    && OutputOf(event).value.event.Some?
    && TrimSpace(OutputOf(event).value.event.value.name) == name
  }

  function UsageOf(state: UsageState): UsageProjection {
    if state.projection.Some? then state.projection.value else NO_USAGE
  }

  /** The usage state after one event; reports with a stale sequence change nothing. */
  function ApplyUsage(state: UsageState, event: RunOutputEvent): UsageState {
    var sequence := SequenceOf(event);
    if IsUsage(event, RUN_LLM_USAGE) && sequence > state.lastLLMSequence then
      var value := OutputOf(event).value.event.value.value;
      state.(lastLLMSequence := sequence,
             projection := Some(UsageOf(state).(modelID := FirstNonEmpty(value.modelNames),
                                                contextWindowTokens := value.contextWindowTokens,
                                                tokens := value.usage)))
    else if IsUsage(event, RUN_TURN_USAGE) && sequence > state.lastTurnSequence then
      var value := OutputOf(event).value.event.value.value;
      state.(lastTurnSequence := sequence,
             projection := Some(UsageOf(state).(tokens := value.usage,
                                                requestCount := value.requestCount,
                                                toolCallCount := value.toolCallCount)))
    else state
  }

  class AguiUsageState {
    var lastLLMSequence: nat
    var lastTurnSequence: nat
    var projection: Option<UsageProjection>

    function State(): UsageState reads this { UsageState(lastLLMSequence, lastTurnSequence, projection) }

    constructor ()
      ensures State() == NEW_USAGE
    {
      lastLLMSequence, lastTurnSequence, projection := 0, 0, None;
    }

    /** apply reports whether the projection was touched. */
    method Apply(event: RunOutputEvent) returns (changed: bool)
      modifies this
      ensures State() == ApplyUsage(old(State()), event)
      ensures !changed ==> State() == old(State())
      ensures changed ==> State() != old(State()) && projection.Some?
    {
      var output := OutputOf(event);
      if output.None? || EventType(output.value) != CUSTOM || output.value.event.None? {
        return false;
      }
      var document := output.value.event.value;
      var name, value := TrimSpace(document.name), document.value;
      if name == RUN_LLM_USAGE {
        if output.value.sequence <= lastLLMSequence {
          return false;
        }
        lastLLMSequence := output.value.sequence;
        var next := EnsureProjection();
        next := next.(modelID := FirstNonEmpty(value.modelNames), contextWindowTokens := value.contextWindowTokens);
        projection := Some(next.(tokens := value.usage));
        return true;
      }
      if name == RUN_TURN_USAGE {
        if output.value.sequence <= lastTurnSequence {
          return false;
        }
        lastTurnSequence := output.value.sequence;
        var next := EnsureProjection();
        next := next.(tokens := value.usage);
        projection := Some(next.(requestCount := value.requestCount, toolCallCount := value.toolCallCount));
        return true;
      }
      return false;
    }

    method EnsureProjection() returns (current: UsageProjection)
      ensures current == UsageOf(State())
    {
      current := if projection.Some? then projection.value else NO_USAGE;
    }
  }
}
