/** The text of a turn message: decoding, normalizing and printing it again. */
module MessageBodies {
  import opened Text
  import PageTokens

  /** An AG-UI message; `rest` is everything but its id and role. */
  datatype AguiMessage = AguiMessage(id: string, role: string, rest: string)

  /** The JSON reader and printer, and the snapshot event's check of a message. */
  datatype MessageCodec = MessageCodec(
    decode: string -> Option<AguiMessage>, valid: AguiMessage -> bool, marshal: AguiMessage -> string)

  /** What is printed is text, and reads back as the message. */
  ghost predicate Faithful(codec: MessageCodec) {
    forall m :: codec.marshal(m) != "" && codec.decode(codec.marshal(m)) == Some(m)
  }

  /** NormalizeMessage; the check wants an id, among other things. */
  function NormalizeMessage(codec: MessageCodec, message: AguiMessage): Option<AguiMessage> {
    var trimmed := message.(id := TrimSpace(message.id), role := TrimSpace(message.role));
    if trimmed.id != "" && codec.valid(trimmed) then Some(trimmed) else None
  }

  /** MessageFromRaw. */
  function MessageFromRaw(codec: MessageCodec, raw: string): Option<AguiMessage> {
    var decoded := codec.decode(raw);
    if decoded.None? then None else NormalizeMessage(codec, decoded.value)
  }

  /** MessageRaw normalizes once more before it prints. */
  function MessageRaw(codec: MessageCodec, message: AguiMessage): Option<string> {
    var normalized := NormalizeMessage(codec, message);
    if normalized.None? then None else Some(codec.marshal(normalized.value))
  }

  /** The id of a message and the text it is stored as. */
  datatype Body = Body(id: string, text: string)

  /** The body of an upsert, if it is a message. */
  function NormalizeBody(codec: MessageCodec, raw: string): Option<Body> {
    if raw == "" then None else
    var message := MessageFromRaw(codec, raw);
    if message.None? then None else
    var text := MessageRaw(codec, message.value);
    if text.None? then None else Some(Body(message.value.id, text.value))
  }

  lemma NormalizedMessage(codec: MessageCodec, message: AguiMessage)
    requires NormalizeMessage(codec, message).Some?
    ensures var normalized := NormalizeMessage(codec, message).value;
            && normalized.id != "" && Trimmed(normalized.id)
            && NormalizeMessage(codec, normalized) == Some(normalized)
  {
    TrimSpaceTrims(message.id);
    TrimSpaceTrims(message.role);
  }

  /** Normalizing before printing never refuses what was read, and the id of a body is trimmed and not empty. */
  lemma BodyOfMessage(codec: MessageCodec, raw: string)
    ensures NormalizeBody(codec, raw).Some? <==> raw != "" && MessageFromRaw(codec, raw).Some?
    ensures NormalizeBody(codec, raw).Some? ==>
            NormalizeBody(codec, raw).value.id != "" && Trimmed(NormalizeBody(codec, raw).value.id)
  {
    if codec.decode(raw).Some? && NormalizeMessage(codec, codec.decode(raw).value).Some? {
      NormalizedMessage(codec, codec.decode(raw).value);
    }
  }

  /** A stored text is its own normal form: reading it gives the same id and the same text. */
  lemma StoredTextIsStable(codec: MessageCodec, raw: string)
    requires Faithful(codec) && NormalizeBody(codec, raw).Some?
    ensures NormalizeBody(codec, NormalizeBody(codec, raw).value.text) == NormalizeBody(codec, raw)
  {
    NormalizedMessage(codec, codec.decode(raw).value);
  }

  function Ones(n: nat): string { seq(n, _ => '1') }

  function Framed(m: AguiMessage): string { Ones(|m.id|) + ['|'] + (Ones(|m.role|) + ['|'] + (m.id + m.role + m.rest)) }

  function Unframed(s: string): Option<AguiMessage> {
    match PageTokens.CutAt(s, '|')
    case None => None
    case Some((a, more)) =>
      match PageTokens.CutAt(more, '|')
      case None => None
      case Some((b, text)) =>
        if |a| + |b| > |text| then None
        else Some(AguiMessage(text[..|a|], text[|a|..|a| + |b|], text[|a| + |b|..]))
  }

  /** Such codecs exist: lengths in unary before the fields make one. */
  lemma FaithfulCodecExists() returns (codec: MessageCodec)
    ensures Faithful(codec)
  {
    codec := MessageCodec(s => Unframed(s), _ => true, m => Framed(m));
    forall m: AguiMessage ensures Framed(m) != "" && Unframed(Framed(m)) == Some(m) {
      UnframedFramed(m);
    }
  }

  lemma UnframedFramed(m: AguiMessage)
    ensures Framed(m) != "" && Unframed(Framed(m)) == Some(m)
  {
    var text := m.id + m.role + m.rest;
    PageTokens.SplitJoined(Ones(|m.id|), Ones(|m.role|) + ['|'] + text, '|');
    PageTokens.SplitJoined(Ones(|m.role|), text, '|');
    var i, j := |m.id|, |m.id| + |m.role|;
    assert text[..i] == m.id && text[i..j] == m.role && text[j..] == m.rest;
    assert |Framed(m)| >= 1;
  }
}
