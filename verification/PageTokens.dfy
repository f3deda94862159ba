/** The text inside page tokens: fields joined by '|', and the codecs around them. */
module PageTokens {
  import opened Text
  import opened Decimal

  // ---------------------------------------------------------------- strings.Split and strings.Cut

  /** The index of the first `c`, or the length. */
  function IndexOf(s: string, c: char): (i: nat)
    ensures i <= |s| && forall j :: 0 <= j < i ==> s[j] != c
    ensures i < |s| ==> s[i] == c
  {
    if s == "" || s[0] == c then 0 else IndexOf(s[1..], c) + 1
  }

  /** strings.Cut: the text before and after the first separator. */
  function CutAt(s: string, c: char): Option<(string, string)> {
    var i := IndexOf(s, c);
    if i < |s| then Some((s[..i], s[i + 1..])) else None
  }

  /** strings.Split for a one-character separator. */
  function Split(s: string, c: char): (parts: seq<string>)
    ensures parts != []
    decreases |s|
  {
    var i := IndexOf(s, c);
    if i < |s| then [s[..i]] + Split(s[i + 1..], c) else [s]
  }

  lemma IndexOfJoined(a: string, b: string, c: char)
    requires c !in a
    ensures IndexOf(a + [c] + b, c) == |a|
    ensures (a + [c] + b)[..|a|] == a && (a + [c] + b)[|a| + 1..] == b
  {
    var s := a + [c] + b;
    assert s[|a|] == c && forall j :: 0 <= j < |a| ==> s[j] == a[j] && s[j] in a;
  }

  lemma SplitJoined(a: string, b: string, c: char)
    requires c !in a
    ensures Split(a + [c] + b, c) == [a] + Split(b, c)
    ensures CutAt(a + [c] + b, c) == Some((a, b))
  {
    IndexOfJoined(a, b, c);
  }

  lemma JoinedTail(a: string, b: string, rest: string, c: char)
    ensures a + [c] + b + [c] + rest == a + [c] + (b + [c] + rest)
  {
  }

  lemma SplitThree(a: string, b: string, rest: string, c: char)
    requires c !in a && c !in b
    ensures Split(a + [c] + b + [c] + rest, c) == [a] + ([b] + Split(rest, c))
  {
    var tail := b + [c] + rest;
    assert Split(tail, c) == [b] + Split(rest, c) by { SplitJoined(b, rest, c); }
    assert Split(a + [c] + tail, c) == [a] + Split(tail, c) by { SplitJoined(a, tail, c); }
    assert a + [c] + b + [c] + rest == a + [c] + tail by { JoinedTail(a, b, rest, c); }
  }

  lemma SplitAlone(s: string, c: char)
    ensures |Split(s, c)| == 1 <==> c !in s
    ensures c !in s ==> Split(s, c) == [s]
  {
    assert IndexOf(s, c) == |s| ==> c !in s;
  }

  // ---------------------------------------------------------------- codecs

  /** Microseconds of an instant, as timestamptz stores it. */
  type Instant = int

  const FIRST_INSTANT := -62167219200_000000
  const LAST_INSTANT := 253402300799_999999

  /** Instants whose year has four digits, which is what RFC 3339 section 5.6 writes. */
  predicate Printable(t: Instant) { FIRST_INSTANT <= t <= LAST_INSTANT }

  /** time.Format and time.Parse with RFC3339Nano, and base64 with the URL alphabet (RFC 4648 section 5), unpadded. */
  datatype Codec = Codec(
    format: Instant -> string, parse: string -> Option<Instant>,
    encode: string -> string, decode: string -> Option<string>)

  ghost predicate Lawful(codec: Codec) {
    && (forall t :: codec.parse(codec.format(t)) == if Printable(t) then Some(t) else None)
    && (forall t :: '|' !in codec.format(t))
    && (forall s :: codec.decode(codec.encode(s)) == Some(s))
    && (forall s :: Trimmed(codec.encode(s)) && (s != "" ==> codec.encode(s) != ""))
  }

  lemma FormatIntPlain(n: int)
    ensures '|' !in FormatInt(n)
  {
    assert !IsDigit('|');
    assert forall c <- FormatNat(if n < 0 then -n else n) :: IsDigit(c);
  }

  /** The laws can be met: decimal microseconds between fixed marks meet them. */
  lemma LawfulCodecExists() returns (codec: Codec)
    ensures Lawful(codec)
  {
    codec := Codec(
      t => FormatInt(t),
      s => if ParseInt(s).Some? && Printable(ParseInt(s).value) then ParseInt(s) else None,
      s => "." + s + ".",
      s => if |s| < 2 then None else Some(s[1..|s| - 1]));
    forall t ensures codec.parse(codec.format(t)) == (if Printable(t) then Some(t) else None)
      && '|' !in codec.format(t) {
      ParseIntFormatInt(t);
      FormatIntPlain(t);
    }
    assert !IsSpace('.');
  }
}
