/** Decimal text of integers: strconv.FormatInt and strconv.ParseInt in base 10. */
module Decimal {
  import opened Text

  predicate IsDigit(c: char) { '0' <= c <= '9' }

  function Digit(n: nat): char
    requires n < 10
  {
    '0' + n as char
  }

  function FormatNat(n: nat): (s: string)
    ensures s != "" && forall c <- s :: IsDigit(c)
  {
    if n < 10 then [Digit(n)] else FormatNat(n / 10) + [Digit(n % 10)]
  }

  /** strconv.FormatInt(n, 10). */
  function FormatInt(n: int): string { if n < 0 then "-" + FormatNat(-n) else FormatNat(n) }

  function ParseNat(s: string): Option<nat> {
    if s == "" || !IsDigit(s[|s| - 1]) then None else
    var digit := (s[|s| - 1] - '0') as nat;
    if |s| == 1 then Some(digit) else
    match ParseNat(s[..|s| - 1])
    case None => None
    case Some(front) => Some(10 * front + digit)
  }

  const MIN_INT64 := -0x8000_0000_0000_0000
  const MAX_INT64 := 0x7fff_ffff_ffff_ffff

  predicate IsInt64(n: int) { MIN_INT64 <= n <= MAX_INT64 }

  /** strconv.ParseInt(s, 10, 64): an optional sign, digits, and a value that fits. */
  function ParseInt(s: string): Option<int> {
    var signed := s != "" && (s[0] == '-' || s[0] == '+');
    match ParseNat(if signed then s[1..] else s)
    case None => None
    case Some(magnitude) =>
      var n := (if signed && s[0] == '-' then -1 else 1) * magnitude;
      if IsInt64(n) then Some(n) else None
  }

  lemma {:induction false} ParseNatFormatNat(n: nat)
    ensures ParseNat(FormatNat(n)) == Some(n)
  {
    if n >= 10 {
      ParseNatFormatNat(n / 10);
      assert FormatNat(n)[..|FormatNat(n)| - 1] == FormatNat(n / 10);
    }
  }

  /** Parsing undoes formatting for every 64-bit integer. */
  lemma ParseIntFormatInt(n: int)
    ensures ParseInt(FormatInt(n)) == if IsInt64(n) then Some(n) else None
  {
    ParseNatFormatNat(if n < 0 then -n else n);
    assert n < 0 ==> FormatInt(n)[1..] == FormatNat(-n);
    assert n >= 0 ==> FormatInt(n)[0] in FormatInt(n);
  }

  lemma FormatNatInjective(m: nat, n: nat)
    requires FormatNat(m) == FormatNat(n)
    ensures m == n
  {
    ParseNatFormatNat(m);
    ParseNatFormatNat(n);
  }
}
