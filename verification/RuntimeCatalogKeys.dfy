/** The NUL-joined keys runtime references are filed under, and when a key tells its reference. */
module RuntimeCatalogKeys {
  import opened Text
  import opened Decimal
  import opened SessionTypes
  import PageTokens
  import opened RuntimeCatalog

  function Separated(s: string): seq<string> { PageTokens.Split(s, NUL) }

  lemma {:induction false} SeparatedJoin(a: string, b: string)
    ensures Separated(a + [NUL] + b) == Separated(a) + Separated(b)
    decreases |a|
  {
    var i := PageTokens.IndexOf(a, NUL);
    if i < |a| {
      var head, tail := a[..i], a[i + 1..];
      assert a == head + [NUL] + tail && NUL !in head;
      SeparatedJoin(tail, b);
      assert a + [NUL] + b == head + [NUL] + (tail + [NUL] + b);
      PageTokens.SplitJoined(head, tail + [NUL] + b, NUL);
    } else {
      PageTokens.SplitJoined(a, b, NUL);
    }
  }

  predicate Plain(s: string) { NUL !in s && Trimmed(s) }

  lemma PlainAlone(s: string)
    ensures |Separated(s)| >= 1
    ensures |Separated(s)| == 1 <==> NUL !in s
    ensures NUL !in s ==> Separated(s) == [s]
  {
    PageTokens.SplitAlone(s, NUL);
  }

  lemma NumberedProtocolPlain(protocol: int)
    requires !(0 <= protocol <= 4)
    ensures ProtocolName(protocol) == FormatInt(protocol)
    ensures Plain(FormatInt(protocol)) && (FormatInt(protocol)[0] == '-' || IsDigit(FormatInt(protocol)[0]))
  {
    var digits := FormatNat(if protocol < 0 then -protocol else protocol);
    var text := FormatInt(protocol);
    assert forall i :: 0 <= i < |digits| ==> digits[i] in digits;
    assert forall i :: 0 <= i < |text| ==> text[i] == '-' || IsDigit(text[i]);
  }

  lemma NamedProtocolPlain(protocol: int)
    requires 0 <= protocol <= 4
    ensures Plain(ProtocolName(protocol)) && ProtocolName(protocol)[0] == 'P'
  {
  }

  lemma ProtocolNamePlain(protocol: int)
    ensures Plain(ProtocolName(protocol)) && ProtocolName(protocol) != "cli" && ProtocolName(protocol) != "unspecified"
    ensures ProtocolName(protocol)[0] == 'P' <==> 0 <= protocol <= 4
    ensures !(0 <= protocol <= 4) ==> ProtocolName(protocol) == FormatInt(protocol)
  {
    if 0 <= protocol <= 4 {
      NamedProtocolPlain(protocol);
    } else {
      NumberedProtocolPlain(protocol);
    }
  }

  lemma ProtocolNameInjective(a: int, b: int)
    requires ProtocolName(a) == ProtocolName(b)
    ensures a == b
  {
    ProtocolNamePlain(a);
    ProtocolNamePlain(b);
    if !(0 <= a <= 4) {
      assert FormatInt(a) == FormatInt(b) && FormatInt(a)[0] != 'P';
      FormatIntInjective(a, b);
    }
  }

  lemma FormatIntInjective(a: int, b: int)
    requires FormatInt(a) == FormatInt(b)
    ensures a == b
  {
    var m, n := if a < 0 then -a else a, if b < 0 then -b else b;
    assert FormatNat(m)[0] in FormatNat(m) && FormatNat(n)[0] in FormatNat(n);
    assert (a < 0) == (FormatInt(a)[0] == '-') && (b < 0) == (FormatInt(b)[0] == '-');
    assert a < 0 ==> FormatInt(a)[1..] == FormatNat(m) && FormatInt(b)[1..] == FormatNat(n);
    FormatNatInjective(m, n);
  }

  lemma AccessPartsInjective(a: Access, b: Access)
    requires AccessParts(a) == AccessParts(b)
    ensures a == b
  {
    if a.ApiAccess? {
      ProtocolNamePlain(a.protocol);
      ProtocolNamePlain(b.protocol);
      TrimSpaceTrims(ProtocolName(a.protocol));
      TrimSpaceTrims(ProtocolName(b.protocol));
      assert AccessParts(a)[1] == AccessParts(b)[1];
      ProtocolNameInjective(a.protocol, b.protocol);
    }
  }

  lemma KeySeparated(ref: RuntimeRef)
    ensures Separated(CatalogKey(Some(ref)))
            == Separated(TrimSpace(ref.providerID)) + (Separated(TrimSpace(ref.surfaceID)) + AccessParts(ref.access))
  {
    var p, s, access := TrimSpace(ref.providerID), TrimSpace(ref.surfaceID), AccessParts(ref.access);
    var parts := KeyParts(ref);
    assert parts[1..] == [s] + access && parts[1..][1..] == access;
    assert Join(parts, NUL) == p + [NUL] + (s + [NUL] + Join(access, NUL));
    SeparatedJoin(p, s + [NUL] + Join(access, NUL));
    SeparatedJoin(s, Join(access, NUL));
    AccessSeparated(ref.access);
  }

  lemma PairSeparated(a: string, b: string)
    requires NUL !in a && NUL !in b
    ensures Join([a, b], NUL) == a + [NUL] + b && Separated(a + [NUL] + b) == [a, b]
  {
    assert [a, b][1..] == [b] && Join([b], NUL) == b;
    SeparatedJoin(a, b);
    PlainAlone(a);
    PlainAlone(b);
  }

  lemma AccessSeparated(access: Access)
    ensures Separated(Join(AccessParts(access), NUL)) == AccessParts(access)
  {
    var parts := AccessParts(access);
    if access.ApiAccess? {
      ProtocolNamePlain(access.protocol);
      TrimSpaceTrims(ProtocolName(access.protocol));
      PairSeparated(parts[0], parts[1]);
      assert parts == [parts[0], parts[1]];
    } else {
      assert parts == [parts[0]] && Join(parts, NUL) == parts[0] && NUL !in parts[0];
      PlainAlone(parts[0]);
    }
  }

  /** A reference as the view holds it: trimmed ids without NUL, reached by an API or a CLI. */
  predicate ViewRef(ref: RuntimeRef) {
    Plain(ref.providerID) && Plain(ref.surfaceID) && !ref.access.NoAccess?
  }

  predicate SameRef(shown: RuntimeRef, asked: RuntimeRef) {
    shown.providerID == TrimSpace(asked.providerID) && shown.surfaceID == TrimSpace(asked.surfaceID)
      && shown.access == asked.access
  }

  /** The NUL-joined key of a shown reference identifies it, whatever reference is looked up. */
  lemma KeyIdentifies(shown: RuntimeRef, asked: Option<RuntimeRef>)
    requires ViewRef(shown)
    ensures CatalogKey(Some(shown)) == CatalogKey(asked) <==> asked.Some? && SameRef(shown, asked.value)
  {
    TrimSpaceTrims(shown.providerID);
    TrimSpaceTrims(shown.surfaceID);
    KeySeparated(shown);
    PlainAlone(shown.providerID);
    PlainAlone(shown.surfaceID);
    var parts := AccessParts(shown.access);
    assert Separated(CatalogKey(Some(shown))) == [shown.providerID, shown.surfaceID] + parts;
    if asked.None? {
      PlainAlone("");
    } else {
      KeySeparated(asked.value);
      if CatalogKey(Some(shown)) == CatalogKey(asked) {
        SplitsAgree(shown, asked.value);
      }
    }
  }

  lemma SplitsAgree(shown: RuntimeRef, asked: RuntimeRef)
    requires ViewRef(shown)
    requires [shown.providerID, shown.surfaceID] + AccessParts(shown.access)
             == Separated(TrimSpace(asked.providerID))
               + (Separated(TrimSpace(asked.surfaceID)) + AccessParts(asked.access))
    ensures SameRef(shown, asked)
  {
    var p, s := Separated(TrimSpace(asked.providerID)), Separated(TrimSpace(asked.surfaceID));
    var left, right := [shown.providerID, shown.surfaceID] + AccessParts(shown.access),
        p + (s + AccessParts(asked.access));
    PlainAlone(TrimSpace(asked.providerID));
    PlainAlone(TrimSpace(asked.surfaceID));
    assert |left| == |right| && left[|left| - 1] == right[|right| - 1];
    LastPartTellsAccess(shown.access, asked.access);
    assert |p| == 1 && |s| == 1;
    assert left[2..] == AccessParts(shown.access) && right[2..] == AccessParts(asked.access);
    AccessPartsInjective(shown.access, asked.access);
    assert left[0] == p[0] && left[1] == s[0];
  }

  function LastPart(access: Access): string { AccessParts(access)[|AccessParts(access)| - 1] }

  lemma LastPartOf(access: Access)
    ensures access.ApiAccess? ==>
            LastPart(access) != "cli" && LastPart(access) != "unspecified" && |AccessParts(access)| == 2
    ensures access.CliAccess? ==> LastPart(access) == "cli" && |AccessParts(access)| == 1
    ensures access.NoAccess? ==> LastPart(access) == "unspecified" && |AccessParts(access)| == 1
  {
    if access.ApiAccess? {
      ProtocolNamePlain(access.protocol);
      TrimSpaceTrims(ProtocolName(access.protocol));
    }
  }

  /** The last part of a key is different for a CLI, for an API and without access. */
  lemma LastPartTellsAccess(a: Access, b: Access)
    requires LastPart(a) == LastPart(b)
    ensures |AccessParts(a)| == |AccessParts(b)|
  {
    LastPartOf(a);
    LastPartOf(b);
  }

  /** With NUL in an id two different references share a key, and the lookup cannot tell them apart. */
  lemma KeysCollideWithNul(shown: RuntimeRef, asked: RuntimeRef)
    requires shown == RuntimeRef(['p', NUL, 'x'], "s", CliAccess)
             && asked == RuntimeRef("p", ['x', NUL, 's'], CliAccess)
    ensures CatalogKey(Some(shown)) == CatalogKey(Some(asked)) && !SameRef(shown, asked)
  {
    TrimSpaceTrims(shown.providerID);
    TrimSpaceTrims(shown.surfaceID);
    TrimSpaceTrims(asked.providerID);
    TrimSpaceTrims(asked.surfaceID);
    var cli := "cli";
    assert KeyParts(shown) == [shown.providerID, shown.surfaceID, cli]
           && KeyParts(asked) == [asked.providerID, asked.surfaceID, cli];
    JoinThree(shown.providerID, shown.surfaceID, cli);
    JoinThree(asked.providerID, asked.surfaceID, cli);
  }

  lemma JoinThree(a: string, b: string, c: string)
    ensures Join([a, b, c], NUL) == a + [NUL] + (b + [NUL] + c)
  {
    assert [a, b, c][1..] == [b, c] && [b, c][1..] == [c];
    assert Join([b, c], NUL) == b + [NUL] + Join([c], NUL);
  }
}
