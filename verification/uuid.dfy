/** `assert_uuid(text)`, which is `str(uuid.UUID(text, version=4))`: the text
    form of RFC 4122 section 3, with the variant field (section 4.1.1) and the
    version field (section 4.1.3) overwritten rather than checked. */
module Uuid {
  import opened Wrappers
  import opened Text

  predicate IsHexChar(c: char) {
    '0' <= c <= '9' || 'a' <= c <= 'f' || 'A' <= c <= 'F'
  }

  predicate IsLowerHexChar(c: char) {
    '0' <= c <= '9' || 'a' <= c <= 'f'
  }

  predicate IsHexString(h: string) {
    forall i :: 0 <= i < |h| ==> IsHexChar(h[i])
  }

  function HexValue(c: char): (v: nat)
    requires IsHexChar(c)
    ensures v < 16
  {
    if '0' <= c <= '9' then c as int - '0' as int
    else if 'a' <= c <= 'f' then c as int - 'a' as int + 10
    else c as int - 'A' as int + 10
  }

  /** The lower-case digit Python's `'%032x'` prints for a nibble. */
  function HexChar(v: nat): (c: char)
    requires v < 16
    ensures IsLowerHexChar(c) && HexValue(c) == v
  {
    if v < 10 then ('0' as int + v) as char else ('a' as int + v - 10) as char
  }

  lemma LowerHexRoundTrip(c: char)
    requires IsLowerHexChar(c)
    ensures HexChar(HexValue(c)) == c
  {
  }

  const Braces: set<char> := {'{', '}'}

  /** The text `uuid.UUID` hands to `int(hex, 16)`: every "urn:" and then every
      "uuid:" removed, surrounding braces stripped, every hyphen removed. */
  function Clean(s: string): string {
    Without(StripRight(StripLeft(RemoveAll(RemoveAll(s, "urn:"), "uuid:"), Braces), Braces), '-')
  }

  function Digits(h: string): (d: seq<nat>)
    requires IsHexString(h)
    ensures |d| == |h| && forall i :: 0 <= i < |d| ==> d[i] < 16
  {
    seq(|h|, i requires 0 <= i < |h| => HexValue(h[i]))
  }

  predicate IsNibbles(d: seq<nat>) {
    |d| == 32 && forall i :: 0 <= i < 32 ==> d[i] < 16
  }

  /** `version=4`: nibble 12 becomes 4 and the top two bits of nibble 16 become 10. */
  function ForceVersion4(d: seq<nat>): (e: seq<nat>)
    requires IsNibbles(d)
    ensures IsNibbles(e) && e[12] == 4 && 8 <= e[16] < 12
  {
    d[12 := 4][16 := 8 + d[16] % 4]
  }

  /** Positions of the four hyphens in the 8-4-4-4-12 text form. */
  predicate IsDashPos(i: int) {
    i == 8 || i == 13 || i == 18 || i == 23
  }

  /** The nibble printed at text position `i` (not a hyphen position). */
  function DigitIndex(i: int): (k: int)
    requires 0 <= i < 36 && !IsDashPos(i)
    ensures 0 <= k < 32
  {
    if i < 8 then i else if i < 13 then i - 1 else if i < 18 then i - 2 else if i < 23 then i - 3 else i - 4
  }

  /** `str(UUID)`: 32 lower-case nibbles with hyphens after 8, 12, 16 and 20 of them. */
  function Format(d: seq<nat>): (t: string)
    requires IsNibbles(d)
    ensures |t| == 36
  {
    seq(36, i requires 0 <= i < 36 => if IsDashPos(i) then '-' else HexChar(d[DigitIndex(i)]))
  }

  /** Text of the 8-4-4-4-12 form, hex digits in either case. */
  predicate IsUuidShape(t: string) {
    |t| == 36 && forall i :: 0 <= i < 36 ==> if IsDashPos(i) then t[i] == '-' else IsHexChar(t[i])
  }

  /** The only text `assert_uuid` ever returns: lower case, version digit 4,
      variant digit one of 8, 9, a, b. */
  predicate IsCanonicalV4(t: string) {
    && |t| == 36
    && (forall i :: 0 <= i < 36 ==> if IsDashPos(i) then t[i] == '-' else IsLowerHexChar(t[i]))
    && t[14] == '4'
    && t[19] in {'8', '9', 'a', 'b'}
  }

  /** `assert_uuid`: None stands for the ValueError. */
  function NormalizeUuid(s: string): (r: Option<string>)
    ensures r.Some? <==> |Clean(s)| == 32 && IsHexString(Clean(s))
    ensures r.Some? ==> IsCanonicalV4(r.value)
  {
    var h := Clean(s);
    if |h| == 32 && IsHexString(h) then
      FormatCanonical(ForceVersion4(Digits(h)));
      Some(Format(ForceVersion4(Digits(h))))
    else None
  }

  lemma FormatCanonical(e: seq<nat>)
    requires IsNibbles(e) && e[12] == 4 && 8 <= e[16] < 12
    ensures IsCanonicalV4(Format(e))
  {
    var t := Format(e);
    forall i | 0 <= i < 36
      ensures if IsDashPos(i) then t[i] == '-' else IsLowerHexChar(t[i])
    {
    }
    assert t[14] == HexChar(e[12]);
    assert t[19] == HexChar(e[16]);
  }

  predicate IsValidUuid(s: string) {
    NormalizeUuid(s).Some?
  }

  predicate IsHexOrHyphens(t: string) {
    forall i :: 0 <= i < |t| ==> IsHexChar(t[i]) || t[i] == '-'
  }

  lemma RemovalsSkipHexText(t: string)
    requires IsHexOrHyphens(t)
    ensures RemoveAll(RemoveAll(t, "urn:"), "uuid:") == t
  {
    assert 'u' !in t;
    RemoveAllAbsent(t, "urn:");
    RemoveAllAbsent(t, "uuid:");
  }

  lemma StripsSkipHexText(t: string)
    requires IsHexOrHyphens(t)
    ensures StripRight(StripLeft(t, Braces), Braces) == t
  {
    assert t == [] || t[0] !in Braces;
    assert StripLeft(t, Braces) == t;
    assert t == [] || t[|t| - 1] !in Braces;
  }

  /** Text made of hex digits and hyphens passes the removal and strip steps untouched. */
  lemma HexTextOnlyLosesHyphens(t: string)
    requires IsHexOrHyphens(t)
    ensures Clean(t) == Without(t, '-')
  {
    RemovalsSkipHexText(t);
    StripsSkipHexText(t);
  }

  lemma ShapeGroups(t: string)
    requires IsUuidShape(t)
    ensures '-' !in t[0..8] && '-' !in t[9..13] && '-' !in t[14..18] && '-' !in t[19..23] && '-' !in t[24..36]
    ensures t == t[0..8] + "-" + t[9..13] + "-" + t[14..18] + "-" + t[19..23] + "-" + t[24..36]
    ensures IsHexOrHyphens(t)
  {
  }

  /** For text already in 8-4-4-4-12 form, cleaning only drops the hyphens. */
  lemma ShapeClean(t: string)
    requires IsUuidShape(t)
    ensures Clean(t) == t[0..8] + t[9..13] + t[14..18] + t[19..23] + t[24..36]
  {
    ShapeGroups(t);
    HexTextOnlyLosesHyphens(t);
    var g0, g1, g2, g3, g4 := t[0..8], t[9..13], t[14..18], t[19..23], t[24..36];
    var x1 := g0 + "-" + g1;
    var x2 := x1 + "-" + g2;
    var x3 := x2 + "-" + g3;
    WithoutAbsent(g0, '-');
    AppendDashGroup(g0, g1);
    AppendDashGroup(x1, g2);
    AppendDashGroup(x2, g3);
    AppendDashGroup(x3, g4);
  }

  /** The text position at which nibble `k` is printed. */
  function TextIndex(k: int): (i: int)
    requires 0 <= k < 32
    ensures 0 <= i < 36 && !IsDashPos(i) && DigitIndex(i) == k
  {
    if k < 8 then k else if k < 12 then k + 1 else if k < 16 then k + 2 else if k < 20 then k + 3 else k + 4
  }

  lemma GroupsIndex(t: string, c: string)
    requires |t| == 36 && c == t[0..8] + t[9..13] + t[14..18] + t[19..23] + t[24..36]
    ensures |c| == 32 && forall k :: 0 <= k < 32 ==> c[k] == t[TextIndex(k)]
  {
    var c1 := t[0..8] + t[9..13];
    var c2 := c1 + t[14..18];
    var c3 := c2 + t[19..23];
    assert c == c3 + t[24..36];
    forall k | 0 <= k < 32
      ensures c[k] == t[TextIndex(k)]
    {
      if k < 20 {
        assert c[k] == c3[k];
        if k < 16 {
          assert c3[k] == c2[k];
          if k < 12 {
            assert c2[k] == c1[k];
          }
        }
      }
    }
  }

  /** Nibble `DigitIndex(i)` of the cleaned text is the character at text position `i`. */
  lemma ShapeCleanIndex(t: string)
    requires IsUuidShape(t)
    ensures |Clean(t)| == 32 && IsHexString(Clean(t))
    ensures forall i :: 0 <= i < 36 && !IsDashPos(i) ==> Clean(t)[DigitIndex(i)] == t[i]
  {
    ShapeClean(t);
    var c := Clean(t);
    GroupsIndex(t, c);
    forall i | 0 <= i < 36 && !IsDashPos(i)
      ensures c[DigitIndex(i)] == t[i]
    {
      assert TextIndex(DigitIndex(i)) == i;
    }
  }

  /** Every 8-4-4-4-12 hex text is accepted; the result is its lower-case form
      with the version digit set to 4 and the variant digit forced into 8..b. */
  lemma ShapeNormalize(t: string)
    requires IsUuidShape(t)
    ensures NormalizeUuid(t).Some?
    ensures forall i :: 0 <= i < 36 && !IsDashPos(i) && i != 14 && i != 19 ==>
              NormalizeUuid(t).value[i] == HexChar(HexValue(t[i]))
    ensures NormalizeUuid(t).value[14] == '4'
    ensures NormalizeUuid(t).value[19] == HexChar(8 + HexValue(t[19]) % 4)
  {
    ShapeCleanIndex(t);
    var c := Clean(t);
    var d := Digits(c);
    var e := ForceVersion4(d);
    var r := NormalizeUuid(t).value;
    assert r == Format(e);
    forall i | 0 <= i < 36 && !IsDashPos(i) && i != 14 && i != 19
      ensures r[i] == HexChar(HexValue(t[i]))
    {
      var k := DigitIndex(i);
      assert k != 12 && k != 16;
      assert e[k] == d[k] == HexValue(c[k]);
    }
    assert c[16] == t[19];
    assert e[16] == 8 + HexValue(t[19]) % 4;
  }

  lemma VariantDigitKept(t: string)
    requires IsCanonicalV4(t)
    ensures HexChar(8 + HexValue(t[19]) % 4) == t[19]
  {
    var v := HexValue(t[19]);
    assert 8 <= v < 12;
    LowerHexRoundTrip(t[19]);
  }

  lemma AgreeEverywhere(t: string, r: string)
    requires IsCanonicalV4(t) && IsCanonicalV4(r)
    requires forall i :: 0 <= i < 36 && !IsDashPos(i) && i != 14 && i != 19 ==> r[i] == HexChar(HexValue(t[i]))
    requires r[19] == t[19]
    ensures r == t
  {
    forall i | 0 <= i < 36
      ensures r[i] == t[i]
    {
      if !IsDashPos(i) && i != 14 && i != 19 {
        LowerHexRoundTrip(t[i]);
      }
    }
  }

  /** Canonical text is a fixed point: `assert_uuid` gives it back unchanged. */
  lemma CanonicalFixpoint(t: string)
    requires IsCanonicalV4(t)
    ensures NormalizeUuid(t) == Some(t)
  {
    assert IsUuidShape(t);
    ShapeNormalize(t);
    VariantDigitKept(t);
    AgreeEverywhere(t, NormalizeUuid(t).value);
  }

  /** `assert_uuid` is idempotent. */
  lemma NormalizeIdempotent(s: string)
    requires IsValidUuid(s)
    ensures NormalizeUuid(NormalizeUuid(s).value) == NormalizeUuid(s)
  {
    CanonicalFixpoint(NormalizeUuid(s).value);
  }

  lemma {:induction false} RemoveAllKeeps(s: string, pat: string, x: char)
    requires pat != [] && x in s && x !in pat
    ensures x in RemoveAll(s, pat)
    decreases |s|
  {
    if |s| >= |pat| {
      if s[..|pat|] == pat {
        var i :| 0 <= i < |s| && s[i] == x;
        assert i >= |pat|;
        assert s[|pat|..][i - |pat|] == x;
        RemoveAllKeeps(s[|pat|..], pat, x);
      } else if s[0] != x {
        assert x in s[1..];
        RemoveAllKeeps(s[1..], pat, x);
      }
    }
  }

  /** A character that is no hex digit and that none of the removal steps can
      touch makes the text invalid. */
  lemma StrayCharRejected(s: string, x: char)
    requires x in s && !IsHexChar(x) && x !in "urn:uuid:{}-"
    ensures NormalizeUuid(s) == None
  {
    assert x !in "urn:" && x !in "uuid:";
    RemoveAllKeeps(s, "urn:", x);
    RemoveAllKeeps(RemoveAll(s, "urn:"), "uuid:", x);
    var a := RemoveAll(RemoveAll(s, "urn:"), "uuid:");
    var b := StripLeft(a, Braces);
    var i :| 0 <= i < |a| && a[i] == x;
    assert i >= |a| - |b|;
    assert b[i - (|a| - |b|)] == x;
    var c := StripRight(b, Braces);
    var j :| 0 <= j < |b| && b[j] == x;
    assert j < |c|;
    assert c[j] == x;
    WithoutKeeps(c, '-', x);
  }
}
