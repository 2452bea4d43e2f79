/** UUIDs as Python's `uuid` module reads and prints them: `UUID(s)` parses a
    string, `str(u)` prints the canonical 8-4-4-4-12 lowercase form. */
module Uuids {
  import opened Wrappers
  import opened Text

  type Nibble = x: int | 0 <= x < 16

  /** The 128 bits of a UUID as 32 hexadecimal digits, most significant first.
      Two UUIDs are equal exactly when their digits are. */
  type Uuid = s: seq<Nibble> | |s| == 32 witness seq(32, i => 0)

  predicate IsHexChar(c: char)
  {
    '0' <= c <= '9' || 'a' <= c <= 'f' || 'A' <= c <= 'F'
  }

  predicate IsLowerHexChar(c: char)
  {
    '0' <= c <= '9' || 'a' <= c <= 'f'
  }

  predicate AllHex(s: string)
  {
    forall i :: 0 <= i < |s| ==> IsHexChar(s[i])
  }

  predicate AllLowerHex(s: string)
  {
    forall i :: 0 <= i < |s| ==> IsLowerHexChar(s[i])
  }

  function HexChar(n: Nibble): (c: char)
    ensures IsLowerHexChar(c)
  {
    "0123456789abcdef"[n]
  }

  /** The value of one hexadecimal digit, either case. */
  function HexValue(c: char): (n: Nibble)
    requires IsHexChar(c)
    ensures IsLowerHexChar(c) ==> HexChar(n) == c
  {
    if '0' <= c <= '9' then (c as int) - ('0' as int)
    else if 'a' <= c <= 'f' then (c as int) - ('a' as int) + 10
    else (c as int) - ('A' as int) + 10
  }

  lemma HexValueOfHexChar(n: Nibble)
    ensures HexValue(HexChar(n)) == n
  {
  }

  function Hex(ns: seq<Nibble>): (s: string)
    ensures |s| == |ns| && AllLowerHex(s)
  {
    seq(|ns|, i requires 0 <= i < |ns| => HexChar(ns[i]))
  }

  function DecodeHex(h: string): (ns: seq<Nibble>)
    requires AllHex(h)
    ensures |ns| == |h|
  {
    seq(|h|, i requires 0 <= i < |h| => HexValue(h[i]))
  }

  /** Five digit groups joined by hyphens. */
  function Dashed(g1: string, g2: string, g3: string, g4: string, g5: string): string
  {
    g1 + "-" + g2 + "-" + g3 + "-" + g4 + "-" + g5
  }

  /** `str(u)`: the groups of 8, 4, 4, 4 and 12 lowercase digits, joined by hyphens. */
  function Format(u: Uuid): (s: string)
    ensures IsCanonical(s)
  {
    DashedIsCanonical(Hex(u[..8]), Hex(u[8..12]), Hex(u[12..16]), Hex(u[16..20]), Hex(u[20..]));
    Dashed(Hex(u[..8]), Hex(u[8..12]), Hex(u[12..16]), Hex(u[16..20]), Hex(u[20..]))
  }

  lemma DashedIsCanonical(g1: string, g2: string, g3: string, g4: string, g5: string)
    requires |g1| == 8 && |g2| == 4 && |g3| == 4 && |g4| == 4 && |g5| == 12
    requires AllLowerHex(g1) && AllLowerHex(g2) && AllLowerHex(g3) && AllLowerHex(g4) && AllLowerHex(g5)
    ensures IsCanonical(Dashed(g1, g2, g3, g4, g5))
  {
    var s := Dashed(g1, g2, g3, g4, g5);
    assert s[..8] == g1 && s[9..13] == g2 && s[14..18] == g3 && s[19..23] == g4 && s[24..] == g5;
  }

  /** The form `str(u)` prints: 36 characters, hyphens at positions 8, 13, 18 and 23,
      lowercase hexadecimal digits everywhere else. */
  predicate IsCanonical(s: string)
  {
    && |s| == 36
    && s[8] == '-' && s[13] == '-' && s[18] == '-' && s[23] == '-'
    && AllLowerHex(s[..8]) && AllLowerHex(s[9..13]) && AllLowerHex(s[14..18])
    && AllLowerHex(s[19..23]) && AllLowerHex(s[24..])
  }

  /** `UUID(s)`: drop every `urn:` and then every `uuid:`, strip braces from both
      ends, drop every hyphen; what remains must be exactly 32 hexadecimal digits.
      `None` stands for the `ValueError` Python raises otherwise. */
  function Parse(s: string): (r: Option<Uuid>)
    ensures r.Some? <==> |Normalize(s)| == 32 && AllHex(Normalize(s))
    ensures r.Some? ==> Hex(r.value) == LowerHex(Normalize(s))
  {
    var h := Normalize(s);
    if |h| == 32 && AllHex(h) then
      HexOfDecodeHexAnyCase(h);
      Some(DecodeHex(h))
    else None
  }

  function Normalize(s: string): string
  {
    var t := RemoveSubstring(RemoveSubstring(s, "urn:"), "uuid:");
    RemoveChar(Strip(t, {'{', '}'}), '-')
  }

  // ---------------------------------------------------------------------

  lemma DecodeHexOfHex(ns: seq<Nibble>)
    ensures DecodeHex(Hex(ns)) == ns
  {
  }

  /** A hexadecimal digit in lower case. */
  function LowerHexChar(c: char): (l: char)
    requires IsHexChar(c)
    ensures IsLowerHexChar(l)
  {
    if 'A' <= c <= 'F' then (c as int - 'A' as int + 'a' as int) as char else c
  }

  function LowerHex(h: string): (l: string)
    requires AllHex(h)
    ensures |l| == |h|
  {
    seq(|h|, i requires 0 <= i < |h| => LowerHexChar(h[i]))
  }

  lemma HexCharOfValue(c: char)
    requires IsHexChar(c)
    ensures HexChar(HexValue(c)) == LowerHexChar(c)
  {
    if 'A' <= c <= 'F' {
      var l := LowerHexChar(c);
      assert HexValue(c) == HexValue(l);
    }
  }

  /** Decoding digits of either case and printing them again gives the digits in
      lower case. */
  lemma HexOfDecodeHexAnyCase(h: string)
    requires AllHex(h)
    ensures Hex(DecodeHex(h)) == LowerHex(h)
  {
    forall i | 0 <= i < |h|
      ensures Hex(DecodeHex(h))[i] == LowerHex(h)[i]
    {
      HexCharOfValue(h[i]);
    }
  }

  lemma HexOfDecodeHex(h: string)
    requires AllLowerHex(h)
    ensures AllHex(h) && Hex(DecodeHex(h)) == h
  {
  }

  lemma HexHasNoHyphen(g: string)
    requires AllHex(g)
    ensures RemoveChar(g, '-') == g
  {
    RemoveCharAbsent(g, '-');
  }

  lemma RemoveHyphenBetween(a: string, b: string)
    ensures RemoveChar(a + "-" + b, '-') == RemoveChar(a, '-') + RemoveChar(b, '-')
  {
    RemoveCharAppend(a + "-", b, '-');
    RemoveCharAppend(a, "-", '-');
    assert RemoveChar("-", '-') == "";
  }

  lemma DashedRemoveHyphens(g1: string, g2: string, g3: string, g4: string, g5: string)
    requires AllHex(g1) && AllHex(g2) && AllHex(g3) && AllHex(g4) && AllHex(g5)
    ensures RemoveChar(Dashed(g1, g2, g3, g4, g5), '-') == g1 + g2 + g3 + g4 + g5
  {
    HexHasNoHyphen(g1);
    HexHasNoHyphen(g2);
    HexHasNoHyphen(g3);
    HexHasNoHyphen(g4);
    HexHasNoHyphen(g5);
    var a1 := g1;
    var a2 := a1 + "-" + g2;
    var a3 := a2 + "-" + g3;
    var a4 := a3 + "-" + g4;
    var a5 := a4 + "-" + g5;
    assert a5 == Dashed(g1, g2, g3, g4, g5);
    RemoveHyphenBetween(a1, g2);
    RemoveHyphenBetween(a2, g3);
    RemoveHyphenBetween(a3, g4);
    RemoveHyphenBetween(a4, g5);
  }

  lemma NoLetterU(s: string)
    requires forall i :: 0 <= i < |s| ==> IsHexChar(s[i]) || s[i] == '-'
    ensures 'u' !in s
  {
  }

  /** A string with no `u`, starting and ending with neither brace, passes the
      `urn:`/`uuid:`/brace steps unchanged. */
  lemma NormalizeWithoutPrefixes(s: string)
    requires |s| > 0 && IsHexChar(s[0]) && IsHexChar(s[|s| - 1])
    requires 'u' !in s
    ensures Normalize(s) == RemoveChar(s, '-')
  {
    var t1 := RemoveSubstring(s, "urn:");
    RemoveSubstringAbsent(s, "urn:");
    var t2 := RemoveSubstring(t1, "uuid:");
    RemoveSubstringAbsent(t1, "uuid:");
    assert t2 == s;
    StripUnchanged(s, {'{', '}'});
    assert Strip(t2, {'{', '}'}) == s;
  }

  lemma NormalizeDashed(s: string)
    requires |s| > 0 && IsHexChar(s[0]) && IsHexChar(s[|s| - 1])
    requires forall i :: 0 <= i < |s| ==> IsHexChar(s[i]) || s[i] == '-'
    ensures Normalize(s) == RemoveChar(s, '-')
  {
    NoLetterU(s);
    NormalizeWithoutPrefixes(s);
  }

  /** The character classes of a canonical string, position by position. */
  lemma CanonicalChars(s: string)
    requires IsCanonical(s)
    ensures forall i :: 0 <= i < |s| ==> IsHexChar(s[i]) || s[i] == '-'
    ensures IsHexChar(s[0]) && IsHexChar(s[|s| - 1])
  {
    forall i | 0 <= i < |s| ensures IsHexChar(s[i]) || s[i] == '-' {
      if i < 8 { assert s[i] == s[..8][i]; }
      else if 8 < i < 13 { assert s[i] == s[9..13][i - 9]; }
      else if 13 < i < 18 { assert s[i] == s[14..18][i - 14]; }
      else if 18 < i < 23 { assert s[i] == s[19..23][i - 19]; }
      else if 23 < i { assert s[i] == s[24..][i - 24]; }
    }
  }

  lemma CanonicalGroups(s: string)
    requires IsCanonical(s)
    ensures s == Dashed(s[..8], s[9..13], s[14..18], s[19..23], s[24..])
    ensures AllHex(s[..8]) && AllHex(s[9..13]) && AllHex(s[14..18])
    ensures AllHex(s[19..23]) && AllHex(s[24..])
  {
  }

  lemma NormalizeCanonicalDashes(s: string)
    requires IsCanonical(s)
    ensures Normalize(s) == RemoveChar(s, '-')
  {
    CanonicalChars(s);
    NormalizeDashed(s);
  }

  /** `UUID` reduces a canonical string to its 32 digits. */
  lemma NormalizeCanonical(s: string)
    requires IsCanonical(s)
    ensures Normalize(s) == s[..8] + s[9..13] + s[14..18] + s[19..23] + s[24..]
  {
    NormalizeCanonicalDashes(s);
    CanonicalGroups(s);
    DashedRemoveHyphens(s[..8], s[9..13], s[14..18], s[19..23], s[24..]);
  }

  lemma FormatDigits(u: Uuid)
    ensures var s := Format(u); s[..8] + s[9..13] + s[14..18] + s[19..23] + s[24..] == Hex(u)
  {
    var s := Format(u);
    assert s[..8] == Hex(u[..8]) && s[9..13] == Hex(u[8..12]) && s[14..18] == Hex(u[12..16]);
    assert s[19..23] == Hex(u[16..20]) && s[24..] == Hex(u[20..]);
    assert u == u[..8] + u[8..12] + u[12..16] + u[16..20] + u[20..];
  }

  lemma ParseNormalized(s: string, h: string)
    requires Normalize(s) == h && |h| == 32 && AllHex(h)
    ensures Parse(s) == Some(DecodeHex(h))
  {
  }

  /** Parsing what `str(u)` printed gives back `u`. */
  lemma ParseFormat(u: Uuid)
    ensures Parse(Format(u)) == Some(u)
  {
    FormatDigits(u);
    NormalizeCanonical(Format(u));
    ParseNormalized(Format(u), Hex(u));
    DecodeHexOfHex(u);
  }

  /** Every canonical string is what `str` prints for the UUID it parses to:
      together with `ParseFormat`, `Format` is a bijection onto canonical strings. */
  lemma CanonicalRoundTrip(s: string)
    requires IsCanonical(s)
    ensures Parse(s).Some? && Format(Parse(s).value) == s
  {
    var g1, g2, g3, g4, g5 := s[..8], s[9..13], s[14..18], s[19..23], s[24..];
    var h := g1 + g2 + g3 + g4 + g5;
    DecodeGroups(g1, g2, g3, g4, g5);
    NormalizeCanonical(s);
    ParseNormalized(s, h);
    CanonicalGroups(s);
  }

  lemma DecodeGroups(g1: string, g2: string, g3: string, g4: string, g5: string)
    requires |g1| == 8 && |g2| == 4 && |g3| == 4 && |g4| == 4 && |g5| == 12
    requires AllLowerHex(g1) && AllLowerHex(g2) && AllLowerHex(g3) && AllLowerHex(g4) && AllLowerHex(g5)
    ensures var h := g1 + g2 + g3 + g4 + g5; AllHex(h) && |h| == 32
    ensures var h := g1 + g2 + g3 + g4 + g5; Format(DecodeHex(h)) == Dashed(g1, g2, g3, g4, g5)
  {
    var h := g1 + g2 + g3 + g4 + g5;
    assert AllLowerHex(h);
    var u: Uuid := DecodeHex(h);
    assert u[..8] == DecodeHex(g1) && u[8..12] == DecodeHex(g2) && u[12..16] == DecodeHex(g3);
    assert u[16..20] == DecodeHex(g4) && u[20..] == DecodeHex(g5);
    HexOfDecodeHex(g1);
    HexOfDecodeHex(g2);
    HexOfDecodeHex(g3);
    HexOfDecodeHex(g4);
    HexOfDecodeHex(g5);
  }

  lemma NormalizeBraced(s: string)
    requires IsCanonical(s)
    ensures Normalize("{" + s + "}") == RemoveChar(s, '-')
  {
    CanonicalChars(s);
    NoLetterU(s);
    var b := "{" + s + "}";
    assert 'u' !in b;
    var t1 := RemoveSubstring(b, "urn:");
    RemoveSubstringAbsent(b, "urn:");
    var t2 := RemoveSubstring(t1, "uuid:");
    RemoveSubstringAbsent(t1, "uuid:");
    assert t2 == b;
    StripEnclosed(s, {'{', '}'}, '{', '}');
    assert Strip(t2, {'{', '}'}) == s;
  }

  /** `UUID` also reads the braced form `{...}` of the canonical string. */
  lemma ParseBraced(u: Uuid)
    ensures Parse("{" + Format(u) + "}") == Some(u)
  {
    var s := Format(u);
    NormalizeBraced(s);
    NormalizeCanonicalDashes(s);
    NormalizeCanonical(s);
    FormatDigits(u);
    ParseNormalized("{" + s + "}", Hex(u));
    DecodeHexOfHex(u);
  }
}
