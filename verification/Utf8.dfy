/** UTF-8, as `utf8.ValidString` checks it and as `encoding/json` enforces it. */
module Utf8 {

  /** A byte of a multi-byte sequence after its first. */
  predicate Follows(s: string, i: nat, lo: int, hi: int) {
    i < |s| && lo <= s[i] as int <= hi
  }

  /** The length of the sequence s starts with if it is well-formed by Table 3-7 of the Unicode Standard,
      or 0. */
  function RuneLen(s: string): (n: nat)
    ensures n <= |s|
  {
    if s == "" then 0
    else
      var b := s[0] as int;
      if b < 0x80 then 1
      else if 0xC2 <= b <= 0xDF then if Follows(s, 1, 0x80, 0xBF) then 2 else 0
      else if 0xE0 <= b <= 0xEF then
        if Follows(s, 1, if b == 0xE0 then 0xA0 else 0x80, if b == 0xED then 0x9F else 0xBF)
          && Follows(s, 2, 0x80, 0xBF) then 3 else 0
      else if 0xF0 <= b <= 0xF4 then
        if Follows(s, 1, if b == 0xF0 then 0x90 else 0x80, if b == 0xF4 then 0x8F else 0xBF)
          && Follows(s, 2, 0x80, 0xBF) && Follows(s, 3, 0x80, 0xBF) then 4 else 0
      else 0
  }

  /** `utf8.ValidString`. */
  predicate ValidUtf8(s: string) {
    s == "" || (RuneLen(s) > 0 && ValidUtf8(s[RuneLen(s)..]))
  }

  /** U+FFFD. */
  const REPLACEMENT: string := [0xEF as char, 0xBF as char, 0xBD as char]

  /** A string after a trip through JSON: every byte that is not part of a well-formed sequence has become
      U+FFFD. */
  function Sanitize(s: string): string {
    if s == "" then ""
    else if RuneLen(s) > 0 then s[..RuneLen(s)] + Sanitize(s[RuneLen(s)..])
    else REPLACEMENT + Sanitize(s[1..])
  }

  lemma RuneThen(rune: string, rest: string)
    requires rune != "" && RuneLen(rune) == |rune|
    ensures RuneLen(rune + rest) == |rune|
    ensures ValidUtf8(rest) ==> ValidUtf8(rune + rest)
  {
    assert (rune + rest)[0] == rune[0];
    assert forall i | 0 <= i < |rune| :: (rune + rest)[i] == rune[i];
    assert (rune + rest)[|rune|..] == rest;
  }

  lemma RuneAlone(s: string)
    ensures RuneLen(s[..RuneLen(s)]) == RuneLen(s)
  {
  }

  lemma {:induction false} SanitizeIsValid(s: string)
    ensures ValidUtf8(Sanitize(s))
  {
    if s != "" {
      if RuneLen(s) > 0 {
        SanitizeIsValid(s[RuneLen(s)..]);
        RuneAlone(s);
        RuneThen(s[..RuneLen(s)], Sanitize(s[RuneLen(s)..]));
      } else {
        SanitizeIsValid(s[1..]);
        RuneThen(REPLACEMENT, Sanitize(s[1..]));
      }
    }
  }

  lemma {:induction false} ValidIsKept(s: string)
    requires ValidUtf8(s)
    ensures Sanitize(s) == s
  {
    if s != "" {
      ValidIsKept(s[RuneLen(s)..]);
      assert s == s[..RuneLen(s)] + s[RuneLen(s)..];
    }
  }

  /** JSON changes exactly the strings that are not UTF-8, and a second trip changes nothing more. */
  lemma SanitizeIsIdentityIff(s: string)
    ensures Sanitize(s) == s <==> ValidUtf8(s)
    ensures Sanitize(Sanitize(s)) == Sanitize(s) && ValidUtf8(Sanitize(s))
  {
    SanitizeIsValid(s);
    ValidIsKept(Sanitize(s));
    if ValidUtf8(s) {
      ValidIsKept(s);
    }
  }

  predicate Ascii(s: string) {
    forall i | 0 <= i < |s| :: s[i] as int < 0x80
  }

  lemma {:induction false} AsciiIsValid(s: string)
    requires Ascii(s)
    ensures ValidUtf8(s)
  {
    if s != "" {
      AsciiIsValid(s[1..]);
    }
  }

  // ---------------------------------------------------------------- as an encoding of code points

  /** A Unicode scalar value: a code point that is no surrogate. */
  predicate IsScalarValue(c: int) {
    0 <= c < 0xD800 || 0xE000 <= c < 0x110000
  }

  /** Its UTF-8 encoding form (section 3.9 of the Unicode Standard, Table 3-6). */
  function EncodeRune(c: int): string
    requires IsScalarValue(c)
  {
    if c < 0x80 then [c as char]
    else if c < 0x800 then [(0xC0 + c / 0x40) as char, (0x80 + c % 0x40) as char]
    else if c < 0x10000 then
      [(0xE0 + c / 0x40 / 0x40) as char, (0x80 + c / 0x40 % 0x40) as char, (0x80 + c % 0x40) as char]
    else
      [(0xF0 + c / 0x40 / 0x40 / 0x40) as char, (0x80 + c / 0x40 / 0x40 % 0x40) as char,
       (0x80 + c / 0x40 % 0x40) as char, (0x80 + c % 0x40) as char]
  }

  /** A string is UTF-8 when it encodes some scalar values. */
  ghost predicate Encodes(s: string, cs: seq<int>) {
    (forall i | 0 <= i < |cs| :: IsScalarValue(cs[i]))
    && if cs == [] then s == "" else EncodeRune(cs[0]) <= s && Encodes(s[|EncodeRune(cs[0])|..], cs[1..])
  }

  /** The last six bits, and what stands before them. */
  lemma SixBits(x: nat, d: nat)
    requires d < 0x40
    ensures (x * 0x40 + d) / 0x40 == x && (x * 0x40 + d) % 0x40 == d
  {
  }

  /** The well-formed sequences of the table are exactly the encodings of scalar values. */
  lemma RuneIsEncoded(s: string) returns (c: int)
    requires RuneLen(s) > 0
    ensures IsScalarValue(c) && s[..RuneLen(s)] == EncodeRune(c)
  {
    var b := s[0] as int;
    if b < 0x80 {
      c := b;
    } else if b <= 0xDF {
      c := (b - 0xC0) * 0x40 + (s[1] as int - 0x80);
    } else if b <= 0xEF {
      c := ThreeBytes(s);
    } else {
      c := FourBytes(s);
    }
  }

  lemma ThreeBytes(s: string) returns (c: int)
    requires RuneLen(s) == 3
    ensures IsScalarValue(c) && s[..3] == EncodeRune(c)
  {
    var hi := (s[0] as int - 0xE0) * 0x40 + (s[1] as int - 0x80);
    SixBits(s[0] as int - 0xE0, s[1] as int - 0x80);
    c := hi * 0x40 + (s[2] as int - 0x80);
    SixBits(hi, s[2] as int - 0x80);
  }

  lemma FourBytes(s: string) returns (c: int)
    requires RuneLen(s) == 4
    ensures IsScalarValue(c) && s[..4] == EncodeRune(c)
  {
    var top := (s[0] as int - 0xF0) * 0x40 + (s[1] as int - 0x80);
    SixBits(s[0] as int - 0xF0, s[1] as int - 0x80);
    var hi := top * 0x40 + (s[2] as int - 0x80);
    SixBits(top, s[2] as int - 0x80);
    c := hi * 0x40 + (s[3] as int - 0x80);
    SixBits(hi, s[3] as int - 0x80);
  }

  lemma EncodedIsRune(c: int)
    requires IsScalarValue(c)
    ensures RuneLen(EncodeRune(c)) == |EncodeRune(c)| > 0
  {
  }

  /** `utf8.ValidString` accepts exactly the strings that encode some sequence of scalar values. */
  lemma {:induction false} ValidUtf8Iff(s: string)
    ensures ValidUtf8(s) <==> exists cs :: Encodes(s, cs)
  {
    if ValidUtf8(s) {
      var cs := ValidEncodes(s);
      assert Encodes(s, cs);
    }
    if exists cs :: Encodes(s, cs) {
      var cs :| Encodes(s, cs);
      EncodedIsValid(s, cs);
    }
  }

  lemma {:induction false} ValidEncodes(s: string) returns (cs: seq<int>)
    requires ValidUtf8(s)
    ensures Encodes(s, cs)
  {
    cs := [];
    if s != "" {
      var c := RuneIsEncoded(s);
      var later := ValidEncodes(s[RuneLen(s)..]);
      cs := [c] + later;
      assert cs[1..] == later;
    }
  }

  lemma {:induction false} EncodedIsValid(s: string, cs: seq<int>)
    requires Encodes(s, cs)
    ensures ValidUtf8(s)
    decreases |cs|
  {
    if cs != [] {
      var n := |EncodeRune(cs[0])|;
      EncodedIsValid(s[n..], cs[1..]);
      EncodedIsRune(cs[0]);
      RuneThen(EncodeRune(cs[0]), s[n..]);
      assert s == EncodeRune(cs[0]) + s[n..];
    }
  }

  /** What JSON makes of a string, step by step: a well-formed sequence stays, any other byte becomes the
      encoding of U+FFFD. */
  lemma SanitizeSays(rune: string, b: char, rest: string)
    ensures Sanitize("") == ""
    ensures rune != "" && RuneLen(rune) == |rune| ==> Sanitize(rune + rest) == rune + Sanitize(rest)
    ensures RuneLen([b] + rest) == 0 ==> Sanitize([b] + rest) == EncodeRune(0xFFFD) + Sanitize(rest)
  {
    if rune != "" && RuneLen(rune) == |rune| {
      RuneThen(rune, rest);
      assert (rune + rest)[..|rune|] == rune && (rune + rest)[|rune|..] == rest;
    }
    assert ([b] + rest)[1..] == rest;
  }
}
