/** Byte strings and the `Buffer` hex codec: `toString("hex")` writes two
    lower-case digits per byte; `Buffer.from(s, "hex")` reads digit pairs from
    the front of `s` and stops at the first pair that is not hexadecimal. */
module Hex {

  type Byte = x: int | 0 <= x < 256

  predicate IsHexDigit(c: char) {
    ('0' <= c <= '9') || ('a' <= c <= 'f') || ('A' <= c <= 'F')
  }

  predicate IsLowerHexDigit(c: char) {
    ('0' <= c <= '9') || ('a' <= c <= 'f')
  }

  function DigitValue(c: char): (v: nat)
    requires IsHexDigit(c)
    ensures v < 16
  {
    if '0' <= c <= '9' then c as int - '0' as int
    else if 'a' <= c <= 'f' then c as int - 'a' as int + 10
    else c as int - 'A' as int + 10
  }

  /** The lower-case digit of a value below 16. */
  function DigitChar(v: nat): (c: char)
    requires v < 16
    ensures IsLowerHexDigit(c) && DigitValue(c) == v
  {
    if v < 10 then ('0' as int + v) as char else ('a' as int + v - 10) as char
  }

  /** The lower-case form of a hexadecimal digit. */
  function LowerDigit(c: char): (d: char)
    requires IsHexDigit(c)
    ensures IsLowerHexDigit(d) && DigitValue(d) == DigitValue(c)
  {
    DigitChar(DigitValue(c))
  }

  /** The two lower-case digits of one byte. */
  function ByteToHex(b: Byte): (r: string)
    ensures |r| == 2 && IsLowerHexDigit(r[0]) && IsLowerHexDigit(r[1])
    ensures DigitValue(r[0]) * 16 + DigitValue(r[1]) == b
  {
    [DigitChar(b / 16), DigitChar(b % 16)]
  }

  /** `Buffer.from(bytes).toString("hex")`. */
  function ToHex(bytes: seq<Byte>): (r: string)
    ensures |r| == 2 * |bytes|
    ensures forall i :: 0 <= i < |r| ==> IsLowerHexDigit(r[i])
  {
    if |bytes| == 0 then "" else ByteToHex(bytes[0]) + ToHex(bytes[1..])
  }

  /** `Buffer.from(s, "hex")`: decodes leading digit pairs, stops at the first bad pair. */
  function FromHex(s: string): (r: seq<Byte>)
    ensures 2 * |r| <= |s|
  {
    if |s| < 2 || !IsHexDigit(s[0]) || !IsHexDigit(s[1]) then []
    else [DigitValue(s[0]) * 16 + DigitValue(s[1])] + FromHex(s[2..])
  }

  /** A string made only of hexadecimal digit pairs. */
  predicate WellFormed(s: string) {
    |s| % 2 == 0 && forall i :: 0 <= i < |s| ==> IsHexDigit(s[i])
  }

  function Lower(s: string): (r: string)
    requires forall i :: 0 <= i < |s| ==> IsHexDigit(s[i])
    ensures |r| == |s|
    ensures forall i :: 0 <= i < |s| ==> r[i] == LowerDigit(s[i])
  {
    if |s| == 0 then "" else [LowerDigit(s[0])] + Lower(s[1..])
  }

  /** Decoding undoes encoding. */
  lemma {:induction false} FromHexToHex(bytes: seq<Byte>)
    ensures FromHex(ToHex(bytes)) == bytes
  {
    if |bytes| > 0 {
      var h := ToHex(bytes);
      var p := ByteToHex(bytes[0]);
      assert h == p + ToHex(bytes[1..]);
      assert h[2..] == ToHex(bytes[1..]);
      assert h[0] == p[0] && h[1] == p[1];
      FromHexToHex(bytes[1..]);
    }
  }

  /** Encoding undoes decoding on a well-formed string, up to letter case. */
  lemma {:induction false} ToHexFromHex(s: string)
    requires WellFormed(s)
    ensures ToHex(FromHex(s)) == Lower(s)
  {
    if |s| > 0 {
      var b: Byte := DigitValue(s[0]) * 16 + DigitValue(s[1]);
      var rest := FromHex(s[2..]);
      var r := [b] + rest;
      assert FromHex(s) == r;
      assert r[0] == b && r[1..] == rest;
      assert ToHex(r) == ByteToHex(b) + ToHex(rest);
      WellFormedTail(s);
      ToHexFromHex(s[2..]);
      PairToHex(s[0], s[1]);
      LowerPair(s);
    }
  }

  lemma WellFormedTail(s: string)
    requires WellFormed(s) && |s| >= 2
    ensures WellFormed(s[2..])
  {
    forall i | 0 <= i < |s[2..]| ensures IsHexDigit(s[2..][i]) {
      assert s[2..][i] == s[i + 2];
    }
  }

  /** Re-encoding one decoded pair gives the pair in lower case. */
  lemma PairToHex(c0: char, c1: char)
    requires IsHexDigit(c0) && IsHexDigit(c1)
    ensures ByteToHex(DigitValue(c0) * 16 + DigitValue(c1)) == [LowerDigit(c0), LowerDigit(c1)]
  {
    var p := ByteToHex(DigitValue(c0) * 16 + DigitValue(c1));
    DigitPairUnique(p[0], p[1], LowerDigit(c0), LowerDigit(c1));
  }

  lemma LowerPair(s: string)
    requires |s| >= 2 && forall i :: 0 <= i < |s| ==> IsHexDigit(s[i])
    ensures Lower(s) == [LowerDigit(s[0]), LowerDigit(s[1])] + Lower(s[2..])
  {
    var t := s[1..];
    assert t[1..] == s[2..];
    assert Lower(t) == [LowerDigit(t[0])] + Lower(s[2..]);
    assert Lower(s) == [LowerDigit(s[0])] + Lower(t);
  }

  /** Two lower-case digit pairs with the same value are the same pair. */
  lemma DigitPairUnique(a0: char, a1: char, b0: char, b1: char)
    requires IsLowerHexDigit(a0) && IsLowerHexDigit(a1) && IsLowerHexDigit(b0) && IsLowerHexDigit(b1)
    requires DigitValue(a0) * 16 + DigitValue(a1) == DigitValue(b0) * 16 + DigitValue(b1)
    ensures a0 == b0 && a1 == b1
  {
  }

  /** Hex encoding is injective, so a public key is recovered from its encoding. */
  lemma ToHexInjective(a: seq<Byte>, b: seq<Byte>)
    requires ToHex(a) == ToHex(b)
    ensures a == b
  {
    FromHexToHex(a);
    FromHexToHex(b);
  }
}
