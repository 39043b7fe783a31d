/** UTF-8 encoding of Unicode scalar values (`str.encode("utf-8")`). */
module Utf8 {
  import opened BinaryPrimitives

  predicate IsContinuation(b: byte) {
    0x80 <= b < 0xC0
  }

  /**
   * The one to four bytes of a character. The lead byte announces the length and
   * every other byte is a continuation byte, so encodings are prefix-free;
   * characters below U+0080 are their own single byte.
   */
  function EncodeChar(c: char): (r: Bytes)
    ensures 1 <= |r| <= 4
    ensures c as int < 0x80 <==> r == [c as int]
    ensures |r| == 1 <==> c as int < 0x80
    ensures |r| == 2 <==> 0x80 <= c as int < 0x800
    ensures |r| == 3 <==> 0x800 <= c as int < 0x1_0000
    ensures |r| == 4 <==> 0x1_0000 <= c as int
    ensures DecodeChar(r) == c as int
    ensures |r| == 1 <==> r[0] < 0x80
    ensures |r| == 2 <==> 0xC0 <= r[0] < 0xE0
    ensures |r| == 3 <==> 0xE0 <= r[0] < 0xF0
    ensures |r| == 4 <==> 0xF0 <= r[0] < 0xF8
    ensures forall i | 1 <= i < |r| :: IsContinuation(r[i])
  {
    // Six payload bits per continuation byte, taken from the low end.
    var n := c as int;
    var q1 := n / 0x40;
    var q2 := q1 / 0x40;
    var q3 := q2 / 0x40;
    assert n == q1 * 0x40 + n % 0x40 && q1 == q2 * 0x40 + q1 % 0x40 && q2 == q3 * 0x40 + q2 % 0x40;
    if n < 0x80 then [n]
    else if n < 0x800 then [0xC0 + q1, 0x80 + n % 0x40]
    else if n < 0x1_0000 then [0xE0 + q2, 0x80 + q1 % 0x40, 0x80 + n % 0x40]
    else [0xF0 + q3, 0x80 + q2 % 0x40, 0x80 + q1 % 0x40, 0x80 + n % 0x40]
  }

  /** The code point spelled by one lead byte and its continuation bytes. */
  function DecodeChar(r: Bytes): int {
    if |r| == 1 then r[0] as int
    else if |r| == 2 then (r[0] as int - 0xC0) * 0x40 + (r[1] as int - 0x80)
    else if |r| == 3 then (r[0] as int - 0xE0) * 0x1000 + (r[1] as int - 0x80) * 0x40 + (r[2] as int - 0x80)
    else if |r| == 4 then
      (r[0] as int - 0xF0) * 0x4_0000 + (r[1] as int - 0x80) * 0x1000 + (r[2] as int - 0x80) * 0x40 + (r[3] as int - 0x80)
    else 0
  }

  function Encode(s: string): (r: Bytes)
    ensures |s| <= |r| <= 4 * |s|
    decreases |s|
  {
    if s == "" then [] else EncodeChar(s[0]) + Encode(s[1..])
  }

  /** An ASCII string encodes to its own code points. */
  lemma {:induction false} EncodeAscii(s: string)
    requires forall i | 0 <= i < |s| :: s[i] as int < 0x80
    ensures Encode(s) == seq(|s|, i requires 0 <= i < |s| => s[i] as int)
    decreases |s|
  {
    if s != "" {
      EncodeAscii(s[1..]);
    }
  }

  /** Different strings never share an encoding: the lead byte fixes each character's length. */
  lemma {:induction false} EncodeInjective(s1: string, s2: string)
    requires Encode(s1) == Encode(s2)
    ensures s1 == s2
    decreases |s1|
  {
    if s1 == "" || s2 == "" {
      return;
    }
    var e1, e2 := EncodeChar(s1[0]), EncodeChar(s2[0]);
    var r := Encode(s1);
    assert r == e1 + Encode(s1[1..]) && r == e2 + Encode(s2[1..]);
    assert r[0] == e1[0] == e2[0];
    assert |e1| == |e2|;
    assert e1 == r[..|e1|] == e2;
    assert s1[0] as int == DecodeChar(e1) == s2[0] as int;
    assert Encode(s1[1..]) == r[|e1|..] == Encode(s2[1..]);
    EncodeInjective(s1[1..], s2[1..]);
    assert s1 == [s1[0]] + s1[1..] && s2 == [s2[0]] + s2[1..];
  }
}
