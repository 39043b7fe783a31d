/**
 * Base16 (RFC 4648, section 8): `bytes.hex()` (lower case), `hexdigest().upper()`
 * (upper case) and `bytes.fromhex`, which accepts either case.
 */
module Hex {
  import opened Wrappers
  import opened BinaryPrimitives

  predicate IsHexDigit(c: char, upper: bool) {
    '0' <= c <= '9' || (upper && 'A' <= c <= 'F') || (!upper && 'a' <= c <= 'f')
  }

  function HexDigit(n: int, upper: bool): (c: char)
    requires 0 <= n < 16
    ensures IsHexDigit(c, upper)
  {
    if n < 10 then ('0' as int + n) as char
    else if upper then ('A' as int + n - 10) as char
    else ('a' as int + n - 10) as char
  }

  /** Value of one hexadecimal digit of either case. */
  function HexValue(c: char): (r: Option<int>)
    ensures r.Some? ==> 0 <= r.value < 16
  {
    if '0' <= c <= '9' then Some(c as int - '0' as int)
    else if 'a' <= c <= 'f' then Some(c as int - 'a' as int + 10)
    else if 'A' <= c <= 'F' then Some(c as int - 'A' as int + 10)
    else None
  }

  /** Two digits per byte, high nibble first. */
  function ToHex(b: Bytes, upper: bool): (s: string)
    ensures |s| == 2 * |b|
    ensures forall i | 0 <= i < |s| :: IsHexDigit(s[i], upper)
    decreases |b|
  {
    if b == [] then ""
    else [HexDigit(b[0] / 16, upper), HexDigit(b[0] % 16, upper)] + ToHex(b[1..], upper)
  }

  function LowerHex(b: Bytes): string { ToHex(b, false) }

  function UpperHex(b: Bytes): string { ToHex(b, true) }

  /** `bytes.fromhex` on a string of digit pairs; `None` where Python raises ValueError. */
  function FromHex(s: string): Option<Bytes>
    decreases |s|
  {
    if s == "" then Some([])
    else if |s| == 1 then None
    else
      match (HexValue(s[0]), HexValue(s[1]), FromHex(s[2..]))
      case (Some(h), Some(l), Some(rest)) => Some([h * 16 + l] + rest)
      case _ => None
  }

  /** Decoding the digits of either case gives back the bytes. */
  lemma {:induction false} FromHexToHex(b: Bytes, upper: bool)
    ensures FromHex(ToHex(b, upper)) == Some(b)
    decreases |b|
  {
    if b != [] {
      var s := ToHex(b, upper);
      assert s[2..] == ToHex(b[1..], upper);
      FromHexToHex(b[1..], upper);
      assert HexValue(s[0]) == Some(b[0] / 16);
      assert HexValue(s[1]) == Some(b[0] % 16);
      assert [b[0]] + b[1..] == b;
    }
  }
}
