/**
 * Binary primitives shared by the leaf protocol: the Python `bytes` element type
 * and the big-endian encoders that the decoders are checked against.
 */
module BinaryPrimitives {

  /** One element of a Python `bytes` object. */
  type byte = b: int | 0 <= b < 256

  type Bytes = seq<byte>

  const U16Limit: int := 0x1_0000
  const U32Limit: int := 0x1_0000_0000

  /** Two-byte big-endian encoding of an unsigned 16-bit value. */
  function Be16(v: int): (r: Bytes)
    requires 0 <= v < U16Limit
    ensures |r| == 2
  {
    [v / 0x100, v % 0x100]
  }

  /** Four-byte big-endian encoding of an unsigned 32-bit value. */
  function Be32(v: int): (r: Bytes)
    requires 0 <= v < U32Limit
    ensures |r| == 4
  {
    [v / 0x100_0000, (v / 0x1_0000) % 0x100, (v / 0x100) % 0x100, v % 0x100]
  }

  /** Quotient and remainder are unique. */
  lemma DivModByConstant(q: int, m: int, d: int)
    requires 0 < d && 0 <= m < d
    ensures (q * d + m) / d == q && (q * d + m) % d == m
  {
    var x := q * d + m;
    var k := x / d - q;
    assert d * k == m - x % d;
    if k > 0 {
      MulAtLeast(d, k);
    } else if k < 0 {
      MulAtLeast(d, -k);
    }
  }

  lemma MulAtLeast(d: int, k: int)
    requires 0 < d && 0 < k
    ensures d <= d * k
  {
    if k > 1 {
      MulAtLeast(d, k - 1);
    }
  }
}
