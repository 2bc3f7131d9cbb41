/** Fixed-width unsigned integers on the wire. */
module Framing {
  import opened Basics

  const WORD: nat := 0x1_0000_0000

  /** Big-endian, as `struct.pack("!I", n)`. */
  function BigEndian(n: nat): (b: Bytes)
    requires n < WORD
    ensures |b| == 4
  {
    var q1 := n / 256;
    var q2 := q1 / 256;
    [q2 / 256, q2 % 256, q1 % 256, n % 256]
  }

  function Power(base: nat, exponent: nat): (p: nat)
    ensures base > 0 ==> p > 0
  {
    if exponent == 0 then 1 else base * Power(base, exponent - 1)
  }

  /** Network order: the most significant digit to base 256 comes first. */
  lemma BigEndianIsNetworkOrder(n: nat, i: nat)
    requires n < WORD && i < 4
    ensures BigEndian(n)[i] == n / Power(256, 3 - i) % 256
  {
    assert Power(256, 0) == 1 && Power(256, 1) == 256 && Power(256, 2) == 65536 && Power(256, 3) == 16777216;
    assert n / 256 / 256 == n / 65536 && n / 256 / 256 / 256 == n / 16777216;
  }

  function FromBigEndian(b: Bytes): (n: nat)
    requires |b| == 4
    ensures n < WORD
  {
    var b0: int, b1: int, b2: int, b3: int := b[0], b[1], b[2], b[3];
    ((b0 * 256 + b1) * 256 + b2) * 256 + b3
  }

  lemma BigEndianRoundTrip(n: nat)
    requires n < WORD
    ensures FromBigEndian(BigEndian(n)) == n
  {
  }

  lemma BigEndianRoundTripBack(b: Bytes)
    requires |b| == 4
    ensures BigEndian(FromBigEndian(b)) == b
  {
    var b0: int, b1: int, b2: int, b3: int := b[0], b[1], b[2], b[3];
    var n := FromBigEndian(b);
    assert n / 256 == (b0 * 256 + b1) * 256 + b2 && n % 256 == b3;
    assert n / 256 / 256 == b0 * 256 + b1 && n / 256 % 256 == b2;
    assert n / 256 / 256 / 256 == b0 && n / 256 / 256 % 256 == b1;
  }
}
