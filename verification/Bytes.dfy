/** Bytes, big-endian integers and exclusive or. */
module Bytes {
  type byte = n: nat | n < 256

  /** `(n as u16).to_be_bytes()`: a longer number loses its upper bits. */
  function BE16(n: nat): seq<byte> { [n / 256 % 256, n % 256] }

  function FromBE16(hi: byte, lo: byte): nat { 256 * hi + lo }

  /** `(n as u32).to_be_bytes()`. */
  function BE32(n: nat): seq<byte> { BE16(n / 65536) + BE16(n) }

  function FromBE32(b: seq<byte>): nat
    requires |b| == 4
  {
    65536 * FromBE16(b[0], b[1]) + FromBE16(b[2], b[3])
  }

  lemma BE16Exact(n: nat)
    requires n < 65536
    ensures FromBE16(BE16(n)[0], BE16(n)[1]) == n
  {
    assert n == 256 * (n / 256) + n % 256;
  }

  lemma BE16Truncates(n: nat)
    ensures BE16(n) == BE16(n % 65536)
  {
    var k, m := n / 65536, n % 65536;
    assert n == 256 * (256 * k) + m;
    assert n / 256 == 256 * k + m / 256;
    assert (256 * k + m / 256) % 256 == m / 256 % 256;
    assert (256 * (256 * k) + m) % 256 == m % 256;
  }

  lemma BE16ReadsBack(n: nat)
    ensures FromBE16(BE16(n)[0], BE16(n)[1]) == n % 65536
  {
    BE16Truncates(n);
    BE16Exact(n % 65536);
  }

  /** Reading four bytes back gives the lower 32 bits. */
  lemma BE32ReadsBack(n: nat)
    ensures |BE32(n)| == 4 && FromBE32(BE32(n)) == n % 0x1_0000_0000
  {
    var hi := n / 65536;
    BE16ReadsBack(hi);
    BE16ReadsBack(n);
    var b := BE32(n);
    assert b[0] == BE16(hi)[0] && b[1] == BE16(hi)[1] && b[2] == BE16(n)[0] && b[3] == BE16(n)[1];
    Halves(n);
  }

  lemma SmallRemainder(n: nat)
    requires n < 0x1_0000_0000
    ensures n % 0x1_0000_0000 == n
  {
  }

  lemma BE32Exact(n: nat)
    requires n < 0x1_0000_0000
    ensures |BE32(n)| == 4 && FromBE32(BE32(n)) == n
  {
    BE32ReadsBack(n);
    var read := FromBE32(BE32(n));
    assert read == n by { SmallRemainder(n); }
  }

  lemma Halves(n: nat)
    ensures 65536 * (n / 65536 % 65536) + n % 65536 == n % 0x1_0000_0000
  {
    var hi, lo := n / 65536, n % 65536;
    var top, mid := hi / 65536, hi % 65536;
    assert n == 65536 * hi + lo && hi == 65536 * top + mid;
    assert n == 0x1_0000_0000 * top + (65536 * mid + lo);
    assert 65536 * mid + lo < 0x1_0000_0000;
  }

  function Zeros(n: nat): seq<byte> { seq(n, _ => 0) }

  function Pow2(n: nat): nat { if n == 0 then 1 else 2 * Pow2(n - 1) }

  /** Exclusive or of the lowest `bits` bits. */
  function Xor(a: nat, b: nat, bits: nat): (c: nat)
    ensures c < Pow2(bits)
  {
    if bits == 0 then 0 else (a + b) % 2 + 2 * Xor(a / 2, b / 2, bits - 1)
  }

  lemma XorBits(a: nat, b: nat, bits: nat)
    requires bits > 0
    ensures Xor(a, b, bits) % 2 == (a + b) % 2 && Xor(a, b, bits) / 2 == Xor(a / 2, b / 2, bits - 1)
  {
  }

  lemma {:induction false} XorUndoes(a: nat, b: nat, bits: nat)
    requires a < Pow2(bits)
    ensures Xor(Xor(a, b, bits), b, bits) == a
  {
    if bits > 0 {
      var c := Xor(a, b, bits);
      XorBits(a, b, bits);
      XorUndoes(a / 2, b / 2, bits - 1);
      BitBack(a, b, c);
    }
  }

  function Bit(n: nat, i: nat): nat { if i == 0 then n % 2 else Bit(n / 2, i - 1) }

  /** A bit of the result is set exactly where the two bits differ. */
  lemma {:induction false} XorBit(a: nat, b: nat, bits: nat, i: nat)
    requires i < bits
    ensures Bit(Xor(a, b, bits), i) == if Bit(a, i) == Bit(b, i) then 0 else 1
  {
    XorBits(a, b, bits);
    if i > 0 { XorBit(a / 2, b / 2, bits - 1, i - 1); }
  }

  lemma BitBack(a: nat, b: nat, c: nat)
    requires c % 2 == (a + b) % 2
    ensures (c + b) % 2 + 2 * (a / 2) == a
  {
  }

  lemma PowersOf2()
    ensures Pow2(8) == 256 && Pow2(16) == 65536
  {
    assert Pow2(4) == 16;
    assert Pow2(8) == 16 * Pow2(4);
    assert Pow2(12) == 16 * Pow2(8);
    assert Pow2(16) == 16 * Pow2(12);
  }

  function XorByte(a: byte, b: byte): byte {
    PowersOf2();
    Xor(a, b, 8)
  }

  lemma XorByteUndoes(a: byte, b: byte)
    ensures XorByte(XorByte(a, b), b) == a
  {
    PowersOf2();
    XorUndoes(a, b, 8);
  }

  function Xor16(a: nat, b: nat): (c: nat)
    ensures c < 65536
  {
    PowersOf2();
    Xor(a, b, 16)
  }

  lemma Xor16Undoes(a: nat, b: nat)
    requires a < 65536
    ensures Xor16(Xor16(a, b), b) == a
  {
    PowersOf2();
    XorUndoes(a, b, 16);
  }
}
