/** Octets, and masking with the four-octet key of section 5.3 of RFC 6455. */
module Bytes {
  type byte = x: int | 0 <= x < 256

  function Power2(n: nat): (r: nat)
    ensures r > 0
  {
    if n == 0 then 1 else 2 * Power2(n - 1)
  }

  function XorBit(a: nat, b: nat): nat {
    if a % 2 == b % 2 then 0 else 1
  }

  /** Exclusive or of the `n` low bits of `a` and `b`. */
  function XorBits(a: nat, b: nat, n: nat): (r: nat)
    ensures r < Power2(n)
  {
    if n == 0 then 0 else XorBit(a, b) + 2 * XorBits(a / 2, b / 2, n - 1)
  }

  lemma HalfOf(bit: nat, high: nat)
    requires bit < 2
    ensures (bit + 2 * high) / 2 == high && (bit + 2 * high) % 2 == bit
  {}

  lemma {:induction false} XorBitsTwice(a: nat, b: nat, n: nat)
    requires a < Power2(n)
    ensures XorBits(XorBits(a, b, n), b, n) == a
  {
    if n > 0 {
      HalfOf(XorBit(a, b), XorBits(a / 2, b / 2, n - 1));
      XorBitsTwice(a / 2, b / 2, n - 1);
    }
  }

  function Xor(a: byte, b: byte): byte {
    assert Power2(8) == 256;
    XorBits(a, b, 8)
  }

  lemma XorTwice(a: byte, b: byte)
    ensures Xor(Xor(a, b), b) == a
  {
    assert Power2(8) == 256;
    XorBitsTwice(a, b, 8);
  }

  /** Bit `k` of a number. */
  function Bit(n: nat, k: nat): nat {
    if k == 0 then n % 2 else Bit(n / 2, k - 1)
  }

  lemma {:induction false} BitIsDigit(n: nat, k: nat)
    ensures Bit(n, k) == n / Power2(k) % 2
  {
    if k > 0 {
      BitIsDigit(n / 2, k - 1);
      HalfTwice(n, Power2(k - 1));
    }
  }

  /** Halving and then dividing is one division. */
  lemma HalfTwice(n: nat, d: nat)
    requires d > 0
    ensures n / 2 / d == n / (2 * d)
  {
    var m, x := n / 2, n % 2;
    assert n == 2 * m + x && m == m / d * d + m % d;
    Quotient(n, 2 * d, m / d, 2 * (m % d) + x);
  }

  lemma Multiples(d: nat, q: nat, more: nat)
    requires more > 0
    ensures (q + more) * d >= q * d + d
  {}

  lemma SameQuotient(d: nat, q: nat, r: nat, q1: nat, r1: nat)
    requires r < d && r1 < d && q * d + r == q1 * d + r1
    ensures q == q1
  {
    if q < q1 {
      Multiples(d, q, q1 - q);
    } else if q1 < q {
      Multiples(d, q1, q - q1);
    }
  }

  lemma Quotient(n: nat, d: nat, q: nat, r: nat)
    requires r < d && n == q * d + r
    ensures n / d == q
  {
    assert n == (n / d) * d + n % d;
    SameQuotient(d, q, r, n / d, n % d);
  }

  lemma {:induction false} XorBitsAt(a: nat, b: nat, n: nat, k: nat)
    requires k < n
    ensures Bit(XorBits(a, b, n), k) == 1 <==> Bit(a, k) != Bit(b, k)
    ensures Bit(XorBits(a, b, n), k) < 2
  {
    HalfOf(if a % 2 == b % 2 then 0 else 1, XorBits(a / 2, b / 2, n - 1));
    if k > 0 {
      XorBitsAt(a / 2, b / 2, n - 1, k - 1);
    }
  }

  /** A bit of the result is set exactly where the two octets differ. */
  lemma {:induction false} XorAt(a: byte, b: byte, k: nat)
    requires k < 8
    ensures Xor(a, b) / Power2(k) % 2 == 1 <==> a / Power2(k) % 2 != b / Power2(k) % 2
  {
    XorBitsAt(a, b, 8, k);
    BitIsDigit(Xor(a, b), k);
    BitIsDigit(a, k);
    BitIsDigit(b, k);
  }

  datatype MaskKey = MaskKey(k0: byte, k1: byte, k2: byte, k3: byte) {
    /** The key octet for payload octet `i`. */
    function At(i: nat): (r: byte)
      ensures r == Octets()[i % 4]
    {
      if i % 4 == 0 then k0 else if i % 4 == 1 then k1 else if i % 4 == 2 then k2 else k3
    }

    function Octets(): seq<byte> {
      [k0, k1, k2, k3]
    }
  }

  const ZERO_KEY := MaskKey(0, 0, 0, 0)

  /** `s` with octet `i` combined with the key at phase `offset + i`. */
  function Masked(s: seq<byte>, key: MaskKey, offset: nat): (r: seq<byte>)
    ensures |r| == |s|
    ensures forall i :: 0 <= i < |s| ==> r[i] == Xor(s[i], key.At(offset + i))
  {
    seq(|s|, i requires 0 <= i < |s| => Xor(s[i], key.At(offset + i)))
  }

  lemma MaskedTwice(s: seq<byte>, key: MaskKey, offset: nat)
    ensures Masked(Masked(s, key, offset), key, offset) == s
  {
    forall i | 0 <= i < |s| ensures Masked(Masked(s, key, offset), key, offset)[i] == s[i] {
      XorTwice(s[i], key.At(offset + i));
    }
  }

  lemma {:induction false} MaskedSplit(s: seq<byte>, t: seq<byte>, key: MaskKey, offset: nat)
    ensures Masked(s + t, key, offset) == Masked(s, key, offset) + Masked(t, key, offset + |s|)
  {}

  /** Concatenation of a list of octet strings. */
  function Flat(parts: seq<seq<byte>>): seq<byte> {
    if parts == [] then [] else parts[0] + Flat(parts[1..])
  }

  lemma {:induction false} FlatAppend(a: seq<seq<byte>>, b: seq<seq<byte>>)
    ensures Flat(a + b) == Flat(a) + Flat(b)
  {
    if a == [] {
      assert a + b == b;
    } else {
      assert (a + b)[1..] == a[1..] + b;
      FlatAppend(a[1..], b);
    }
  }
}
