/** Byte strings and the bits and numbers they stand for. */
module Octets {
  import opened Bits

  type Byte = x: int | 0 <= x < 256

  function BitsToBytes(bits: nat): nat {
    (bits + 7) / 8
  }

  /** The last k base-256 digits of n, most significant first. */
  function BytesBe(n: int, k: nat): (data: seq<Byte>)
    ensures |data| == k
    decreases k
  {
    if k == 0 then [] else BytesBe(n / 256, k - 1) + [n % 256]
  }

  /** All bits of a byte string, in order. */
  function BitsOf(data: seq<Byte>): (bits: seq<bool>)
    ensures |bits| == 8 * |data|
  {
    if data == [] then [] else BitsOf(data[..|data| - 1]) + ToBits(data[|data| - 1], 8)
  }

  /** The number a byte string stands for, most significant byte first. */
  function ValueBe(data: seq<Byte>): (n: nat)
  {
    if data == [] then 0 else 256 * ValueBe(data[..|data| - 1]) + data[|data| - 1]
  }

  /** `from_signed_bytes_be`. */
  function SignedBe(data: seq<Byte>): int {
    FromBitsSigned(BitsOf(data))
  }

  function Reversed(data: seq<Byte>): (r: seq<Byte>)
    ensures |r| == |data|
    ensures forall i :: 0 <= i < |data| ==> r[i] == data[|data| - 1 - i]
  {
    seq(|data|, i requires 0 <= i < |data| => data[|data| - 1 - i])
  }

  lemma ReversedTwice(data: seq<Byte>)
    ensures Reversed(Reversed(data)) == data
  {}

  lemma Pow2Of8()
    ensures Pow2(8) == 256
  {}

  // ----- bits of numbers -----

  lemma DivShift(n: int, d: int, k: int)
    requires d > 0
    ensures (n + k * d) / d == n / d + k
  {
    DivModUnique(n + k * d, d, n / d + k, n % d);
  }

  /** Numbers that differ by a multiple of 2^w have the same low w bits. */
  lemma ToBitsPeriodic(n: int, w: nat, m: int)
    ensures ToBits(n + m * Pow2(w), w) == ToBits(n, w)
  {
    forall i | 0 <= i < w
      ensures BitAt(n + m * Pow2(w), i) == BitAt(n, i)
    {
      BitPeriodic(n, w, m, i);
    }
  }

  lemma BitPeriodic(n: int, w: nat, m: int, i: nat)
    requires i < w
    ensures BitAt(n + m * Pow2(w), i) == BitAt(n, i)
  {
    hide Pow2, BitAt;
    BitIs(n, i);
    BitIs(n + m * Pow2(w), i);
    var d, e := Pow2(i), Pow2(w - i - 1);
    Pow2Add(w - i - 1, 1);
    PowerOne();
    Pow2Add(w - i, i);
    Regroup(m, e, d);
    DivShift(n, d, 2 * (m * e));
    EvenShift(n / d, m * e);
  }

  lemma BitIs(n: int, i: nat)
    ensures BitAt(n, i) <==> n / Pow2(i) % 2 == 1
  {}

  lemma EvenShift(a: int, k: int)
    ensures (a + 2 * k) % 2 == a % 2
  {}

  lemma Regroup(m: int, e: int, d: int)
    ensures m * ((e * 2) * d) == (2 * (m * e)) * d
  {}

  lemma PowerOne()
    ensures Pow2(1) == 2
  {}

  lemma ToBitsMod(n: int, w: nat)
    ensures ToBits(n % Pow2(w), w) == ToBits(n, w)
  {
    ToBitsPeriodic(n % Pow2(w), w, n / Pow2(w));
    assert n % Pow2(w) + (n / Pow2(w)) * Pow2(w) == n by { DivModBack(n, Pow2(w)); }
  }

  lemma DivModBack(n: int, d: int)
    requires d > 0
    ensures n % d + (n / d) * d == n
  {}

  /** A bit string is the bits of its signed reading. */
  lemma ToBitsOfSigned(bits: seq<bool>)
    ensures ToBits(FromBitsSigned(bits), |bits|) == bits
  {
    ToFromBits(bits);
    if FromBitsSigned(bits) != FromBits(bits) {
      ToBitsPeriodic(FromBits(bits), |bits|, -1);
    }
  }

  lemma SignedRange(bits: seq<bool>)
    requires bits != []
    ensures -Pow2(|bits| - 1) <= FromBitsSigned(bits) < Pow2(|bits| - 1)
  {
    ToBitsOfSigned(bits);
    SignedFromToBits(FromBitsSigned(bits), |bits|);
  }

  // ----- bytes and bits -----

  lemma {:induction false} BitsConcat(a: seq<Byte>, b: seq<Byte>)
    ensures BitsOf(a + b) == BitsOf(a) + BitsOf(b)
  {
    if b == [] {
      assert a + b == a;
    } else {
      var c := b[..|b| - 1];
      assert (a + b)[..|a + b| - 1] == a + c;
      BitsConcat(a, c);
    }
  }

  /** The bits of k base-256 digits are the low 8k bits. */
  lemma {:induction false} BitsOfBytes(n: int, k: nat)
    ensures BitsOf(BytesBe(n, k)) == ToBits(n, 8 * k)
    decreases k
  {
    if k > 0 {
      var data := BytesBe(n, k);
      BitsOfBytes(n / 256, k - 1);
      assert data[..k - 1] == BytesBe(n / 256, k - 1);
      Pow2Of8();
      ToBitsMod(n, 8);
      ToBitsSplit(n, 8 * (k - 1), 8);
    }
  }

  lemma {:induction false} FromBitsConcat(a: seq<bool>, b: seq<bool>)
    ensures FromBits(a + b) == FromBits(a) * Pow2(|b|) + FromBits(b)
  {
    if b == [] {
      assert a + b == a;
    } else {
      var c := b[..|b| - 1];
      assert (a + b)[..|a + b| - 1] == a + c;
      FromBitsConcat(a, c);
      assert Pow2(|b|) == 2 * Pow2(|c|);
      assert FromBits(a) * Pow2(|b|) == 2 * (FromBits(a) * Pow2(|c|));
    }
  }

  lemma {:induction false} ValueIsBits(data: seq<Byte>)
    ensures ValueBe(data) == FromBits(BitsOf(data))
    ensures ValueBe(data) < Pow2(8 * |data|)
  {
    FromBitsBound(BitsOf(data));
    if data != [] {
      var init, last := data[..|data| - 1], data[|data| - 1];
      ValueIsBits(init);
      FromBitsConcat(BitsOf(init), ToBits(last, 8));
      Pow2Of8();
      UnsignedFromToBits(last, 8);
    }
  }

  /** Byte strings of the same length with the same bits are the same. */
  lemma {:induction false} BitsOfInjective(a: seq<Byte>, b: seq<Byte>)
    requires |a| == |b| && BitsOf(a) == BitsOf(b)
    ensures a == b
  {
    hide ToBits, FromBits, Pow2;
    if a != [] {
      var n := |a| - 1;
      var x, y := BitsOf(a), BitsOf(b);
      assert x[..8 * n] == BitsOf(a[..n]) && y[..8 * n] == BitsOf(b[..n]);
      assert x[8 * n..] == ToBits(a[n], 8) && y[8 * n..] == ToBits(b[n], 8);
      BitsOfInjective(a[..n], b[..n]);
      Pow2Of8();
      UnsignedFromToBits(a[n], 8);
      UnsignedFromToBits(b[n], 8);
    }
  }

  // ----- prefixes are shifts -----

  /** Dropping low bits divides the signed reading, rounding down. */
  lemma SignedPrefix(bits: seq<bool>, a: nat)
    requires 1 <= a <= |bits|
    ensures FromBitsSigned(bits[..a]) == FromBitsSigned(bits) / Pow2(|bits| - a)
  {
    var n, b := FromBitsSigned(bits), |bits| - a;
    ToBitsOfSigned(bits);
    ToBitsSplit(n, a, b);
    assert bits[..a] == ToBits(n / Pow2(b), a);
    SignedRange(bits);
    ShiftedRange(n, a, b);
    SignedFromToBits(n / Pow2(b), a);
  }

  lemma ShiftedRange(n: int, a: nat, b: nat)
    requires a >= 1 && -Pow2(a + b - 1) <= n < Pow2(a + b - 1)
    ensures -Pow2(a - 1) <= n / Pow2(b) < Pow2(a - 1)
  {
    hide Pow2;
    Pow2Add(a - 1, b);
    DivBounds(n, Pow2(b), -Pow2(a - 1), Pow2(a - 1));
  }

  lemma DivBounds(n: int, d: int, lo: int, hi: int)
    requires d > 0 && lo * d <= n < hi * d
    ensures lo <= n / d < hi
  {
    var q, r := n / d, n % d;
    assert n == d * q + r;
    if q < lo {
      MulMonotonic(d, q + 1, lo);
      MulDistributes(d, q, 1);
    }
    if q >= hi {
      MulMonotonic(d, hi, q);
    }
  }

  lemma QuotientOf(n: int, q: int, d: int, r: int)
    requires d > 0 && 0 <= r < d && n == q * d + r
    ensures n / d == q
  {
    DivModUnique(n, d, q, r);
  }

  lemma UnsignedPrefix(bits: seq<bool>, a: nat)
    requires a <= |bits|
    ensures FromBits(bits[..a]) == FromBits(bits) / Pow2(|bits| - a)
  {
    hide Pow2, FromBits;
    var b := bits[a..];
    assert bits == bits[..a] + b;
    FromBitsConcat(bits[..a], b);
    FromBitsBound(b);
    QuotientOf(FromBits(bits), FromBits(bits[..a]), Pow2(|b|), FromBits(b));
  }
}
