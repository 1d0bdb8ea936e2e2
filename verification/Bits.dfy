/** Powers of two and bit strings, most significant bit first. */
module Bits {

  function Pow2(n: nat): (p: int)
    ensures p >= 1
  {
    if n == 0 then 1 else 2 * Pow2(n - 1)
  }

  lemma {:induction false} Pow2Add(a: nat, b: nat)
    ensures Pow2(a + b) == Pow2(a) * Pow2(b)
  {
    if a > 0 {
      Pow2Add(a - 1, b);
      assert Pow2(a + b) == 2 * Pow2(a - 1 + b);
      assert Pow2(a) * Pow2(b) == 2 * (Pow2(a - 1) * Pow2(b));
    }
  }

  lemma {:induction false} Pow2Monotonic(a: nat, b: nat)
    requires a <= b
    ensures Pow2(a) <= Pow2(b)
    ensures a < b ==> Pow2(a) < Pow2(b)
    decreases b - a
  {
    if a < b {
      Pow2Monotonic(a + 1, b);
    }
  }

  /** Bit k of n in two's complement. */
  predicate BitAt(n: int, k: nat) {
    n / Pow2(k) % 2 == 1
  }

  /** The low `width` bits of n in two's complement; `append_bits` of the builder library. */
  function ToBits(n: int, width: nat): (bits: seq<bool>)
    ensures |bits| == width
  {
    seq(width, i requires 0 <= i < width => BitAt(n, width - 1 - i))
  }

  function BitValue(b: bool): (v: nat)
    ensures v <= 1
  {
    if b then 1 else 0
  }

  /** `get_next_int` of the slice library. */
  function FromBits(bits: seq<bool>): (n: nat)
  {
    if bits == [] then 0 else 2 * FromBits(bits[..|bits| - 1]) + BitValue(bits[|bits| - 1])
  }

  /** Two's complement reading. */
  function FromBitsSigned(bits: seq<bool>): (n: int)
  {
    if bits != [] && bits[0] then FromBits(bits) - Pow2(|bits|) else FromBits(bits)
  }

  lemma {:induction false} ModHalf(n: int, p: int)
    requires p >= 1
    ensures n % (2 * p) == 2 * ((n / 2) % p) + n % 2
  {
    var h, r := n / 2, n % 2;
    var q, s := h / p, h % p;
    assert n == (2 * p) * q + (2 * s + r) by {
      assert h == p * q + s;
      assert 2 * (p * q) == (2 * p) * q;
    }
    DivModUnique(n, 2 * p, q, 2 * s + r);
  }

  lemma MulAtLeast(d: int, k: int)
    requires d > 0 && k >= 1
    ensures d * k >= d
  {}

  /** Quotient and remainder are determined by n == d * q + r with 0 <= r < d. */
  lemma {:induction false} DivModUnique(n: int, d: int, q: int, r: int)
    requires d > 0 && 0 <= r < d && n == d * q + r
    ensures n / d == q && n % d == r
  {
    var q', r' := n / d, n % d;
    assert d * q' + r' == n;
    assert d * (q' - q) == d * q' - d * q;
    assert d * (q - q') == d * q - d * q';
    if q' > q {
      MulAtLeast(d, q' - q);
    } else if q' < q {
      MulAtLeast(d, q - q');
    }
  }

  lemma {:induction false} DivTwice(n: int, k: nat)
    ensures n / 2 / Pow2(k) == n / Pow2(k + 1)
  {
    var p := Pow2(k);
    var h, r := n / 2, n % 2;
    var q, s := h / p, h % p;
    assert n == (2 * p) * q + (2 * s + r) by {
      assert h == p * q + s;
      assert 2 * (p * q) == (2 * p) * q;
    }
    DivModUnique(n, 2 * p, q, 2 * s + r);
  }

  lemma {:induction false} ToBitsInit(n: int, width: nat)
    requires width > 0
    ensures ToBits(n, width) == ToBits(n / 2, width - 1) + [n % 2 == 1]
  {
    var a, b := ToBits(n, width), ToBits(n / 2, width - 1) + [n % 2 == 1];
    forall i | 0 <= i < width
      ensures a[i] == b[i]
    {
      if i < width - 1 {
        var k := width - 2 - i;
        DivTwice(n, k);
        assert a[i] == BitAt(n, k + 1) == BitAt(n / 2, k);
        assert ToBits(n / 2, width - 1)[i] == BitAt(n / 2, k);
      } else {
        assert a[i] == BitAt(n, 0);
        assert n / Pow2(0) == n;
      }
    }
  }

  lemma {:induction false} FromToBits(n: int, width: nat)
    ensures FromBits(ToBits(n, width)) == n % Pow2(width)
    decreases width
  {
    if width > 0 {
      var init := ToBits(n / 2, width - 1);
      ToBitsInit(n, width);
      assert (init + [n % 2 == 1])[..width - 1] == init;
      FromToBits(n / 2, width - 1);
      ModHalf(n, Pow2(width - 1));
    }
  }

  lemma {:induction false} FromBitsBound(bits: seq<bool>)
    ensures FromBits(bits) < Pow2(|bits|)
  {
    if bits != [] {
      FromBitsBound(bits[..|bits| - 1]);
    }
  }

  lemma {:induction false} ToFromBits(bits: seq<bool>)
    ensures ToBits(FromBits(bits), |bits|) == bits
  {
    if bits != [] {
      var init, b := bits[..|bits| - 1], bits[|bits| - 1];
      ToFromBits(init);
      assert FromBits(bits) / 2 == FromBits(init);
      ToBitsInit(FromBits(bits), |bits|);
      assert bits == init + [b];
    }
  }

  /** The leading bit tells which half of the range the value lies in. */
  lemma {:induction false} LeadingBit(bits: seq<bool>)
    requires bits != []
    ensures bits[0] <==> FromBits(bits) >= Pow2(|bits| - 1)
  {
    if |bits| > 1 {
      var init := bits[..|bits| - 1];
      LeadingBit(init);
      assert Pow2(|bits| - 1) == 2 * Pow2(|init| - 1);
    } else {
      assert FromBits(bits[..0]) == 0;
    }
  }

  /** Two's complement reading inverts writing exactly on the signed range. */
  lemma {:induction false} SignedFromToBits(n: int, width: nat)
    requires width >= 1
    ensures FromBitsSigned(ToBits(n, width)) == n <==> -Pow2(width - 1) <= n < Pow2(width - 1)
    ensures -Pow2(width - 1) <= FromBitsSigned(ToBits(n, width)) < Pow2(width - 1)
  {
    var p := Pow2(width - 1);
    var bits := ToBits(n, width);
    FromToBits(n, width);
    LeadingBit(bits);
    FromBitsBound(bits);
    if 0 <= n < p {
      DivModUnique(n, 2 * p, 0, n);
    } else if -p <= n < 0 {
      DivModUnique(n, 2 * p, -1, n + 2 * p);
    }
  }

  /** Unsigned reading inverts writing exactly on the unsigned range. */
  lemma {:induction false} UnsignedFromToBits(n: int, width: nat)
    ensures FromBits(ToBits(n, width)) == n <==> 0 <= n < Pow2(width)
  {
    FromToBits(n, width);
    if 0 <= n < Pow2(width) {
      DivModUnique(n, Pow2(width), 0, n);
    }
  }

  lemma MulMonotonic(a: int, x: int, y: int)
    requires a >= 0 && x <= y
    ensures a * x <= a * y
  {}

  lemma MulDistributes(a: int, x: int, y: int)
    ensures a * (x + y) == a * x + a * y
  {}

  lemma MulAssociates(a: int, b: int, c: int)
    ensures a * (b * c) == (a * b) * c
  {}

  /** Digits s and r in mixed radix b, a. */
  lemma MixedRadix(a: int, b: int, p: int, s: int, r: int)
    requires a >= 1 && 0 <= s < b && 0 <= r < a
    ensures a * (b * p + s) + r == (a * b) * p + (a * s + r)
    ensures 0 <= a * s + r < a * b
  {
    MulDistributes(a, b * p, s);
    MulAssociates(a, b, p);
    MulMonotonic(a, 0, s);
    MulMonotonic(a, s, b - 1);
    MulDistributes(a, b, -1);
  }

  lemma {:induction false} DivDiv(n: int, a: int, b: int)
    requires a >= 1 && b >= 1
    ensures a * b > 0
    ensures n / a / b == n / (a * b)
  {
    var q, r := n / a, n % a;
    var p, s := q / b, q % b;
    MixedRadix(a, b, p, s, r);
    assert n == (a * b) * p + (a * s + r);
    DivModUnique(n, a * b, p, a * s + r);
  }

  /** A field of a + b bits is its upper a bits followed by its lower b bits. */
  lemma {:induction false} ToBitsSplit(n: int, a: nat, b: nat)
    ensures ToBits(n, a + b) == ToBits(n / Pow2(b), a) + ToBits(n, b)
  {
    var whole, parts := ToBits(n, a + b), ToBits(n / Pow2(b), a) + ToBits(n, b);
    forall i | 0 <= i < a + b
      ensures whole[i] == parts[i]
    {
      if i < a {
        var k := a - 1 - i;
        Pow2Add(b, k);
        DivDiv(n, Pow2(b), Pow2(k));
        assert whole[i] == BitAt(n, b + k);
        assert ToBits(n / Pow2(b), a)[i] == BitAt(n / Pow2(b), k);
      } else {
        assert whole[i] == BitAt(n, a + b - 1 - i);
        assert ToBits(n, b)[i - a] == BitAt(n, b - 1 - (i - a));
      }
    }
  }
}
