/** The least number of bits that hold a signed integer. */
module IntegerWidth {
  import opened Bits

  /** In the range of a signed integer of n bits; nothing fits in no bits. */
  predicate FitsSigned(v: int, n: nat) {
    n >= 1 && -Pow2(n - 1) <= v < Pow2(n - 1)
  }

  /** `BigInt::bits`: length of the magnitude. */
  function BitLength(n: nat): nat {
    if n == 0 then 0 else 1 + BitLength(n / 2)
  }

  function And(a: nat, b: nat): nat {
    if a == 0 || b == 0 then 0
    else 2 * And(a / 2, b / 2) + if a % 2 == 1 && b % 2 == 1 then 1 else 0
  }

  lemma {:induction false} BitLengthBounds(n: nat)
    ensures n < Pow2(BitLength(n))
    ensures if n == 0 then BitLength(n) == 0 else BitLength(n) >= 1 && Pow2(BitLength(n) - 1) <= n
  {
    if n > 0 {
      BitLengthBounds(n / 2);
    }
  }

  /** A length is enough exactly when the number is below that power of two. */
  lemma BitLengthIff(n: nat, k: nat)
    ensures BitLength(n) <= k <==> n < Pow2(k)
  {}

  lemma {:induction false} AndSelf(a: nat)
    ensures And(a, a) == a
  {
    if a > 0 {
      AndSelf(a / 2);
      assert a == 2 * (a / 2) + a % 2;
    }
  }

  /** Clearing the lowest set bit leaves nothing exactly for powers of two. */
  lemma {:induction false} LowestBitOnly(m: nat)
    requires m > 0
    ensures And(m, m - 1) == 0 <==> m == Pow2(BitLength(m) - 1)
  {
    if m > 1 {
      if m % 2 == 1 {
        AndSelf(m / 2);
        assert (m - 1) / 2 == m / 2;
        if m == Pow2(BitLength(m) - 1) {
          assert Pow2(BitLength(m) - 1) == 2 * Pow2(BitLength(m) - 2);
        }
      } else {
        LowestBitOnly(m / 2);
        assert (m - 1) / 2 == m / 2 - 1;
      }
    }
  }

  /** `bitsize`: the least n that fits the value. */
  function Bitsize(v: int): (n: nat)
    ensures FitsSigned(v, n)
    ensures n > 1 ==> !FitsSigned(v, n - 1)
  {
    if v == 0 || v == -1 then 1
    else if v > 0 then
      BitLengthBounds(v);
      BitLength(v) + 1
    else
      var m := -v;
      BitLengthBounds(m);
      LowestBitOnly(m);
      if And(m, m - 1) == 0 then BitLength(m) else BitLength(m) + 1
  }

  /** `fits_in`: the bit size is at most n exactly when the value is in the signed n-bit range. */
  lemma BitsizeIff(v: int, n: nat)
    ensures Bitsize(v) <= n <==> FitsSigned(v, n)
  {
    hide Bitsize, Pow2;
    var b := Bitsize(v);
    if b <= n {
      Pow2Monotonic(b - 1, n - 1);
    } else if n >= 1 {
      Pow2Monotonic(n - 1, b - 2);
    }
  }
}
