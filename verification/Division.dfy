/** Rounding division of 257-bit integers, by a divisor and by a shift. */
module Division {
  import opened Outcomes
  import opened Bits
  import opened Values

  datatype Round = Ceil | FloorToNegativeInfinity | FloorToZero | Nearest

  function Abs(x: int): nat {
    if x < 0 then -x else x
  }

  function Sign(x: int): int {
    if x < 0 then -1 else if x == 0 then 0 else 1
  }

  /** Where a rounding mode wants the remainder. */
  predicate RemainderRule(mode: Round, x: int, y: int, r: int) {
    match mode
    case FloorToNegativeInfinity => r == 0 || Sign(r) == Sign(y)
    case FloorToZero => r == 0 || Sign(r) == Sign(x)
    case Ceil => r == 0 || Sign(r) != Sign(y)
    case Nearest => 2 * Abs(r) < Abs(y) || (2 * Abs(r) == Abs(y) && Sign(r) != Sign(y))
  }

  /** x divided by y is q with remainder r under the rounding mode. */
  predicate IsQuotient(mode: Round, x: int, y: int, q: int, r: int) {
    x == q * y + r && Abs(r) < Abs(y) && RemainderRule(mode, x, y, r)
  }

  /** `div_rem`: truncation. */
  function Truncated(x: int, y: int): (int, int)
    requires y != 0
  {
    if x >= 0 then (x / y, x % y) else (-((-x) / y), -((-x) % y))
  }

  /** `div_mod_floor`. */
  function Floored(x: int, y: int): (int, int)
    requires y != 0
  {
    if y > 0 then (x / y, x % y) else ((-x) / (-y), -((-x) % (-y)))
  }

  lemma NegateProduct(a: int, b: int)
    ensures (-a) * b == -(a * b) && (-a) * (-b) == a * b && a * (-b) == -(a * b)
  {}

  lemma TruncatedIsQuotient(x: int, y: int)
    requires y != 0
    ensures var (q, r) := Truncated(x, y); IsQuotient(FloorToZero, x, y, q, r)
  {}

  lemma FlooredIsQuotient(x: int, y: int)
    requires y != 0
    ensures var (q, r) := Floored(x, y); IsQuotient(FloorToNegativeInfinity, x, y, q, r)
  {}

  lemma NextMultiple(q: int, y: int)
    ensures (q + 1) * y == q * y + y && (q - 1) * y == q * y - y
  {}

  method RoundFloor(q0: int, r0: int, x: int, y: int) returns (q: int, r: int)
    requires y != 0 && IsQuotient(FloorToZero, x, y, q0, r0)
    ensures IsQuotient(FloorToNegativeInfinity, x, y, q, r)
  {
    q, r := q0, r0;
    if r == 0 || Sign(r) == Sign(y) {
      return;
    }
    NextMultiple(q, y);
    r := r + y;
    if Sign(x) == Sign(y) {
      q := q + 1;
    } else {
      q := q - 1;
    }
  }

  method RoundCeil(q0: int, r0: int, x: int, y: int) returns (q: int, r: int)
    requires y != 0 && IsQuotient(FloorToZero, x, y, q0, r0)
    ensures IsQuotient(Ceil, x, y, q, r)
  {
    q, r := q0, r0;
    if r == 0 || Sign(r) != Sign(y) {
      return;
    }
    NextMultiple(q, y);
    r := r - y;
    if Sign(x) == Sign(y) {
      q := q + 1;
    } else {
      q := q - 1;
    }
  }

  method RoundNearest(q0: int, r0: int, x: int, y: int) returns (q: int, r: int)
    requires y != 0 && IsQuotient(FloorToZero, x, y, q0, r0)
    ensures IsQuotient(Nearest, x, y, q, r)
  {
    q, r := q0, r0;
    if r == 0 {
      return;
    }
    var twice := Abs(2 * r);
    var isNotNegative := Sign(x) == Sign(y);
    if twice > Abs(y) || (twice == Abs(y) && isNotNegative) {
      NextMultiple(q, y);
      if Sign(y) == Sign(r) {
        r := r - y;
      } else {
        r := r + y;
      }
      if isNotNegative {
        q := q + 1;
      } else {
        q := q - 1;
      }
    }
  }

  /** `divmod`: every mode meets its rule. */
  method DivMod(x: int, y: int, mode: Round) returns (q: int, r: int)
    requires y != 0
    ensures IsQuotient(mode, x, y, q, r)
  {
    match mode
    case FloorToNegativeInfinity =>
      FlooredIsQuotient(x, y);
      q, r := Floored(x, y).0, Floored(x, y).1;
    case FloorToZero =>
      TruncatedIsQuotient(x, y);
      q, r := Truncated(x, y).0, Truncated(x, y).1;
    case Ceil =>
      TruncatedIsQuotient(x, y);
      q, r := RoundCeil(Truncated(x, y).0, Truncated(x, y).1, x, y);
    case Nearest =>
      TruncatedIsQuotient(x, y);
      q, r := RoundNearest(Truncated(x, y).0, Truncated(x, y).1, x, y);
  }

  /** `div_by_shift`: shifting and masking the magnitude divides by a power of two in every mode. */
  method DivByShift(x: int, shift: nat, mode: Round) returns (q: int, r: int)
    ensures IsQuotient(mode, x, Pow2(shift), q, r)
  {
    var divisor := Pow2(shift);
    if x < 0 {
      var magnitude := -x;
      q, r := -(magnitude / divisor), -(magnitude % divisor);
    } else {
      q, r := x / divisor, x % divisor;
    }
    TruncatedIsQuotient(x, divisor);
    match mode
    case FloorToNegativeInfinity => q, r := RoundFloor(q, r, x, divisor);
    case Ceil => q, r := RoundCeil(q, r, x, divisor);
    case Nearest => q, r := RoundNearest(q, r, x, divisor);
    case FloorToZero =>
  }

  // ----- the rules determine the result -----

  lemma CloseMultiples(q: int, p: int, y: int, r: int, s: int)
    requires q * y + r == p * y + s && y != 0 && Abs(r - s) < Abs(y)
    ensures q == p && r == s
  {
    MulDistributes(y, p, -q);
    NegateProduct(y, q);
    assert y * (p - q) == (p - q) * y;
    if p != q {
      MulGrows(p - q, y);
    }
  }

  lemma AbsProduct(a: int, b: int)
    ensures Abs(a * b) == Abs(a) * Abs(b)
  {}

  lemma MulGrows(d: int, y: int)
    requires d != 0
    ensures Abs(d * y) >= Abs(y)
  {}

  /** Each mode has exactly one quotient and remainder, so both divisions agree on powers of two. */
  lemma QuotientIsUnique(mode: Round, x: int, y: int, q: int, r: int, p: int, s: int)
    requires y != 0 && IsQuotient(mode, x, y, q, r) && IsQuotient(mode, x, y, p, s)
    ensures q == p && r == s
  {
    CloseMultiples(q, p, y, r, s);
  }

  lemma HalfStep(x: int, y: int, q: int, r: int)
    requires y != 0 && IsQuotient(Nearest, x, y, q, r)
    ensures IsQuotient(FloorToNegativeInfinity, 2 * x + y, 2 * y, q, 2 * r + y)
  {}

  /** Rounding to nearest is the floor of x / y + 1/2: ties go up. */
  lemma NearestIsHalfUp(x: int, y: int, q: int, r: int)
    requires y != 0 && IsQuotient(Nearest, x, y, q, r)
    ensures q == Floored(2 * x + y, 2 * y).0
  {
    hide Floored, IsQuotient;
    HalfStep(x, y, q, r);
    FlooredIsQuotient(2 * x + y, 2 * y);
    var (p, s) := Floored(2 * x + y, 2 * y);
    QuotientIsUnique(FloorToNegativeInfinity, 2 * x + y, 2 * y, q, 2 * r + y, p, s);
  }

  // ----- results that fit -----

  /** In the range of a signed 257-bit integer (`check_overflow`). */
  predicate Fits(v: int) {
    -Pow2(256) <= v < Pow2(256)
  }

  /** The remainder by a divisor in range is in range. */
  lemma RemainderFits(mode: Round, x: int, y: int, q: int, r: int)
    requires IsQuotient(mode, x, y, q, r) && Fits(y)
    ensures Fits(r)
  {}

  /** The remainder of a shift by at most 256 bits is in range. */
  lemma ShiftRemainderFits(mode: Round, x: int, shift: nat, q: int, r: int)
    requires IsQuotient(mode, x, Pow2(shift), q, r) && shift <= 256
    ensures Fits(r)
  {
    hide Pow2;
    Pow2Monotonic(shift, 256);
  }

  /** A shift by 257 bits can leave a remainder out of range. */
  lemma WideShiftRemainder()
    ensures IsQuotient(FloorToNegativeInfinity, -1, Pow2(257), -1, Pow2(257) - 1) && !Fits(Pow2(257) - 1)
  {
    hide Pow2;
    Pow2Monotonic(256, 257);
    Pow2Monotonic(0, 256);
    Pow2Doubles(256);
  }

  lemma Pow2Doubles(n: nat)
    ensures Pow2(n + 1) == 2 * Pow2(n)
  {}

  lemma BigProduct(a: nat, b: nat, m: nat)
    requires a >= m >= 2 && b >= 2
    ensures a * b >= m + b
  {}

  lemma QuotientIsSmaller(m: int, x: int, y: int, q: int, r: int)
    requires m >= 2 && Abs(x) <= m && Abs(y) >= 2 && Abs(r) < Abs(y) && q * y == x - r
    ensures Abs(q) < m
  {
    AbsProduct(q, y);
    if Abs(q) >= m {
      BigProduct(Abs(q), Abs(y), m);
    }
  }

  lemma UnitProducts(q: int)
    ensures q * 1 == q && q * -1 == -q
  {}

  /** The one quotient of values in range that is out of range is the negation of the least value. */
  lemma QuotientFitsIff(mode: Round, x: int, y: int, q: int, r: int)
    requires IsQuotient(mode, x, y, q, r) && Fits(x) && Fits(y)
    ensures Fits(q) <==> !(x == -Pow2(256) && y == -1)
  {
    hide Pow2;
    Pow2Doubles(255);
    UnitProducts(q);
    if Abs(y) >= 2 {
      QuotientIsSmaller(Pow2(256), x, y, q, r);
    }
  }

  /** `process_double_result`: only the quotient is refused quietly, a remainder out of range always raises. */
  function Delivered(q: int, rem: int, quiet: bool): (r: Result<(IntegerData, IntegerData)>)
    ensures Fits(q) && Fits(rem) <==> r == Ok((Value(q), Value(rem)))
    ensures !Fits(q) && quiet ==> r == Ok((NaN, NaN))
    ensures (!Fits(q) && !quiet) || (Fits(q) && !Fits(rem)) ==> r == Err(IntegerOverflow)
  {
    if Fits(q) then
      if Fits(rem) then Ok((Value(q), Value(rem))) else Err(IntegerOverflow)
    else if quiet then Ok((NaN, NaN))
    else Err(IntegerOverflow)
  }

  /**
   * `IntegerData::div` with a quiet or a signaling behavior. On integers of any size the quotient
   * and remainder of the mode decide: a quotient out of range is refused as the behavior says, a
   * remainder out of range always raises. On operands in range only one division is refused.
   */
  method Div(x: IntegerData, y: IntegerData, mode: Round, quiet: bool) returns (r: Result<(IntegerData, IntegerData)>)
    ensures
      var refused := if quiet then Ok((NaN, NaN)) else Err(IntegerOverflow);
      && (x.NaN? || y.NaN? || y.v == 0 ==> r == refused)
      && (x.Value? && y.Value? && y.v != 0 ==>
            && (exists q, rem :: IsQuotient(mode, x.v, y.v, q, rem))
            && forall q, rem :: IsQuotient(mode, x.v, y.v, q, rem) ==> r == Delivered(q, rem, quiet))
      && (x.Value? && y.Value? && y.v != 0 && Fits(x.v) && Fits(y.v) ==>
            if x.v == -Pow2(256) && y.v == -1 then r == refused
            else r.Ok? && r.value.0.Value? && r.value.1.Value?
                 && IsQuotient(mode, x.v, y.v, r.value.0.v, r.value.1.v)
                 && Fits(r.value.0.v) && Fits(r.value.1.v))
  {
    hide Pow2, IsQuotient, Fits;
    if y.NaN? || y.v == 0 || x.NaN? {
      return if quiet then Ok((NaN, NaN)) else Err(IntegerOverflow);
    }
    var q, rem := DivMod(x.v, y.v, mode);
    forall q', rem' | IsQuotient(mode, x.v, y.v, q', rem') ensures q' == q && rem' == rem {
      QuotientIsUnique(mode, x.v, y.v, q, rem, q', rem');
    }
    if Fits(x.v) && Fits(y.v) {
      QuotientFitsIff(mode, x.v, y.v, q, rem);
      RemainderFits(mode, x.v, y.v, q, rem);
    }
    return Delivered(q, rem, quiet);
  }

  /** The shifts of a value in range whose remainder is out of range: too wide, and rounded away from zero. */
  predicate WidelyRounded(mode: Round, x: int, shift: nat) {
    shift >= 257 && ((mode.FloorToNegativeInfinity? && x < 0) || (mode.Ceil? && x > 0))
  }

  /** A quotient by a power of two of a value in range is in range. */
  lemma ShiftQuotientFits(mode: Round, x: int, shift: nat, q: int, r: int)
    requires IsQuotient(mode, x, Pow2(shift), q, r) && Fits(x)
    ensures Fits(q)
  {
    hide Pow2;
    Pow2Doubles(255);
    if shift == 0 {
      Pow2Zero();
      UnitProducts(q);
    } else {
      Pow2Doubles(shift - 1);
      QuotientIsSmaller(Pow2(256), x, Pow2(shift), q, r);
    }
  }

  lemma Pow2Zero()
    ensures Pow2(0) == 1
  {}

  /** A value of up to half the divisor is its own remainder, or a divisor away from it. */
  lemma SmallDividend(mode: Round, x: int, y: int, q: int, r: int)
    requires IsQuotient(mode, x, y, q, r) && y >= 2 && -y <= 2 * x < y
    ensures r ==
      if mode.FloorToNegativeInfinity? && x < 0 then x + y
      else if mode.Ceil? && x > 0 then x - y
      else x
  {
    hide IsQuotient;
    if mode.FloorToNegativeInfinity? && x < 0 {
      assert IsQuotient(mode, x, y, -1, x + y) by { StepQuotient(mode, x, y, -1, x + y); }
      QuotientIsUnique(mode, x, y, q, r, -1, x + y);
    } else if mode.Ceil? && x > 0 {
      assert IsQuotient(mode, x, y, 1, x - y) by { StepQuotient(mode, x, y, 1, x - y); }
      QuotientIsUnique(mode, x, y, q, r, 1, x - y);
    } else {
      assert IsQuotient(mode, x, y, 0, x) by { StepQuotient(mode, x, y, 0, x); }
      QuotientIsUnique(mode, x, y, q, r, 0, x);
    }
  }

  lemma StepQuotient(mode: Round, x: int, y: int, q: int, r: int)
    requires -1 <= q <= 1 && r == (if q == 0 then x else if q == 1 then x - y else x + y)
    requires Abs(r) < Abs(y) && RemainderRule(mode, x, y, r)
    ensures IsQuotient(mode, x, y, q, r)
  {
    hide RemainderRule;
    UnitProducts(y);
  }

  /** The remainder of a shifted value in range is out of range for exactly these shifts. */
  lemma ShiftRemainderIff(mode: Round, x: int, shift: nat, q: int, r: int)
    requires IsQuotient(mode, x, Pow2(shift), q, r) && Fits(x)
    ensures Fits(r) <==> !WidelyRounded(mode, x, shift)
  {
    hide Pow2, IsQuotient;
    if shift <= 256 {
      ShiftRemainderFits(mode, x, shift, q, r);
    } else {
      Pow2Doubles(256);
      Pow2Monotonic(257, shift);
      SmallDividend(mode, x, Pow2(shift), q, r);
    }
  }

  /**
   * `IntegerData::div_by_shift` with a quiet or a signaling behavior. On integers of any size the
   * quotient and remainder of the mode decide, as for `Div`. On a value in range nothing is refused
   * but a shift by 257 or more that rounds away from zero, and that one raises also when quiet.
   */
  method ShiftDiv(x: IntegerData, shift: nat, mode: Round, quiet: bool) returns (r: Result<(IntegerData, IntegerData)>)
    ensures x.NaN? ==> r == if quiet then Ok((NaN, NaN)) else Err(IntegerOverflow)
    ensures x.Value? ==>
      && (exists q, rem :: IsQuotient(mode, x.v, Pow2(shift), q, rem))
      && forall q, rem :: IsQuotient(mode, x.v, Pow2(shift), q, rem) ==> r == Delivered(q, rem, quiet)
    ensures x.Value? && Fits(x.v) ==>
      if WidelyRounded(mode, x.v, shift) then r == Err(IntegerOverflow)
      else r.Ok? && r.value.0.Value? && r.value.1.Value?
           && IsQuotient(mode, x.v, Pow2(shift), r.value.0.v, r.value.1.v)
  {
    hide Pow2, IsQuotient, Fits;
    if x.NaN? {
      return if quiet then Ok((NaN, NaN)) else Err(IntegerOverflow);
    }
    var q, rem := DivByShift(x.v, shift, mode);
    forall q', rem' | IsQuotient(mode, x.v, Pow2(shift), q', rem') ensures q' == q && rem' == rem {
      QuotientIsUnique(mode, x.v, Pow2(shift), q, rem, q', rem');
    }
    if Fits(x.v) {
      ShiftQuotientFits(mode, x.v, shift, q, rem);
      ShiftRemainderIff(mode, x.v, shift, q, rem);
    }
    return Delivered(q, rem, quiet);
  }
}
