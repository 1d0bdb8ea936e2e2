/** `calculate_elections`: select, refund and weigh. */
module Election {
  import opened Bits
  import opened ElectionSpec
  import opened ElectionScan

  datatype Descr = Descr(pubKey: nat, weight: nat, adnlAddr: nat)

  datatype Frozen = Frozen(addr: Address, weight: nat, stake: nat, banned: bool)

  datatype ElectionResult = ElectionResult(
    list: seq<Descr>,
    totalWeight: nat,
    totalStake: nat,
    frozen: map<nat, Frozen>,
    credits: map<Address, nat>)

  datatype Refusal = NotEnoughValidators | StakeNotEnough | TotalsDiffer | DivisionByZero

  datatype Outcome = Elected(result: ElectionResult) | Refused(reason: Refusal)

  // ----- the chosen prefix -----

  function BestPrefix(vs: seq<Validator>, n: nat): (m: nat)
    requires n <= |vs|
    ensures m <= n
  {
    if n == 0 then 0 else
      var m := BestPrefix(vs, n - 1);
      if Running(vs, m) < Running(vs, n) then n else m
  }

  /** The recursion finds the first maximum, and there is only one. */
  lemma {:induction false} BestPrefixIsBest(vs: seq<Validator>, n: nat, m: nat)
    requires n <= |vs| && m <= n
    ensures m == BestPrefix(vs, n) <==> IsBest(vs, n, m)
  {
    BestPrefixFound(vs, n);
    var b := BestPrefix(vs, n);
    assert Running(vs, m) <= Running(vs, b);
    assert IsBest(vs, n, m) ==> Running(vs, b) <= Running(vs, m);
  }

  lemma {:induction false} BestPrefixFound(vs: seq<Validator>, n: nat)
    requires n <= |vs|
    ensures IsBest(vs, n, BestPrefix(vs, n))
  {
    hide Running;
    if n > 0 {
      BestPrefixFound(vs, n - 1);
    }
  }

  // ----- refunds -----

  /** What validator j gets back when the first m are elected. */
  function Leftover(vs: seq<Validator>, m: nat, j: nat): nat
    requires m <= |vs| && j < |vs|
  {
    if j < m then vs[j].stake - Effective(vs, m, j) else vs[j].stake
  }

  function LeftoverSum(vs: seq<Validator>, m: nat, n: nat): nat
    requires m <= |vs| && n <= |vs|
  {
    if n == 0 then 0 else LeftoverSum(vs, m, n - 1) + Leftover(vs, m, n - 1)
  }

  /** The leftovers of all validators below n that share an address. */
  function LeftoverTo(vs: seq<Validator>, m: nat, a: Address, n: nat): nat
    requires m <= |vs| && n <= |vs|
  {
    if n == 0 then 0 else LeftoverTo(vs, m, a, n - 1) + if vs[n - 1].addr == a then Leftover(vs, m, n - 1) else 0
  }

  function CreditOf(credits: map<Address, nat>, a: Address): nat {
    if a in credits then credits[a] else 0
  }

  function Credit(credits: map<Address, nat>, a: Address, leftover: nat): map<Address, nat> {
    if leftover > 0 then credits[a := leftover + CreditOf(credits, a)] else credits
  }

  /** The credits after the first n validators have been refunded. */
  function Refunded(credits: map<Address, nat>, vs: seq<Validator>, m: nat, n: nat): map<Address, nat>
    requires m <= |vs| && n <= |vs|
  {
    if n == 0 then credits else Credit(Refunded(credits, vs, m, n - 1), vs[n - 1].addr, Leftover(vs, m, n - 1))
  }

  /** Every address is credited with exactly the leftovers of its validators, also when it has several. */
  lemma {:induction false} RefundIsExact(credits: map<Address, nat>, vs: seq<Validator>, m: nat, n: nat, a: Address)
    requires m <= |vs| && n <= |vs|
    ensures CreditOf(Refunded(credits, vs, m, n), a) == CreditOf(credits, a) + LeftoverTo(vs, m, a, n)
  {
    if n > 0 {
      RefundIsExact(credits, vs, m, n - 1, a);
    }
  }

  ghost function CreditSum(credits: map<Address, nat>): nat
    decreases |credits|
  {
    if credits == map[] then 0 else
      var a :| a in credits;
      credits[a] + CreditSum(credits - {a})
  }

  lemma {:induction false} CreditSumWithout(credits: map<Address, nat>, a: Address)
    requires a in credits
    ensures CreditSum(credits) == credits[a] + CreditSum(credits - {a})
    decreases |credits|
  {
    var b :| b in credits && CreditSum(credits) == credits[b] + CreditSum(credits - {b});
    if a != b {
      CreditSumWithout(credits - {b}, a);
      CreditSumWithout(credits - {a}, b);
      assert credits - {a} - {b} == credits - {b} - {a};
    }
  }

  lemma {:induction false} CreditAddsUp(credits: map<Address, nat>, a: Address, leftover: nat)
    ensures CreditSum(Credit(credits, a, leftover)) == CreditSum(credits) + leftover
  {
    if leftover > 0 {
      var after := Credit(credits, a, leftover);
      CreditSumWithout(after, a);
      assert after - {a} == credits - {a};
      if a in credits {
        CreditSumWithout(credits, a);
      } else {
        assert credits - {a} == credits;
      }
    }
  }

  lemma {:induction false} RefundsAddUp(credits: map<Address, nat>, vs: seq<Validator>, m: nat, n: nat)
    requires m <= |vs| && n <= |vs|
    ensures CreditSum(Refunded(credits, vs, m, n)) == CreditSum(credits) + LeftoverSum(vs, m, n)
  {
    if n > 0 {
      RefundsAddUp(credits, vs, m, n - 1);
      CreditAddsUp(Refunded(credits, vs, m, n - 1), vs[n - 1].addr, Leftover(vs, m, n - 1));
    }
  }

  function StakeSum(vs: seq<Validator>, n: nat): nat
    requires n <= |vs|
  {
    if n == 0 then 0 else StakeSum(vs, n - 1) + vs[n - 1].stake
  }

  lemma {:induction false} StakesSplit(vs: seq<Validator>, m: nat, n: nat)
    requires 1 <= m <= |vs| && n <= |vs|
    ensures LeftoverSum(vs, m, n) + EffectiveSum(vs, m, Min(n, m)) == StakeSum(vs, n)
  {
    hide Effective;
    if n > 0 {
      StakesSplit(vs, m, n - 1);
      if n <= m {
        assert Effective(vs, m, n - 1) <= vs[n - 1].stake by { EffectiveBound(vs, m, n - 1); }
      }
    }
  }

  lemma EffectiveBound(vs: seq<Validator>, m: nat, j: nat)
    requires 1 <= m <= |vs| && j < |vs|
    ensures Effective(vs, m, j) <= vs[j].stake
  {}

  /** Money is conserved: credits and elected stake together grow by exactly the stakes that came in. */
  lemma {:induction false} StakeIsConserved(credits: map<Address, nat>, vs: seq<Validator>, m: nat)
    requires 1 <= m <= |vs|
    ensures CreditSum(Refunded(credits, vs, m, |vs|)) + Worth(vs, m) == CreditSum(credits) + StakeSum(vs, |vs|)
  {
    RefundsAddUp(credits, vs, m, |vs|);
    StakesSplit(vs, m, |vs|);
  }

  // ----- bounds -----

  lemma {:induction false} CutSharesWithinStakes(vs: seq<Validator>, i: nat, n: nat)
    requires i < |vs| && n <= |vs|
    ensures UncutStake(vs, i, n) * ONE + vs[i].stake * CutFactors(vs, i, n) <= StakeSum(vs, n) * ONE
  {
    if n > 0 {
      CutSharesWithinStakes(vs, i, n - 1);
      MulDistributes(vs[i].stake, CutFactors(vs, i, n - 1), vs[n - 1].maxFactor);
    }
  }

  /** The running total never exceeds the stakes it is made of. */
  lemma {:induction false} RunningWithinStakes(vs: seq<Validator>, k: nat)
    requires 1 <= k <= |vs|
    ensures Running(vs, k) <= StakeSum(vs, k)
  {
    CutSharesWithinStakes(vs, k - 1, k);
    DivAtLeast(vs[k - 1].stake * CutFactors(vs, k - 1, k), ONE, StakeSum(vs, k) - UncutStake(vs, k - 1, k) + 1);
  }

  lemma {:induction false} SumsBounded(vs: seq<Validator>, i: nat, n: nat, maxStake: nat, maxFactor: nat)
    requires i < |vs| && n <= |vs|
    requires forall j :: 0 <= j < |vs| ==> vs[j].stake <= maxStake && vs[j].maxFactor <= maxFactor
    ensures UncutStake(vs, i, n) <= StakeSum(vs, n) <= maxStake * n && CutFactors(vs, i, n) <= maxFactor * n
  {
    if n > 0 {
      SumsBounded(vs, i, n - 1, maxStake, maxFactor);
      MulDistributes(maxStake, n - 1, 1);
      MulDistributes(maxFactor, n - 1, 1);
    }
  }

  /**
   * If max_stake * n * max_factor fits 128 bits, so does everything the scan and the cut compute:
   * the sum before and after cutting, the product that is shifted, the total and each limit.
   */
  lemma {:induction false} NoOverflow(vs: seq<Validator>, i: nat, n: nat, maxStake: nat, maxFactor: nat)
    requires i < n <= |vs| && 1 <= maxFactor
    requires forall j :: 0 <= j < |vs| ==> vs[j].stake <= maxStake && vs[j].maxFactor <= maxFactor
    requires maxStake * (maxFactor * n) < Pow2(128)
    ensures StakeSum(vs, i + 1) < Pow2(128)
    ensures vs[i].stake * CutFactors(vs, i, i + 1) < Pow2(128)
    ensures Running(vs, i + 1) < Pow2(128)
    ensures forall j :: 0 <= j < n ==> vs[i].stake * vs[j].maxFactor < Pow2(128)
  {
    hide Pow2, Running;
    SumsBounded(vs, i, i + 1, maxStake, maxFactor);
    RunningWithinStakes(vs, i + 1);
    StakeProduct(maxStake, i + 1, n, maxFactor);
    FactorSum(maxFactor, i + 1, n);
    ProductBound(vs[i].stake, CutFactors(vs, i, i + 1), maxStake, maxFactor * n);
    forall j | 0 <= j < n ensures vs[i].stake * vs[j].maxFactor < Pow2(128) {
      ProductBound(vs[i].stake, vs[j].maxFactor, maxStake, maxFactor * n);
    }
  }

  lemma ProductBound(s: nat, f: nat, maxS: nat, maxF: nat)
    requires s <= maxS && f <= maxF
    ensures s * f <= maxS * maxF
  {}

  lemma FactorSum(maxFactor: nat, k: nat, n: nat)
    requires 1 <= k <= n
    ensures maxFactor * k <= maxFactor * n && maxFactor <= maxFactor * n
  {}

  lemma StakeProduct(maxStake: nat, k: nat, n: nat, maxFactor: nat)
    requires k <= n && 1 <= maxFactor
    ensures maxStake * k <= maxStake * (maxFactor * n)
  {}

  /** A running total of at least one unit per validator leaves a positive true total to divide by. */
  lemma {:induction false} PositiveWorth(vs: seq<Validator>, m: nat)
    requires 1 <= m <= |vs| && Running(vs, m) >= m
    ensures Worth(vs, m) > 0
  {
    RunningIsClose(vs, m);
  }

  /** Without that, rounding alone can make the choice worthless: two stakes of 1 with factors below 1.0. */
  lemma WorthCanVanish()
    ensures
      var v := Validator(1, 0, 0, 0, 40000, Address(0, 0), 0);
      IsBest([v, v], 2, 2) && Running([v, v], 2) == 1 && Worth([v, v], 2) == 0
  {
    var v := Validator(1, 0, 0, 0, 40000, Address(0, 0), 0);
    var vs := [v, v];
    assert Cut(vs, 0, 0) && Cut(vs, 0, 1) && Cut(vs, 1, 1);
    assert CutFactors(vs, 0, 1) == 40000 && CutFactors(vs, 1, 1) == 40000;
    assert CutFactors(vs, 1, 2) == 80000;
    assert UncutStake(vs, 0, 1) == 0 && UncutStake(vs, 1, 1) == 0;
    assert Share(1, 40000) == 0 && Share(1, 80000) == 1;
    assert Running(vs, 1) == 0;
    assert EffectiveSum(vs, 2, 1) == 0;
  }

  // ----- weights -----

  const FULL_WEIGHT := 0x1000_0000_0000_0000  // 2^60

  function Weight(vs: seq<Validator>, m: nat, j: nat): nat
    requires 1 <= m <= |vs| && j < |vs| && Worth(vs, m) > 0
  {
    Effective(vs, m, j) * FULL_WEIGHT / Worth(vs, m)
  }

  function WeightSum(vs: seq<Validator>, m: nat, n: nat): nat
    requires 1 <= m <= |vs| && n <= |vs| && Worth(vs, m) > 0
  {
    if n == 0 then 0 else WeightSum(vs, m, n - 1) + Weight(vs, m, n - 1)
  }

  lemma DivBounds(a: int, d: int)
    requires d > 0
    ensures a / d * d <= a <= a / d * d + d - 1
  {}

  lemma AddBounds(s: int, x: int, w: int, e: int, d: int, p: int, n: int)
    requires s * w <= e * p <= s * w + n * (w - 1)
    requires x * w <= d * p <= x * w + w - 1
    ensures (s + x) * w <= (e + d) * p <= (s + x) * w + (n + 1) * (w - 1)
  {}

  lemma {:induction false} WeightSumBounds(vs: seq<Validator>, m: nat, n: nat)
    requires 1 <= m <= |vs| && n <= |vs| && Worth(vs, m) > 0
    ensures
      var w := Worth(vs, m);
      WeightSum(vs, m, n) * w <= EffectiveSum(vs, m, n) * FULL_WEIGHT <= WeightSum(vs, m, n) * w + n * (w - 1)
  {
    hide Effective, Worth;
    if n > 0 {
      var w, d, x := Worth(vs, m), Effective(vs, m, n - 1), Weight(vs, m, n - 1);
      var s, e := WeightSum(vs, m, n - 1), EffectiveSum(vs, m, n - 1);
      WeightSumBounds(vs, m, n - 1);
      DivBounds(d * FULL_WEIGHT, w);
      AddBounds(s, x, w, e, d, FULL_WEIGHT, n - 1);
    }
  }

  lemma QuotientBounds(s: int, w: int, p: int, m: int)
    requires w > 0 && m >= 1 && s * w <= w * p <= s * w + m * (w - 1)
    ensures p - m < s <= p
  {}

  /** The weights sum to 2^60 up to less than one unit per validator, so they fit 64 bits. */
  lemma {:induction false} WeightsAreNormalized(vs: seq<Validator>, m: nat)
    requires 1 <= m <= |vs| && Worth(vs, m) > 0
    ensures 0x1000_0000_0000_0000 - m < WeightSum(vs, m, m) <= 0x1000_0000_0000_0000
  {
    WeightSumBounds(vs, m, m);
    QuotientBounds(WeightSum(vs, m, m), Worth(vs, m), FULL_WEIGHT, m);
  }

  lemma {:induction false} EffectiveSumMonotonic(vs: seq<Validator>, k: nat, j: nat, n: nat)
    requires 1 <= k <= |vs| && j < n <= |vs|
    ensures Effective(vs, k, j) <= EffectiveSum(vs, k, n)
  {
    if j < n - 1 {
      EffectiveSumMonotonic(vs, k, j, n - 1);
    }
  }

  lemma WeightFits(vs: seq<Validator>, m: nat, j: nat)
    requires 1 <= m <= |vs| && j < m && Worth(vs, m) > 0
    ensures Weight(vs, m, j) <= FULL_WEIGHT
  {
    EffectiveSumMonotonic(vs, m, j, m);
    var e, w := Effective(vs, m, j), Worth(vs, m);
    hide Effective, Worth;
    MulMonotonic(FULL_WEIGHT, e, w);
    DivAtLeast(e * FULL_WEIGHT, w, FULL_WEIGHT + 1);
  }

  // ----- the elected set -----

  function DescrOf(vs: seq<Validator>, m: nat, j: nat): Descr
    requires 1 <= m <= |vs| && j < |vs| && Worth(vs, m) > 0
  {
    Descr(vs[j].pubKey, Weight(vs, m, j), vs[j].adnlAddr)
  }

  function FrozenOf(vs: seq<Validator>, m: nat, n: nat): map<nat, Frozen>
    requires 1 <= m <= |vs| && n <= |vs| && Worth(vs, m) > 0
  {
    if n == 0 then map[] else
      FrozenOf(vs, m, n - 1)[
        vs[n - 1].pubKey := Frozen(vs[n - 1].addr, Weight(vs, m, n - 1), Effective(vs, m, n - 1), false)]
  }

  /**
   * Everyone elected is frozen, with the data of the last elected validator that has the key; `last`
   * is that validator, or -1 if nobody has the key.
   */
  lemma {:induction false} FrozenHasElected(vs: seq<Validator>, m: nat, n: nat, key: nat) returns (last: int)
    requires 1 <= m <= |vs| && n <= |vs| && Worth(vs, m) > 0
    ensures -1 <= last < n && forall j :: last < j < n ==> vs[j].pubKey != key
    ensures key in FrozenOf(vs, m, n) <==> last >= 0
    ensures last >= 0 ==>
      && vs[last].pubKey == key
      && FrozenOf(vs, m, n)[key] == Frozen(vs[last].addr, Weight(vs, m, last), Effective(vs, m, last), false)
  {
    hide Weight, Effective, Worth;
    if n == 0 {
      last := -1;
    } else {
      last := FrozenHasElected(vs, m, n - 1, key);
      if vs[n - 1].pubKey == key {
        last := n - 1;
      }
    }
  }

  /** The validator set of a result holds exactly the first k validators, with their cut stakes and weights. */
  ghost predicate Seated(vs: seq<Validator>, m: nat, r: ElectionResult, k: nat)
    requires 1 <= m <= |vs| && k <= m && Worth(vs, m) > 0
  {
    && |r.list| == k
    && (forall j :: 0 <= j < k ==> r.list[j] == DescrOf(vs, m, j))
    && r.totalWeight == WeightSum(vs, m, k)
    && r.totalStake == EffectiveSum(vs, m, k)
    && r.frozen == FrozenOf(vs, m, k)
  }

  ghost predicate ElectedFirst(vs: seq<Validator>, m: nat, credits: map<Address, nat>, r: ElectionResult)
    requires 1 <= m <= |vs| && Worth(vs, m) > 0
  {
    Seated(vs, m, r, m) && r.totalStake == Worth(vs, m) && r.credits == Refunded(credits, vs, m, |vs|)
  }

  /** A stake capped at the smallest elected stake times the factor, in 16.16 fixed point. */
  function Capped(v: Validator, smallest: nat): nat {
    var cap := smallest * v.maxFactor / 65536;
    if v.stake <= cap then v.stake else cap
  }

  /** An entry names the validator and weighs its capped stake against the total, 2^60 being the whole. */
  predicate IsEntryOf(d: Descr, v: Validator, smallest: nat, total: nat) {
    && d.pubKey == v.pubKey
    && d.adnlAddr == v.adnlAddr
    && d.weight * total <= Capped(v, smallest) * 1_152_921_504_606_846_976 < (d.weight + 1) * total
  }

  /** The frozen record of a key agrees with the entry of the last elected validator that has it. */
  predicate IsFrozenAs(r: ElectionResult, v: Validator, smallest: nat, d: Descr) {
    v.pubKey in r.frozen && r.frozen[v.pubKey] == Frozen(v.addr, d.weight, Capped(v, smallest), false)
  }

  /** What the caller of an election finds in its result, validator by validator. */
  ghost predicate ListsElected(vs: seq<Validator>, r: ElectionResult) {
    var m := |r.list|;
    && 1 <= m <= |vs|
    && (forall j :: 0 <= j < m ==> IsEntryOf(r.list[j], vs[j], vs[m - 1].stake, r.totalStake))
    && (forall j :: 0 <= j < m && (forall i :: j < i < m ==> vs[i].pubKey != vs[j].pubKey) ==>
          IsFrozenAs(r, vs[j], vs[m - 1].stake, r.list[j]))
  }

  lemma EntryIsRight(vs: seq<Validator>, m: nat, j: nat)
    requires 1 <= m <= |vs| && j < m && Worth(vs, m) > 0
    ensures IsEntryOf(DescrOf(vs, m, j), vs[j], vs[m - 1].stake, Worth(vs, m))
    ensures Capped(vs[j], vs[m - 1].stake) == Effective(vs, m, j)
  {
    hide Worth;
    DivBounds(Effective(vs, m, j) * FULL_WEIGHT, Worth(vs, m));
    NextMultiple(Weight(vs, m, j), Worth(vs, m));
  }

  lemma NextMultiple(q: int, d: int)
    ensures (q + 1) * d == q * d + d
  {}

  /** An elected prefix is listed and frozen with the right data. */
  lemma ElectedIsListed(vs: seq<Validator>, m: nat, credits: map<Address, nat>, r: ElectionResult)
    requires 1 <= m <= |vs| && Worth(vs, m) > 0 && ElectedFirst(vs, m, credits, r)
    ensures ListsElected(vs, r)
  {
    hide Worth, Weight, Effective, IsEntryOf, Capped;
    forall j | 0 <= j < m ensures IsEntryOf(r.list[j], vs[j], vs[m - 1].stake, r.totalStake) {
      EntryIsRight(vs, m, j);
    }
    forall j | 0 <= j < m && (forall i :: j < i < m ==> vs[i].pubKey != vs[j].pubKey)
      ensures IsFrozenAs(r, vs[j], vs[m - 1].stake, r.list[j])
    {
      EntryIsRight(vs, m, j);
      var last := FrozenHasElected(vs, m, m, vs[j].pubKey);
    }
  }

  /** The whole outcome, refusals included. */
  ghost predicate IsOutcome(
      credits: map<Address, nat>, validators: seq<Validator>, minValidators: nat, maxValidators: nat,
      minTotalStake: nat, r: Outcome)
  {
    SortDescending(validators);
    var vs := Sort(validators);
    var n := Min(maxValidators, |vs|);
    var m := BestPrefix(vs, n);
    if |validators| < minValidators then r == Refused(NotEnoughValidators)
    else if exists j :: 0 <= j < n && vs[j].maxFactor == 0 then r == Refused(DivisionByZero)
    else if m == 0 || Running(vs, m) < minTotalStake then r == Refused(StakeNotEnough)
    else if Running(vs, m) - Worth(vs, m) > 1_000_000_000 then r == Refused(TotalsDiffer)
    else if Worth(vs, m) == 0 then r == Refused(DivisionByZero)
    else r.Elected? && ElectedFirst(vs, m, credits, r.result)
  }

  /** Cuts the stakes of the first m validators and sums them. */
  method CutStakes(vs: seq<Validator>, m: nat, mStake: nat) returns (validators: seq<Validator>, best: nat)
    requires 1 <= m <= |vs| && mStake == vs[m - 1].stake
    ensures |validators| == |vs| && best == Worth(vs, m)
    ensures forall j :: 0 <= j < |vs| ==>
      validators[j] == if j < m then vs[j].(trueStake := Effective(vs, m, j)) else vs[j]
  {
    hide Effective;
    validators, best := vs, 0;
    for i := 0 to m
      invariant |validators| == |vs| && best == EffectiveSum(vs, m, i)
      invariant forall j :: 0 <= j < |vs| ==>
        validators[j] == if j < i then vs[j].(trueStake := Effective(vs, m, j)) else vs[j]
    {
      var cut := Min(validators[i].stake, Share(mStake, validators[i].maxFactor));
      EffectiveIs(vs, m, i);
      validators := validators[i := validators[i].(trueStake := cut)];
      best := best + cut;
    }
  }

  lemma EffectiveIs(vs: seq<Validator>, k: nat, j: nat)
    requires 1 <= k <= |vs| && j < |vs|
    ensures Effective(vs, k, j) == Min(vs[j].stake, Share(vs[k - 1].stake, vs[j].maxFactor))
  {}

  method Refund(credits: map<Address, nat>, addr: Address, leftoverStake: nat) returns (c: map<Address, nat>)
    ensures c == Credit(credits, addr, leftoverStake)
  {
    c := credits;
    var leftover := leftoverStake;
    if leftover > 0 {
      if addr in c {
        leftover := leftover + c[addr];
      }
      c := c[addr := leftover];
    }
  }

  /** Enters the next elected validator; its weight fits 64 bits and the credits stay. */
  method Elect(result: ElectionResult, validator: Validator, best: nat, ghost vs: seq<Validator>, ghost m: nat)
    returns (r: ElectionResult)
    requires 1 <= m <= |vs| && best == Worth(vs, m) && best > 0
    requires |result.list| < m && Seated(vs, m, result, |result.list|)
    requires var i := |result.list|; validator == vs[i].(trueStake := Effective(vs, m, i))
    ensures Seated(vs, m, r, |result.list| + 1) && r.credits == result.credits
  {
    hide Effective, Worth;
    r := result.(totalStake := result.totalStake + validator.trueStake);
    WeightFits(vs, m, |result.list|);
    var weight := validator.trueStake * FULL_WEIGHT / best;
    assert weight < 0x1_0000_0000_0000_0000;
    r := r.(totalWeight := r.totalWeight + weight);
    r := r.(list := r.list + [Descr(validator.pubKey, weight, validator.adnlAddr)]);
    r := r.(frozen := r.frozen[validator.pubKey := Frozen(validator.addr, weight, validator.trueStake, false)]);
  }

  /** Builds the new validator set and the refund set. */
  method Distribute(
      credits: map<Address, nat>, ghost vs: seq<Validator>, validators: seq<Validator>, m: nat, best: nat)
    returns (r: Outcome)
    requires 1 <= m <= |vs| && |validators| == |vs| && best == Worth(vs, m)
    requires forall j :: 0 <= j < |vs| ==> vs[j].trueStake == 0
    requires forall j :: 0 <= j < |vs| ==>
      validators[j] == if j < m then vs[j].(trueStake := Effective(vs, m, j)) else vs[j]
    ensures best == 0 ==> r == Refused(DivisionByZero)
    ensures best > 0 ==> r.Elected? && ElectedFirst(vs, m, credits, r.result) && ListsElected(vs, r.result)
  {
    hide Effective, Worth, ListsElected;
    var result := ElectionResult([], 0, 0, map[], credits);
    for i := 0 to |validators|
      invariant i > 0 ==> best > 0
      invariant best > 0 ==> Seated(vs, m, result, Min(i, m))
      invariant best > 0 ==> result.credits == Refunded(credits, vs, m, i)
    {
      var validator := validators[i];
      if i < m { EffectiveBound(vs, m, i); }
      var refunded := Refund(result.credits, validator.addr, validator.stake - validator.trueStake);
      result := result.(credits := refunded);
      if i < m {
        if best == 0 { return Refused(DivisionByZero); }
        result := Elect(result, validator, best, vs, m);
      }
    }
    EffectiveSumIsWorth(vs, m);
    assert result.totalStake == best;
    r := Elected(result);
    if best > 0 {
      ElectedIsListed(vs, m, credits, result);
    }
  }

  lemma EffectiveSumIsWorth(vs: seq<Validator>, m: nat)
    requires 1 <= m <= |vs|
    ensures EffectiveSum(vs, m, m) == Worth(vs, m)
  {}

  method CalculateElections(
      credits: map<Address, nat>, validators: seq<Validator>,
      minValidators: nat, maxValidators: nat, minTotalStake: nat)
    returns (r: Outcome)
    requires forall j :: 0 <= j < |validators| ==> validators[j].trueStake == 0
    ensures IsOutcome(credits, validators, minValidators, maxValidators, minTotalStake, r)
    ensures r.Elected? ==> ListsElected(Sort(validators), r.result)
  {
    hide ListsElected;
    if |validators| < minValidators { return Refused(NotEnoughValidators); }
    var n := Min(maxValidators, |validators|);
    var vs := Sort(validators);
    SortDescending(validators);
    forall j | 0 <= j < |vs| ensures vs[j].trueStake == 0 {
      assert vs[j] in multiset(vs);
    }
    var scan := Scan(vs, n);
    if scan.Err? { return Refused(DivisionByZero); }
    var Best(roundBest, m, mStake) := scan.value;
    BestPrefixIsBest(vs, n, m);
    if m == 0 || roundBest < minTotalStake { return Refused(StakeNotEnough); }
    var cut, best := CutStakes(vs, m, mStake);
    RunningIsClose(vs, m);
    var abs: int := if roundBest >= best then roundBest - best else best - roundBest;
    if abs > 1_000_000_000 { return Refused(TotalsDiffer); }
    r := Distribute(credits, vs, cut, m, best);
  }
}
