/**
 * Validator elections: what the selection means, independently of how it is scanned.
 * Stakes are unbounded integers; `Election.NoOverflow` says when 128 bits are enough.
 */
module ElectionSpec {
  import opened Bits

  datatype Address = Address(workchain: int, account: nat)

  datatype Validator = Validator(
    stake: nat,
    time: nat,
    pubKey: nat,
    trueStake: nat,
    maxFactor: nat,  // 16.16 fixed point
    addr: Address,
    adnlAddr: nat)

  const ONE := 65536  // 1.0 as a factor

  // ----- order -----

  /** Keys compare by stake, then time, then public key. */
  predicate KeyAtLeast(a: Validator, b: Validator) {
    || a.stake > b.stake
    || (a.stake == b.stake && a.time > b.time)
    || (a.stake == b.stake && a.time == b.time && a.pubKey >= b.pubKey)
  }

  ghost predicate Descending(vs: seq<Validator>) {
    forall i, j :: 0 <= i <= j < |vs| ==> KeyAtLeast(vs[i], vs[j])
  }

  function Insert(v: Validator, vs: seq<Validator>): seq<Validator> {
    if vs == [] || KeyAtLeast(v, vs[0]) then [v] + vs else [vs[0]] + Insert(v, vs[1..])
  }

  /** A stable sort, largest key first. */
  function Sort(vs: seq<Validator>): seq<Validator> {
    if vs == [] then [] else Insert(vs[0], Sort(vs[1..]))
  }

  lemma {:induction false} InsertDescending(v: Validator, vs: seq<Validator>)
    requires Descending(vs)
    ensures Descending(Insert(v, vs)) && multiset(Insert(v, vs)) == multiset(vs) + multiset{v}
  {
    if vs == [] || KeyAtLeast(v, vs[0]) {
    } else {
      assert vs == [vs[0]] + vs[1..];
      InsertDescending(v, vs[1..]);
      var rest := Insert(v, vs[1..]);
      forall j | 0 <= j < |rest|
        ensures KeyAtLeast(vs[0], rest[j])
      {
        assert rest[j] in multiset(rest);
        assert rest[j] == v || rest[j] in vs[1..];
      }
    }
  }

  /** Sorting gives a descending permutation. */
  lemma {:induction false} SortDescending(vs: seq<Validator>)
    ensures Descending(Sort(vs)) && multiset(Sort(vs)) == multiset(vs) && |Sort(vs)| == |vs|
  {
    if vs != [] {
      SortDescending(vs[1..]);
      InsertDescending(vs[0], Sort(vs[1..]));
      assert vs == [vs[0]] + vs[1..];
      assert |multiset(Sort(vs))| == |Sort(vs)|;
    }
  }

  /** Of two validators the larger stake comes first, then the later time, then the larger key. */
  lemma SortOrder(vs: seq<Validator>, i: nat, j: nat)
    requires i < j < |vs|
    ensures |Sort(vs)| == |vs|
    ensures
      var a, b := Sort(vs)[i], Sort(vs)[j];
      && a.stake >= b.stake
      && (a.stake == b.stake ==> a.time >= b.time)
      && (a.stake == b.stake && a.time == b.time ==> a.pubKey >= b.pubKey)
  {
    SortDescending(vs);
    assert KeyAtLeast(Sort(vs)[i], Sort(vs)[j]);
  }

  // ----- what electing the first k validators is worth -----

  /** A stake times a factor, rounded down. */
  function Share(stake: nat, factor: nat): nat {
    stake * factor / ONE
  }

  /** The most validator j may contribute when validator k - 1 is the smallest one elected. */
  function Limit(vs: seq<Validator>, k: nat, j: nat): nat
    requires 1 <= k <= |vs| && j < |vs|
  {
    Share(vs[k - 1].stake, vs[j].maxFactor)
  }

  function Min(a: nat, b: nat): nat {
    if a <= b then a else b
  }

  function Effective(vs: seq<Validator>, k: nat, j: nat): nat
    requires 1 <= k <= |vs| && j < |vs|
  {
    Min(vs[j].stake, Limit(vs, k, j))
  }

  function EffectiveSum(vs: seq<Validator>, k: nat, n: nat): nat
    requires 1 <= k <= |vs| && n <= |vs|
  {
    if n == 0 then 0 else EffectiveSum(vs, k, n - 1) + Effective(vs, k, n - 1)
  }

  /** The total stake of electing the first k validators, with every stake cut to its limit. */
  function Worth(vs: seq<Validator>, k: nat): nat
    requires k <= |vs|
  {
    if k == 0 then 0 else EffectiveSum(vs, k, k)
  }

  // ----- the running total of the scan -----

  /** Validator j exceeds its limit when validator i is the smallest one. */
  predicate Cut(vs: seq<Validator>, j: nat, i: nat)
    requires i < |vs| && j < |vs|
  {
    vs[j].stake * ONE >= vs[i].stake * vs[j].maxFactor
  }

  function UncutStake(vs: seq<Validator>, i: nat, n: nat): nat
    requires i < |vs| && n <= |vs|
  {
    if n == 0 then 0 else UncutStake(vs, i, n - 1) + if Cut(vs, n - 1, i) then 0 else vs[n - 1].stake
  }

  function CutFactors(vs: seq<Validator>, i: nat, n: nat): nat
    requires i < |vs| && n <= |vs|
  {
    if n == 0 then 0 else CutFactors(vs, i, n - 1) + if Cut(vs, n - 1, i) then vs[n - 1].maxFactor else 0
  }

  function Running(vs: seq<Validator>, k: nat): nat
    requires k <= |vs|
  {
    if k == 0 then 0 else UncutStake(vs, k - 1, k) + Share(vs[k - 1].stake, CutFactors(vs, k - 1, k))
  }

  /** m is the first prefix whose running total is the largest; 0 if no total is positive. */
  ghost predicate IsBest(vs: seq<Validator>, n: nat, m: nat)
    requires n <= |vs|
  {
    && m <= n
    && (forall k :: 0 <= k <= n ==> Running(vs, k) <= Running(vs, m))
    && (forall k :: 0 <= k < m ==> Running(vs, k) < Running(vs, m))
  }

  // ----- rounding: one division of a sum against a sum of divisions -----

  function CutLimits(vs: seq<Validator>, k: nat, n: nat): nat
    requires 1 <= k <= |vs| && n <= |vs|
  {
    if n == 0 then 0 else CutLimits(vs, k, n - 1) + if Cut(vs, n - 1, k - 1) then Limit(vs, k, n - 1) else 0
  }

  function CutCount(vs: seq<Validator>, k: nat, n: nat): (c: nat)
    requires 1 <= k <= |vs| && n <= |vs|
    ensures c <= n
  {
    if n == 0 then 0 else CutCount(vs, k, n - 1) + if Cut(vs, n - 1, k - 1) then 1 else 0
  }

  lemma ShareOfSum(s: nat, f: nat, g: nat)
    ensures Share(s, f) + Share(s, g) <= Share(s, f + g) <= Share(s, f) + Share(s, g) + 1
    ensures Share(s, 0) == 0
  {}

  lemma {:induction false} SumOfFloors(vs: seq<Validator>, k: nat, n: nat)
    requires 1 <= k <= |vs| && n <= |vs|
    ensures
      var whole := Share(vs[k - 1].stake, CutFactors(vs, k - 1, n));
      var c := CutCount(vs, k, n);
      CutLimits(vs, k, n) <= whole <= CutLimits(vs, k, n) + if c == 0 then 0 else c - 1
    ensures CutCount(vs, k, n) == 0 ==> CutFactors(vs, k - 1, n) == 0
  {
    hide Share, Cut;
    var s := vs[k - 1].stake;
    ShareOfSum(s, 0, 0);
    if n > 0 {
      SumOfFloors(vs, k, n - 1);
      ShareOfSum(s, CutFactors(vs, k - 1, n - 1), vs[n - 1].maxFactor);
    }
  }

  lemma DivAtLeast(a: int, d: int, b: int)
    requires d > 0
    ensures a / d >= b <==> a >= b * d
  {
    var q, r := a / d, a % d;
    assert a == d * q + r;
    if q >= b {
      MulMonotonic(d, b, q);
    } else {
      MulMonotonic(d, q, b - 1);
      MulDistributes(d, b, -1);
    }
  }

  /** A validator contributes its limit if it is cut and its whole stake if not. */
  lemma EffectiveByCut(vs: seq<Validator>, k: nat, j: nat)
    requires 1 <= k <= |vs| && j < |vs|
    ensures Effective(vs, k, j) == if Cut(vs, j, k - 1) then Limit(vs, k, j) else vs[j].stake
  {}

  lemma {:induction false} WorthByCut(vs: seq<Validator>, k: nat, n: nat)
    requires 1 <= k <= |vs| && n <= |vs|
    ensures EffectiveSum(vs, k, n) == UncutStake(vs, k - 1, n) + CutLimits(vs, k, n)
  {
    if n > 0 {
      WorthByCut(vs, k, n - 1);
      EffectiveByCut(vs, k, n - 1);
    }
  }

  /** The running total overestimates the true total by less than one unit per validator. */
  lemma {:induction false} RunningIsClose(vs: seq<Validator>, k: nat)
    requires 1 <= k <= |vs|
    ensures Worth(vs, k) <= Running(vs, k) <= Worth(vs, k) + k - 1
  {
    WorthByCut(vs, k, k);
    SumOfFloors(vs, k, k);
  }

  /** No other prefix beats the chosen one by m units or more. */
  lemma {:induction false} ChoiceIsNearOptimal(vs: seq<Validator>, n: nat, m: nat, k: nat)
    requires n <= |vs| && IsBest(vs, n, m) && 1 <= k <= n && m >= 1
    ensures Worth(vs, k) <= Worth(vs, m) + m - 1
  {
    RunningIsClose(vs, k);
    RunningIsClose(vs, m);
    assert Running(vs, k) <= Running(vs, m);
  }

  /** With up to 10^9 + 1 validators the tolerance of 10^9 between the two totals is never exceeded. */
  lemma {:induction false} ToleranceHolds(vs: seq<Validator>, m: nat)
    requires 1 <= m <= |vs| && m <= 1_000_000_001
    ensures Running(vs, m) - Worth(vs, m) <= 1_000_000_000
  {
    RunningIsClose(vs, m);
  }

  /** The true total is zero exactly when every elected stake or limit is. */
  lemma {:induction false} WorthlessChoice(vs: seq<Validator>, k: nat, n: nat)
    requires 1 <= k <= |vs| && n <= |vs|
    ensures EffectiveSum(vs, k, n) == 0 <==>
      forall j :: 0 <= j < n ==> vs[j].stake == 0 || vs[k - 1].stake * vs[j].maxFactor < ONE
  {
    if n > 0 {
      WorthlessChoice(vs, k, n - 1);
      DivAtLeast(vs[k - 1].stake * vs[n - 1].maxFactor, ONE, 1);
    }
  }
}
