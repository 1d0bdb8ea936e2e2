/** The incremental scan: one pass over the sorted validators with a list of stakes not yet cut. */
module ElectionScan {
  import opened Outcomes
  import opened Bits
  import opened ElectionSpec

  const PRECISION := 1_000_000_000_000_000_000

  /** `StakeAndFactor`: the scaled stake and, for the borrowed validator, its position. */
  datatype StakeAndFactor = StakeAndFactor(stake: nat, validator: nat)

  ghost predicate Ascending(list: seq<StakeAndFactor>) {
    forall i, j :: 0 <= i <= j < |list| ==> list[i].stake <= list[j].stake
  }

  class SortedList {
    var list: seq<StakeAndFactor>

    constructor ()
      ensures list == []
    {
      list := [];
    }

    /** Where an element with this stake goes: after all that are not larger. */
    method PartitionPoint(stake: nat) returns (index: nat)
      requires Ascending(list)
      ensures index <= |list|
      ensures forall i :: 0 <= i < index ==> list[i].stake <= stake
      ensures forall i :: index <= i < |list| ==> stake < list[i].stake
    {
      var low, high := 0, |list|;
      while low < high
        invariant 0 <= low <= high <= |list|
        invariant forall i :: 0 <= i < low ==> list[i].stake <= stake
        invariant forall i :: high <= i < |list| ==> stake < list[i].stake
      {
        var mid := (low + high) / 2;
        if stake >= list[mid].stake {
          low := mid + 1;
        } else {
          high := mid;
        }
      }
      index := low;
    }

    method Insert(element: StakeAndFactor)
      requires Ascending(list)
      modifies this
      ensures Ascending(list)
      ensures multiset(list) == multiset(old(list)) + multiset{element}
    {
      var index := PartitionPoint(element.stake);
      ghost var before := list;
      list := list[..index] + [element] + list[index..];
      assert before == before[..index] + before[index..];
    }

    method Pop() returns (element: Option<StakeAndFactor>)
      requires Ascending(list)
      modifies this
      ensures Ascending(list)
      ensures old(list) == [] ==> element == None && list == []
      ensures old(list) != [] ==> element.Some? && old(list) == list + [element.value]
    {
      if list == [] {
        element := None;
      } else {
        element := Some(list[|list| - 1]);
        list := list[..|list| - 1];
      }
    }

    /** In a sorted list the last element is one that no stake exceeds. */
    method Last() returns (element: Option<StakeAndFactor>)
      ensures list == [] <==> element == None
      ensures list != [] ==> element == Some(list[|list| - 1])
      ensures element.Some? && Ascending(list) ==>
        element.value in list && forall e :: e in list ==> e.stake <= element.value.stake
    {
      element := if list == [] then None else Some(list[|list| - 1]);
    }
  }

  // ----- which validators are in the list -----

  function Scaled(v: Validator): nat
    requires v.maxFactor > 0
  {
    v.stake * PRECISION * ONE / v.maxFactor
  }

  /** Comparing the floored, scaled quotient decides exactly whether a validator is cut. */
  lemma {:induction false} ScaledIsExact(vs: seq<Validator>, j: nat, i: nat)
    requires i < |vs| && j < |vs| && vs[j].maxFactor > 0
    ensures Scaled(vs[j]) >= vs[i].stake * PRECISION <==> Cut(vs, j, i)
  {
    var s, t, f := vs[j].stake, vs[i].stake, vs[j].maxFactor;
    DivAtLeast(s * PRECISION * ONE, f, t * PRECISION);
    assert s * PRECISION * ONE == PRECISION * (s * ONE);
    assert t * PRECISION * f == PRECISION * (t * f) by {
      MulAssociates(PRECISION, t, f);
    }
    if s * ONE >= t * f {
      MulMonotonic(PRECISION, t * f, s * ONE);
    } else {
      MulMonotonic(PRECISION, s * ONE, t * f - 1);
      MulDistributes(PRECISION, t * f, -1);
    }
  }

  /** Once cut, always cut, because stakes only get smaller. */
  lemma CutStays(vs: seq<Validator>, j: nat, i: nat, i': nat)
    requires Descending(vs) && j < |vs| && i <= i' < |vs| && Cut(vs, j, i)
    ensures Cut(vs, j, i')
  {}

  function Entry(vs: seq<Validator>, j: nat): StakeAndFactor
    requires j < |vs| && vs[j].maxFactor > 0
  {
    StakeAndFactor(Scaled(vs[j]), j)
  }

  ghost predicate Electable(vs: seq<Validator>, members: set<nat>) {
    forall j :: j in members ==> j < |vs| && vs[j].maxFactor > 0
  }

  ghost function Entries(vs: seq<Validator>, members: set<nat>): set<StakeAndFactor>
    requires Electable(vs, members)
  {
    set j | j in members :: Entry(vs, j)
  }

  /** The list holds exactly the validators of `members`, each once and with its scaled stake. */
  ghost predicate Holds(list: seq<StakeAndFactor>, vs: seq<Validator>, members: set<nat>) {
    Electable(vs, members) && multiset(list) == multiset(Entries(vs, members))
  }

  lemma HoldsElement(list: seq<StakeAndFactor>, vs: seq<Validator>, members: set<nat>, e: nat)
    requires Holds(list, vs, members) && e < |list|
    ensures list[e].validator in members && list[e].validator < |vs| && vs[list[e].validator].maxFactor > 0
    ensures list[e] == Entry(vs, list[e].validator)
  {
    hide Scaled;
    assert list[e] in multiset(list);
    assert list[e] in Entries(vs, members);
  }

  lemma HoldsMember(list: seq<StakeAndFactor>, vs: seq<Validator>, members: set<nat>, j: nat)
    requires Holds(list, vs, members) && j in members
    ensures j < |vs| && vs[j].maxFactor > 0 && Entry(vs, j) in list
  {
    hide Scaled;
    assert Entry(vs, j) in Entries(vs, members);
    assert Entry(vs, j) in multiset(list);
  }

  lemma InsertHolds(before: seq<StakeAndFactor>, after: seq<StakeAndFactor>, vs: seq<Validator>, members: set<nat>,
      j: nat)
    requires Holds(before, vs, members) && j !in members && j < |vs| && vs[j].maxFactor > 0
    requires multiset(after) == multiset(before) + multiset{Entry(vs, j)}
    ensures Holds(after, vs, members + {j})
  {}

  lemma PopHolds(rest: seq<StakeAndFactor>, e: StakeAndFactor, vs: seq<Validator>, members: set<nat>)
    requires Holds(rest + [e], vs, members)
    ensures Holds(rest, vs, members - {e.validator})
  {
    hide Scaled;
    HoldsElement(rest + [e], vs, members, |rest|);
    assert Entries(vs, members - {e.validator}) == Entries(vs, members) - {e};
    assert multiset(rest + [e]) == multiset(rest) + multiset{e};
    assert multiset(rest) == multiset(Entries(vs, members)) - multiset{e};
    assert multiset(Entries(vs, members) - {e}) == multiset(Entries(vs, members)) - multiset{e};
  }

  lemma HoldsNone(vs: seq<Validator>)
    ensures Holds([], vs, {})
  {}

  function StakeIn(vs: seq<Validator>, members: set<nat>, n: nat): nat
    requires n <= |vs|
  {
    if n == 0 then 0 else StakeIn(vs, members, n - 1) + if n - 1 in members then vs[n - 1].stake else 0
  }

  function FactorOut(vs: seq<Validator>, members: set<nat>, n: nat): nat
    requires n <= |vs|
  {
    if n == 0 then 0 else FactorOut(vs, members, n - 1) + if n - 1 in members then 0 else vs[n - 1].maxFactor
  }

  lemma {:induction false} SumsAgree(vs: seq<Validator>, a: set<nat>, b: set<nat>, n: nat)
    requires n <= |vs| && forall j :: 0 <= j < n ==> (j in a <==> j in b)
    ensures StakeIn(vs, a, n) == StakeIn(vs, b, n) && FactorOut(vs, a, n) == FactorOut(vs, b, n)
  {
    if n > 0 {
      SumsAgree(vs, a, b, n - 1);
    }
  }

  lemma {:induction false} RemoveMember(vs: seq<Validator>, members: set<nat>, j: nat, n: nat)
    requires n <= |vs| && j in members && j < n
    ensures StakeIn(vs, members, n) == StakeIn(vs, members - {j}, n) + vs[j].stake
    ensures FactorOut(vs, members - {j}, n) == FactorOut(vs, members, n) + vs[j].maxFactor
  {
    if j == n - 1 {
      SumsAgree(vs, members, members - {j}, n - 1);
    } else {
      RemoveMember(vs, members, j, n - 1);
    }
  }

  lemma {:induction false} SumsByCut(vs: seq<Validator>, members: set<nat>, i: nat, n: nat)
    requires i < |vs| && n <= |vs| && forall j :: 0 <= j < n ==> (j in members <==> !Cut(vs, j, i))
    ensures StakeIn(vs, members, n) == UncutStake(vs, i, n)
    ensures FactorOut(vs, members, n) == CutFactors(vs, i, n)
  {
    if n > 0 {
      SumsByCut(vs, members, i, n - 1);
    }
  }

  // ----- the scan -----

  datatype Best = Best(stake: nat, m: nat, mStake: nat)

  /**
   * The scan of the first n validators. It fails, dividing by zero, exactly when one of them has
   * a zero factor; otherwise it returns the best prefix and its running total.
   */
  method Scan(vs: seq<Validator>, n: nat) returns (r: Result<Best>)
    requires Descending(vs) && n <= |vs|
    ensures r.Err? <==> exists j :: 0 <= j < n && vs[j].maxFactor == 0
    ensures r.Ok? ==>
      && IsBest(vs, n, r.value.m)
      && r.value.stake == Running(vs, r.value.m)
      && (r.value.m > 0 ==> r.value.mStake == vs[r.value.m - 1].stake)
  {
    hide Cut, Holds, Share, Running, IsBest, StakeIn, FactorOut, Descending, Ascending;
    var best := Best(0, 0, 0);
    var wholeStake, cutFactSum := 0, 0;
    var wholesStakes := new SortedList();
    ghost var members: set<nat> := {};
    HoldsNone(vs);
    BestOfNone(vs);
    var qty := 0;
    while qty < n
      invariant 0 <= qty <= n && fresh(wholesStakes)
      invariant forall j :: 0 <= j < qty ==> vs[j].maxFactor > 0
      invariant Ascending(wholesStakes.list) && Holds(wholesStakes.list, vs, members)
      invariant forall j :: j in members ==> j < qty
      invariant qty > 0 ==> forall j :: 0 <= j < qty ==> (j in members <==> !Cut(vs, j, qty - 1))
      invariant wholeStake == StakeIn(vs, members, qty) && cutFactSum == FactorOut(vs, members, qty)
      invariant best.m <= qty && IsBest(vs, qty, best.m) && best.stake == Running(vs, best.m)
      invariant best.m > 0 ==> best.mStake == vs[best.m - 1].stake
    {
      if vs[qty].maxFactor == 0 { return Err(Panic); }
      wholeStake, cutFactSum, members := ScanOne(vs, qty, wholesStakes, wholeStake, cutFactSum, members);
      SumsByCut(vs, members, qty, qty + 1);
      var totalStake := wholeStake + Share(vs[qty].stake, cutFactSum);
      RunningBySums(vs, members, qty);
      BestGrows(vs, qty, best.m);
      if best.stake < totalStake {
        best := Best(totalStake, qty + 1, vs[qty].stake);
      }
      qty := qty + 1;
    }
    r := Ok(best);
  }

  lemma BestOfNone(vs: seq<Validator>)
    ensures IsBest(vs, 0, 0) && Running(vs, 0) == 0 && StakeIn(vs, {}, 0) == 0 && FactorOut(vs, {}, 0) == 0
    ensures Ascending([])
  {}

  /** The sums over the list are the running total. */
  lemma RunningBySums(vs: seq<Validator>, members: set<nat>, qty: nat)
    requires qty < |vs|
    requires StakeIn(vs, members, qty + 1) == UncutStake(vs, qty, qty + 1)
    requires FactorOut(vs, members, qty + 1) == CutFactors(vs, qty, qty + 1)
    ensures StakeIn(vs, members, qty + 1) + Share(vs[qty].stake, FactorOut(vs, members, qty + 1))
         == Running(vs, qty + 1)
  {}

  /** The best of one prefix more is that prefix or the best so far. */
  lemma BestGrows(vs: seq<Validator>, n: nat, m: nat)
    requires n < |vs| && IsBest(vs, n, m)
    ensures IsBest(vs, n + 1, if Running(vs, m) < Running(vs, n + 1) then n + 1 else m)
  {}

  /** One validator of the scan: it joins the list, then everything that is cut leaves it. */
  method ScanOne(
      vs: seq<Validator>, qty: nat, wholesStakes: SortedList, whole: nat, cut: nat, ghost members: set<nat>)
    returns (wholeStake: nat, cutFactSum: nat, ghost members': set<nat>)
    requires Descending(vs) && qty < |vs| && vs[qty].maxFactor > 0
    requires Ascending(wholesStakes.list) && Holds(wholesStakes.list, vs, members)
    requires forall j :: j in members ==> j < qty
    requires qty > 0 ==> forall j :: 0 <= j < qty ==> (j in members <==> !Cut(vs, j, qty - 1))
    requires whole == StakeIn(vs, members, qty) && cut == FactorOut(vs, members, qty)
    modifies wholesStakes
    ensures Ascending(wholesStakes.list) && Holds(wholesStakes.list, vs, members')
    ensures forall j :: j in members' ==> j < qty + 1
    ensures forall j :: 0 <= j < qty + 1 ==> (j in members' <==> !Cut(vs, j, qty))
    ensures wholeStake == StakeIn(vs, members', qty + 1) && cutFactSum == FactorOut(vs, members', qty + 1)
  {
    hide Scaled, Cut, Holds, Descending, Ascending, StakeIn, FactorOut;
    wholeStake, cutFactSum := whole + vs[qty].stake, cut;
    var stakeBig := vs[qty].stake * PRECISION;
    ghost var before := wholesStakes.list;
    wholesStakes.Insert(StakeAndFactor(Scaled(vs[qty]), qty));
    members' := members + {qty};
    InsertHolds(before, wholesStakes.list, vs, members, qty);
    JoinSums(vs, members, qty);
    forall j | 0 <= j < qty + 1 && j !in members' ensures Cut(vs, j, qty) {
      CutStays(vs, j, qty - 1, qty);
    }
    var last := wholesStakes.Last();
    while last.Some?
      invariant last == if wholesStakes.list == [] then None else Some(wholesStakes.list[|wholesStakes.list| - 1])
      invariant Ascending(wholesStakes.list) && Holds(wholesStakes.list, vs, members')
      invariant forall j :: j in members' ==> j < qty + 1
      invariant forall j :: 0 <= j < qty + 1 && j !in members' ==> Cut(vs, j, qty)
      invariant wholeStake == StakeIn(vs, members', qty + 1) && cutFactSum == FactorOut(vs, members', qty + 1)
      decreases |wholesStakes.list|
    {
      var e := last.value;
      if e.stake < stakeBig { break; }
      HoldsElement(wholesStakes.list, vs, members', |wholesStakes.list| - 1);
      ScaledIsExact(vs, e.validator, qty);
      RemoveMember(vs, members', e.validator, qty + 1);
      wholeStake := wholeStake - vs[e.validator].stake;
      cutFactSum := cutFactSum + vs[e.validator].maxFactor;
      var _ := wholesStakes.Pop();
      PopHolds(wholesStakes.list, e, vs, members');
      members' := members' - {e.validator};
      last := wholesStakes.Last();
    }
    AllUncut(wholesStakes.list, vs, members', qty);
  }

  /** A new member adds its stake to the sum of the members and nothing to that of the others. */
  lemma JoinSums(vs: seq<Validator>, members: set<nat>, qty: nat)
    requires qty < |vs| && qty !in members
    ensures StakeIn(vs, members + {qty}, qty + 1) == StakeIn(vs, members, qty) + vs[qty].stake
    ensures FactorOut(vs, members + {qty}, qty + 1) == FactorOut(vs, members, qty)
  {
    SumsAgree(vs, members, members + {qty}, qty);
  }

  /** If the last element is below the threshold, nobody in the list is cut. */
  lemma AllUncut(list: seq<StakeAndFactor>, vs: seq<Validator>, members: set<nat>, i: nat)
    requires Ascending(list) && Holds(list, vs, members) && i < |vs|
    requires list != [] ==> list[|list| - 1].stake < vs[i].stake * PRECISION
    ensures forall j :: j in members ==> j < |vs| && !Cut(vs, j, i)
  {
    hide Scaled, Cut, Holds;
    forall j | j in members ensures j < |vs| && !Cut(vs, j, i) {
      HoldsMember(list, vs, members, j);
      var e :| 0 <= e < |list| && list[e] == Entry(vs, j);
      assert list[e].stake <= list[|list| - 1].stake;
      ScaledIsExact(vs, j, i);
    }
  }
}
