/** The gas counter: limits, charges, and what never changes under a new limit. */
module GasMeter {

  const MAX_I64: int := 0x7FFF_FFFF_FFFF_FFFF
  const EXCEPTION_PRICE: nat := 50
  const IMPLICIT_JMPREF_PRICE: nat := 10
  const IMPLICIT_RET_PRICE: nat := 5
  const BASIC_PRICE: nat := 10
  const FREE_STACK_DEPTH: nat := 32

  function Max(a: int, b: int): (m: int)
    ensures m >= a && m >= b && (m == a || m == b)
  {
    if a >= b then a else b
  }

  function Min(a: int, b: int): (m: int)
    ensures m <= a && m <= b && (m == a || m == b)
  {
    if a <= b then a else b
  }

  datatype GasState = GasState(limitMax: int, limit: int, credit: int, remaining: int, price: int, base: int) {
    /** Gas spent so far. */
    function Used(): int {
      base - remaining
    }

    /** No limit change can lift the base above this. */
    function Ceiling(): int {
      Max(base, Max(0, limitMax))
    }
  }

  /** `Gas::new`. */
  function Fresh(limit: int, credit: int, limitMax: int, price: int): GasState {
    GasState(limitMax, limit, credit, limit + credit, price, limit + credit)
  }

  function Charged(g: GasState, amount: int): GasState {
    g.(remaining := g.remaining - amount)
  }

  function Relimited(g: GasState, limit: int): GasState {
    var l := Max(0, Min(limit, g.limitMax));
    g.(limit := l, credit := 0, remaining := g.remaining + l - g.base, base := l)
  }

  /** Charging spends exactly the amount; a new limit spends nothing and stays under the ceiling. */
  lemma Conservation(g: GasState, amount: int, limit: int)
    ensures Charged(g, amount).Used() == g.Used() + amount
    ensures Relimited(g, limit).Used() == g.Used()
    ensures Relimited(g, limit).Ceiling() <= g.Ceiling() && Charged(g, amount).Ceiling() == g.Ceiling()
    ensures Relimited(g, limit).remaining >= 0 <==> g.Used() <= Max(0, Min(limit, g.limitMax))
  {}

  datatype Event = Spend(amount: nat) | Limit(limit: int)

  function AfterEvents(g: GasState, events: seq<Event>): GasState {
    if events == [] then g else
      var g1 := AfterEvents(g, events[..|events| - 1]);
      match events[|events| - 1]
      case Spend(amount) => Charged(g1, amount)
      case Limit(limit) => Relimited(g1, limit)
  }

  function Total(events: seq<Event>): nat {
    if events == [] then 0 else
      Total(events[..|events| - 1]) + (match events[|events| - 1] case Spend(amount) => amount case Limit(_) => 0)
  }

  /**
   * Gas used is the sum of all charges, however they interleave with changes of the limit, and
   * no interleaving lifts the base above the ceiling of the start.
   */
  lemma {:induction false} UsedIsTotal(g: GasState, events: seq<Event>)
    ensures AfterEvents(g, events).Used() == g.Used() + Total(events)
    ensures AfterEvents(g, events).base <= AfterEvents(g, events).Ceiling() <= g.Ceiling()
  {
    if events != [] {
      UsedIsTotal(g, events[..|events| - 1]);
    }
  }

  function StackPrice(depth: nat): (p: nat)
    ensures p == if depth <= 32 then 0 else depth - 32
  {
    (if depth > FREE_STACK_DEPTH then depth else FREE_STACK_DEPTH) - FREE_STACK_DEPTH
  }

  class Gas {
    var limitMax: int
    var limit: int
    var credit: int
    var remaining: int
    var price: int
    var base: int

    function State(): GasState
      reads this
    {
      GasState(limitMax, limit, credit, remaining, price, base)
    }

    constructor (limit: int, credit: int, limitMax: int, price: int)
      ensures State() == Fresh(limit, credit, limitMax, price)
      ensures State().Used() == 0
    {
      var total := limit + credit;
      this.price := price;
      this.limit := limit;
      this.limitMax := limitMax;
      this.remaining := total;
      this.credit := credit;
      this.base := total;
    }

    /** Moves the limit without touching what has been spent. */
    method NewGasLimit(gasLimit: int)
      modifies this
      ensures State() == Relimited(old(State()), gasLimit)
      ensures State().Used() == old(State().Used())
    {
      limit := if gasLimit < limitMax then gasLimit else limitMax;
      if limit < 0 {
        limit := 0;
      }
      credit := 0;
      remaining := remaining + limit - base;
      base := limit;
    }

    method UseGas(amount: int) returns (left: int)
      modifies this
      ensures State() == Charged(old(State()), amount)
      ensures left == remaining
    {
      remaining := remaining - amount;
      left := remaining;
    }

    /** Charges first and complains afterwards: the charge stays even when it is refused. */
    method TryUseGas(amount: int) returns (ok: bool)
      modifies this
      ensures State() == Charged(old(State()), amount)
      ensures ok <==> old(State().Used()) + amount <= base
    {
      remaining := remaining - amount;
      ok := CheckGasRemaining();
    }

    method CheckGasRemaining() returns (ok: bool)
      ensures ok <==> State().Used() <= base
    {
      ok := remaining >= 0;
    }

    /** The reported use never exceeds the base. */
    function GasUsed(): (used: int)
      reads this
      ensures used == Min(State().Used(), base)
    {
      if remaining > 0 then base - remaining else base
    }
  }
}
