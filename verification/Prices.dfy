/** What things cost, in numbers. */
module Prices {
  import opened Values
  import opened Machine
  import opened GasMeter
  import opened Tolls
  import opened Metering

  /** An instruction costs 10 and its length, an implicit jump 10, an implicit return 5, a loop round nothing. */
  lemma StepPrices(tariff: Tariff, vm: Vm)
    ensures
      var cc, work := vm.core.cc, tariff.work(vm.steps, vm.core);
      BasePrice(tariff, vm) ==
      if cc.code.RemainingBits() > 0 then 10 + tariff.bits(cc.code) + work
      else if cc.code.RemainingReferences() > 0 then 10 + work
      else if cc.typ.Ordinary? || cc.typ.TryCatch? then 5
      else 0
  {}

  /** Slots beyond the thirty-second cost one unit each. */
  function Beyond32(n: nat): nat {
    if n > 32 then n - 32 else 0
  }

  /** Moving n slots pays for cutting them off, if some stay, and for the joint stack, if there is one. */
  lemma TransferCosts(cc: Continuation, k: Continuation, n: nat)
    ensures TransferPrice(cc, k, n)
         == (if |cc.stack| > n then Beyond32(n) else 0)
            + if |k.stack| > 0 && n > 0 then Beyond32(n + |k.stack|) else 0
  {}

  /** An exception costs 50 and what its delivery passes; uncaught it passes nothing. */
  lemma ExceptionCosts(core: Core, value: StackItem, code: int)
    ensures RaisePrice(core, value, code) >= 50
    ensures !HoldsCont(At(core.ctrls, 2)) ==> RaisePrice(core, value, code) == 50
    ensures HoldsCont(At(core.ctrls, 2)) && At(core.ctrls, 2).item.cont.typ == ExcQuit && code > 1 ==>
      RaisePrice(core, value, code) == 50
  {}

  /** A new counter has its limit and its credit to spend. */
  lemma FreshSpends(limit: int, credit: int, limitMax: int, price: int)
    ensures
      var g := GasMeter.Fresh(limit, credit, limitMax, price);
      && g.base == g.remaining == limit + credit && g.limit == limit && g.credit == credit
      && g.limitMax == limitMax && g.price == price
  {}

  /** A new limit is cut to what is allowed, takes the credit back and leaves what was spent. */
  lemma LimitSets(g: GasState, limit: int)
    ensures
      var r := Relimited(g, limit);
      && r.limit == r.base
      && r.base == (if limit < 0 || g.limitMax < 0 then 0 else if limit < g.limitMax then limit else g.limitMax)
      && r.credit == 0 && r.price == g.price && r.limitMax == g.limitMax
      && r.base - r.remaining == g.base - g.remaining
  {}

  /**
   * ACCEPT lifts the limit to the maximum, whatever that is between 0 and 2^63 - 1, and goes through
   * exactly when what has been spent, with its own price, stays within it.
   */
  lemma AcceptLifts(isa: Isa, tariff: Tariff, vm: Vm)
    requires IsInstruction(vm.core) && isa.fetch(vm.core.cc.code).Fetched?
    requires isa.fetch(vm.core.cc.code).instr == Accept
    requires 0 <= vm.gas.limitMax <= 9_223_372_036_854_775_807
    ensures
      var spent := vm.gas.Used() + 10 + tariff.bits(vm.core.cc.code) + tariff.work(vm.steps, vm.core);
      match Metered(isa, tariff, vm)
      case None => spent > vm.gas.limitMax
      case Some(g) =>
        && spent <= vm.gas.limitMax && g.Used() == spent
        && g.limit == g.base == vm.gas.limitMax && g.credit == 0
  {
    assert AttemptSite(isa, vm.core) == NoPass;
  }
}
