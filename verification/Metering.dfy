/**
 * The machine under gas: every run ends, spent gas bounds the work done, and gas can stop a run
 * but never changes what it computes.
 */
module Metering {
  import opened Outcomes
  import opened Cells
  import opened Values
  import opened Machine
  import opened GasMeter
  import opened Tolls

  datatype Vm = Vm(core: Core, gas: GasState, steps: nat)

  /**
   * What an instruction costs beyond the basic price by its length, and what an instruction or an
   * implicit jump charges for its own work. The latter may depend on the number of the step, and so
   * on everything that has happened before it. Any functions will do.
   */
  datatype Tariff = Tariff(bits: Slice -> nat, work: (nat, Core) -> nat)

  datatype VmOutcome = Going(vm: Vm) | Over(vm: Vm, result: Outcome) | OutOfFuel

  // ----- what one step charges -----

  /** The operation a step attempts, if it is not a stop. */
  function Attempt(isa: Isa, core: Core): Option<Exec> {
    if !OutOfBits(core.cc.code) then Some(StepInstr(isa, core))
    else if !Exhausted(core.cc.code) then Some(StepJmpRef(isa, core))
    else
      match core.cc.typ
      case Quit(_) => None
      case ExcQuit => None
      case Ordinary => if At(core.ctrls, 0).Unset? then None else Some(Return(core))
      case _ => Some(StepSpecial(core))
  }

  /** A step is an attempt, with its exception delivered, or a stop. */
  lemma StepIsAttempt(isa: Isa, core: Core)
    ensures Attempt(isa, core).Some? ==> Step(isa, core) == Settle(Attempt(isa, core).value)
    ensures Attempt(isa, core).None? ==> !Step(isa, core).Next?
  {}

  predicate IsInstruction(core: Core) {
    !OutOfBits(core.cc.code)
  }

  /** Price of the kind of step; going round a loop or pushing an implicit integer is free. */
  function KindPrice(tariff: Tariff, core: Core): nat {
    if IsInstruction(core) then BASIC_PRICE + tariff.bits(core.cc.code)
    else if !Exhausted(core.cc.code) then IMPLICIT_JMPREF_PRICE
    else if core.cc.typ.Ordinary? || core.cc.typ.TryCatch? then IMPLICIT_RET_PRICE
    else 0
  }

  /** Price of the kind of step and of its own work. */
  function BasePrice(tariff: Tariff, vm: Vm): nat {
    KindPrice(tariff, vm.core) + (if Exhausted(vm.core.cc.code) then 0 else tariff.work(vm.steps, vm.core))
  }

  /** Where the attempt of a step hands over the stack. */
  function AttemptSite(isa: Isa, core: Core): Site {
    if IsInstruction(core) then
      match isa.fetch(core.cc.code)
      case Invalid => NoPass
      case Fetched(instr, rest) => ExecuteSite(core.(cc := core.cc.(code := rest)), instr)
    else if !Exhausted(core.cc.code) then NoPass
    else if core.cc.typ.Ordinary? then ReturnSite(core)
    else SpecialSite(core)
  }

  function ExceptionPrice(isa: Isa, core: Core): nat {
    match Attempt(isa, core)
    case Some(Threw(failed, v, n)) => RaisePrice(failed, v, n)
    case _ => 0
  }

  /** Everything a step charges: itself, its transfer of the stack, and the exception it raises. */
  function Charge(isa: Isa, tariff: Tariff, vm: Vm): nat {
    BasePrice(tariff, vm) + SitePrice(AttemptSite(isa, vm.core)) + ExceptionPrice(isa, vm.core)
  }

  /** The limit an instruction asks for. */
  function NewLimit(isa: Isa, core: Core): Option<int> {
    if OutOfBits(core.cc.code) then None else
      match isa.fetch(core.cc.code)
      case Fetched(Accept, _) => Some(MAX_I64)
      case Fetched(SetGasLimit, _) =>
        var s := core.cc.stack;
        if |s| > 0 && s[|s| - 1].Integer? && s[|s| - 1].data.Value? && StepInstr(isa, core).Done?
        then Some(s[|s| - 1].data.v)
        else None
      case _ => None
  }

  /** SETGASLIMIT below what is spent already is refused. */
  function Metered(isa: Isa, tariff: Tariff, vm: Vm): Option<GasState> {
    var g := Charged(vm.gas, Charge(isa, tariff, vm));
    var g1 := match NewLimit(isa, vm.core) case None => g case Some(l) => Relimited(g, l);
    if NewLimit(isa, vm.core).Some? && NewLimit(isa, vm.core).value < g.Used() then None
    else if g1.remaining < 0 then None
    else Some(g1)
  }

  function VmStep(isa: Isa, tariff: Tariff, vm: Vm): VmOutcome {
    match Metered(isa, tariff, vm)
    case None => OutOfFuel
    case Some(g) =>
      var o := Step(isa, vm.core);
      if o.Next? then Going(Vm(o.core, g, vm.steps + 1)) else Over(Vm(o.core, g, vm.steps + 1), o)
  }

  function VmRun(isa: Isa, tariff: Tariff, vm: Vm, n: nat): VmOutcome
    decreases n
  {
    if n == 0 then Going(vm) else
      match VmStep(isa, tariff, vm)
      case Going(vm1) => VmRun(isa, tariff, vm1, n - 1)
      case other => other
  }

  // ----- gas only stops -----

  /** A metered run is a prefix of the unmetered one, state by state, and ends as it does unless gas runs out. */
  lemma {:induction false} GasOnlyStops(isa: Isa, tariff: Tariff, vm: Vm, n: nat)
    ensures
      match VmRun(isa, tariff, vm, n)
      case Going(vm1) => Run(isa, vm.core, n) == Next(vm1.core)
      case Over(vm1, r) => Run(isa, vm.core, n) == r && !r.Next?
      case OutOfFuel => true
    decreases n
  {
    hide Step, Metered;
    if n > 0 && VmStep(isa, tariff, vm).Going? {
      GasOnlyStops(isa, tariff, VmStep(isa, tariff, vm).vm, n - 1);
    }
  }

  /** Two meters that have spent the same and could be raised alike, one with at least as much left. */
  predicate AtLeastAsRich(more: GasState, less: GasState) {
    more.Used() == less.Used() && more.limitMax == less.limitMax && more.remaining >= less.remaining
  }

  lemma ChargeIgnoresGas(isa: Isa, tariff: Tariff, vm: Vm, gas: GasState)
    ensures Charge(isa, tariff, vm.(gas := gas)) == Charge(isa, tariff, vm)
  {}

  /** More gas at the start never changes the result of a run that had enough. */
  lemma {:induction false} MoreGasSameResult(isa: Isa, tariff: Tariff, vm: Vm, more: GasState, n: nat)
    requires AtLeastAsRich(more, vm.gas) && !VmRun(isa, tariff, vm, n).OutOfFuel?
    ensures
      var a, b := VmRun(isa, tariff, vm, n), VmRun(isa, tariff, vm.(gas := more), n);
      match a
      case Going(vm1) => b.Going? && b.vm.core == vm1.core && AtLeastAsRich(b.vm.gas, vm1.gas)
      case Over(vm1, r) => b.Over? && b.result == r && AtLeastAsRich(b.vm.gas, vm1.gas)
      case OutOfFuel => true
    decreases n
  {
    hide Step, Charge, NewLimit;
    if n > 0 {
      var a := VmStep(isa, tariff, vm);
      var b := VmStep(isa, tariff, vm.(gas := more));
      ChargeIgnoresGas(isa, tariff, vm, more);
      assert b.Going? == a.Going? && !b.OutOfFuel?;
      if a.Going? {
        MoreGasSameResult(isa, tariff, a.vm, b.vm.gas, n - 1);
      }
    }
  }

  // ----- gas bounds the work -----

  /** How many of the first n steps were instructions or implicit jumps. */
  function Instructions(isa: Isa, tariff: Tariff, vm: Vm, n: nat): nat
    decreases n
  {
    if n == 0 then 0 else
      (if OutOfBits(vm.core.cc.code) && Exhausted(vm.core.cc.code) then 0 else 1) +
      (match VmStep(isa, tariff, vm)
       case Going(vm1) => Instructions(isa, tariff, vm1, n - 1)
       case _ => 0)
  }

  /** While the machine is going, ten times the instructions run fit under the highest limit gas can be raised to. */
  lemma {:induction false} GasBoundsInstructions(isa: Isa, tariff: Tariff, vm: Vm, n: nat)
    requires VmRun(isa, tariff, vm, n).Going? && vm.gas.remaining >= 0
    ensures
      var gas := VmRun(isa, tariff, vm, n).vm.gas;
      && 10 * Instructions(isa, tariff, vm, n) <= gas.Used() - vm.gas.Used()
      && gas.Used() <= gas.base <= vm.gas.Ceiling()
      && gas.Ceiling() <= vm.gas.Ceiling()
    decreases n
  {
    hide Step, NewLimit;
    if n > 0 {
      var vm1 := VmStep(isa, tariff, vm).vm;
      MeteredSpends(isa, tariff, vm);
      GasBoundsInstructions(isa, tariff, vm1, n - 1);
    }
  }

  /** The charges of the first n steps. */
  function Spent(isa: Isa, tariff: Tariff, vm: Vm, n: nat): nat
    decreases n
  {
    if n == 0 || !VmStep(isa, tariff, vm).Going? then 0
    else Charge(isa, tariff, vm) + Spent(isa, tariff, VmStep(isa, tariff, vm).vm, n - 1)
  }

  /** Over a whole run the gas used is the sum of what the steps charged, whatever limits were set. */
  lemma {:induction false} GasIsConserved(isa: Isa, tariff: Tariff, vm: Vm, n: nat)
    requires VmRun(isa, tariff, vm, n).Going?
    ensures VmRun(isa, tariff, vm, n).vm.gas.Used() == vm.gas.Used() + Spent(isa, tariff, vm, n)
    decreases n
  {
    hide Step, NewLimit, Charge;
    if n > 0 {
      MeteredSpends(isa, tariff, vm);
      GasIsConserved(isa, tariff, VmStep(isa, tariff, vm).vm, n - 1);
    }
  }

  /** A step spends exactly its charge and never lifts the ceiling. */
  lemma MeteredSpends(isa: Isa, tariff: Tariff, vm: Vm)
    requires Metered(isa, tariff, vm).Some?
    ensures
      var g := Metered(isa, tariff, vm).value;
      && g.Used() == vm.gas.Used() + Charge(isa, tariff, vm)
      && g.remaining >= 0
      && g.Ceiling() <= vm.gas.Ceiling()
  {}

  // ----- every run ends -----

  /** How many continuations hang from a register through their saved c0. */
  function Chain(slot: Slot): nat
    decreases slot
  {
    if !HoldsCont(slot) then 0 else
      var saves := slot.item.cont.savelist;
      1 + (if |saves| > 0 then Chain(saves[0]) else 0)
  }

  /** How many free steps can follow before one is charged. */
  function FreeSteps(tariff: Tariff, core: Core): nat {
    if KindPrice(tariff, core) > 0 then 0 else 1 + Chain(At(core.ctrls, 0))
  }

  /** A return takes one continuation off the chain in c0. */
  lemma ReturnShortens(core: Core)
    requires Return(core).Done?
    ensures Chain(At(Return(core).core.ctrls, 0)) < Chain(At(core.ctrls, 0))
  {}

  /** Turning to a block of a loop, the next step is a charged one. */
  lemma TurnedIsCharged(tariff: Tariff, core: Core, block: Slice, next: Continuation)
    requires Loop(core, block, next).Done?
    ensures KindPrice(tariff, Loop(core, block, next).core) > 0
  {}

  /** A free step leads closer to a charged one. */
  lemma FreeStepAdvances(tariff: Tariff, core: Core)
    requires Exhausted(core.cc.code) && KindPrice(tariff, core) == 0
    requires !core.cc.typ.Quit? && !core.cc.typ.ExcQuit? && StepSpecial(core).Done?
    ensures FreeSteps(tariff, StepSpecial(core).core) < FreeSteps(tariff, core)
  {
    hide Return, Loop, Chain;
    var s := core.cc.stack;
    match core.cc.typ
    case PushInt(n) => ReturnShortens(Push(core, Integer(Value(n))));
    case CatchRevert(depth) =>
      var cut := core.(cc := core.cc.(stack := Pop(core, 2).cc.stack[..depth] + [Top(core, 1), Top(core, 0)]));
      ReturnShortens(cut);
    case WhileLoopCondition(body, cond) =>
      if Top(core, 0) == ZERO {
        ReturnShortens(Pop(core, 1));
      } else {
        var again := NextRound(core, WhileLoopCondition(body, cond));
        var next := WithCode(cond).(savelist := Set(EMPTY_SAVELIST, 0, SavedCont(again)));
        TurnedIsCharged(tariff, Pop(core, 1), body, next);
      }
    case UntilLoopCondition(body) =>
      if Top(core, 0) == ZERO {
        TurnedIsCharged(tariff, Pop(core, 1), body, NextRound(core, UntilLoopCondition(body)));
      } else {
        ReturnShortens(Pop(core, 1));
      }
    case RepeatLoopBody(body, counter) =>
      if counter > 1 {
        TurnedIsCharged(tariff, core, body, NextRound(core, RepeatLoopBody(body, counter - 1)));
      } else {
        ReturnShortens(core);
      }
    case AgainLoopBody(body) =>
    case _ =>
  }

  /** Every step spends gas or leads closer to one that does. */
  lemma StepMakesProgress(isa: Isa, tariff: Tariff, vm: Vm)
    requires VmStep(isa, tariff, vm).Going? && vm.gas.remaining >= 0
    ensures
      var vm1 := VmStep(isa, tariff, vm).vm;
      && vm1.gas.remaining >= 0
      && (|| vm1.gas.Ceiling() - vm1.gas.Used() < vm.gas.Ceiling() - vm.gas.Used()
          || (vm1.gas == vm.gas && FreeSteps(tariff, vm1.core) < FreeSteps(tariff, vm.core)))
  {
    hide Step, FreeSteps, StepSpecial, StepInstr, StepJmpRef, Return;
    MeteredSpends(isa, tariff, vm);
    StepIsAttempt(isa, vm.core);
    if Charge(isa, tariff, vm) == 0 {
      assert Attempt(isa, vm.core) == Some(StepSpecial(vm.core));
      FreeStepAdvances(tariff, vm.core);
    }
  }

  /** Every run ends: it halts, fails or runs out of gas. */
  lemma {:induction false} EveryRunEnds(isa: Isa, tariff: Tariff, vm: Vm) returns (n: nat)
    requires vm.gas.remaining >= 0
    ensures !VmRun(isa, tariff, vm, n).Going?
    decreases vm.gas.Ceiling() - vm.gas.Used(), FreeSteps(tariff, vm.core)
  {
    hide VmStep, FreeSteps;
    n := 1;
    if VmStep(isa, tariff, vm).Going? {
      StepMakesProgress(isa, tariff, vm);
      var m := EveryRunEnds(isa, tariff, VmStep(isa, tariff, vm).vm);
      n := m + 1;
    }
  }

  lemma {:induction false} OneMoreStep(isa: Isa, tariff: Tariff, vm: Vm, n: nat)
    requires VmRun(isa, tariff, vm, n).Going?
    ensures VmRun(isa, tariff, vm, n + 1) == VmStep(isa, tariff, VmRun(isa, tariff, vm, n).vm)
    decreases n
  {
    hide VmStep;
    if n > 0 {
      OneMoreStep(isa, tariff, VmStep(isa, tariff, vm).vm, n - 1);
    } else if VmStep(isa, tariff, vm).Going? {
      assert VmRun(isa, tariff, VmStep(isa, tariff, vm).vm, 0) == VmStep(isa, tariff, vm);
    }
  }

  /** `execute`: round after round until the run is over; it always gets there. */
  method Execute(isa: Isa, tariff: Tariff, vm: Vm) returns (r: VmOutcome, ghost n: nat)
    requires vm.gas.remaining >= 0
    ensures !r.Going? && r == VmRun(isa, tariff, vm, n)
  {
    hide VmStep, FreeSteps;
    var at := vm;
    r, n := Going(vm), 0;
    while r.Going?
      invariant r == VmRun(isa, tariff, vm, n)
      invariant r.Going? ==> r.vm == at && at.gas.remaining >= 0
      decreases r.Going?, at.gas.Ceiling() - at.gas.Used(), FreeSteps(tariff, at.core)
    {
      OneMoreStep(isa, tariff, vm, n);
      r, n := VmStep(isa, tariff, at), n + 1;
      if r.Going? {
        StepMakesProgress(isa, tariff, at);
        at := r.vm;
      }
    }
  }
}
