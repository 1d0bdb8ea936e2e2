/**
 * The engine's main loop. One round clears the instruction variables, runs an instruction or an
 * implicit step through the microcode, and delivers the exception if there is one. It is proved to
 * be exactly one step of the metered machine, state and gas, and the loop to be its run.
 */
module Driver {
  import opened Outcomes
  import opened Cells
  import opened Values
  import opened Machine
  import opened GasMeter
  import opened Tolls
  import opened Metering
  import opened Typing
  import opened Commits
  import opened Boundaries
  import opened Storage
  import opened Control

  /** How the attempt of a step ends: well, with an exception, or without gas. */
  datatype Report = Okay | Thrown(value: StackItem, code: int) | Broke

  function FromStatus(r: Status): Report {
    match r
    case Fine => Okay
    case Bad(code) => if code == OutOfGas then Broke else Thrown(ZERO, CodeNumber(code))
  }

  predicate Reports(e: Engine, p: Report, x: Exec, t: Toll)
    reads e, e.gas
  {
    && e.gas.State() == t.gas
    && if !t.paid then p.Broke? else
         match p
         case Okay => x == Done(e.State())
         case Thrown(v, n) => x == Threw(e.State(), v, n)
         case Broke => false
  }

  /** CALLX. */
  method ExecuteCallX(e: Engine) returns (r: Status)
    requires Idle(e) && Typed(e) && e.vars == []
    modifies e, e.gas
    ensures Settles(e, r, ExecCallX(old(e.State())), SiteToll(old(e.gas.State()), TopSite(old(e.State()))))
  {
    hide Call, SiteToll;
    NoToll(e.gas.State());
    r := e.FetchStack(1);
    if r.IsFailure() {
      return;
    }
    assert e.vars[0] == Top(old(e.State()), 0);
    r := Control.CallX(e, 0);
  }

  /** Runs an instruction that leaves the gas limit alone. */
  method Dispatch(e: Engine, isa: Isa, instr: Instr) returns (p: Report)
    requires Idle(e) && Typed(e) && e.vars == [] && !instr.Accept? && !instr.SetGasLimit?
    modifies e, e.gas, e.cstate
    ensures e.cstate.State() == if instr.Commit? then Recorded(old(e.ctrls)) else old(e.cstate.State())
    ensures Reports(e, p, Machine.Execute(isa, old(e.State()), instr),
                    SiteToll(old(e.gas.State()), ExecuteSite(old(e.State()), instr)))
  {
    hide ExecTry, ExecRepeat, ExecWhile, ExecUntil, ExecAgain, ExecCallX, ExecJmpX, Return, ReturnAlt, ExecPushCtr,
      ExecPopCtr, ExecSetContCtr, SiteToll, TrySite, RepeatSite, WhileSite, TopSite, ReturnSite, ReturnAltSite;
    NoToll(e.gas.State());
    var r := Fine;
    match instr {
    case Op(id) =>
      var result := isa.apply(id, e.cc.stack);
      e.cc := e.cc.(stack := result.stack);
      return if result.Raised? then Thrown(result.value, result.code) else Okay;
    case PushCont(body) => e.cc := e.cc.(stack := e.cc.stack + [ContItem(WithCode(body))]);
    case Try => r := InitTryCatch(e, false);
    case TryKeep => r := InitTryCatch(e, true);
    case Repeat => r := ExecuteRepeat(e);
    case While => r := ExecuteWhile(e);
    case Until => r := ExecuteUntil(e);
    case Again => r := ExecuteAgain(e);
    case CallX => r := ExecuteCallX(e);
    case JmpX => r := ExecuteJmpX(e);
    case Ret => r := SwitchC0(e);
    case RetAlt => r := SwitchC1(e);
    case PushCtr(reg) => r := PushRegister(e, reg);
    case PopCtr(reg) => r := PopRegister(e, reg);
    case SetContCtr(reg) => r := SetRegister(e, reg);
    case Commit => e.cstate.Record(e.ctrls);
    }
    p := FromStatus(r);
  }

  /** The register operand of an instruction is checked when the instruction is decoded. */
  method PushRegister(e: Engine, reg: nat) returns (r: Status)
    requires Idle(e) && e.vars == []
    modifies e
    ensures Settles(e, r, ExecPushCtr(old(e.State()), reg), Free(old(e.gas.State())))
  {
    if !IsRegister(reg) {
      return Bad(RangeCheckError);
    }
    ExecutePushCtr(e, reg);
    return Fine;
  }

  method PopRegister(e: Engine, reg: nat) returns (r: Status)
    requires Idle(e) && e.vars == []
    modifies e
    ensures Settles(e, r, ExecPopCtr(old(e.State()), reg), Free(old(e.gas.State())))
  {
    if !IsRegister(reg) {
      return Bad(RangeCheckError);
    }
    r := ExecutePopCtr(e, reg);
  }

  method SetRegister(e: Engine, reg: nat) returns (r: Status)
    requires Idle(e) && Typed(e) && e.vars == []
    modifies e
    ensures Settles(e, r, ExecSetContCtr(old(e.State()), reg), Free(old(e.gas.State())))
  {
    if !IsRegister(reg) {
      return Bad(RangeCheckError);
    }
    r := ExecuteSetContCtr(e, reg);
  }

  /** SETGASLIMIT: a limit below what is spent already ends the run, with the operand gone and the gas as it was. */
  method ExecuteSetGasLimit(e: Engine) returns (r: Status)
    requires Idle(e) && e.vars == []
    modifies e, e.gas
    ensures ExecSetGasLimit(old(e.State())).Threw? ==>
      Settles(e, r, ExecSetGasLimit(old(e.State())), Free(old(e.gas.State())))
    ensures ExecSetGasLimit(old(e.State())).Done? ==>
      var limit := Top(old(e.State()), 0).data.v;
      if limit < old(e.gas.State().Used()) then
        r == Bad(OutOfGas) && e.gas.State() == old(e.gas.State()) && e.State() == Pop(old(e.State()), 1)
      else Settles(e, r, ExecSetGasLimit(old(e.State())), Free(Relimited(old(e.gas.State()), limit)))
  {
    r := e.FetchStack(1);
    if r.IsFailure() {
      return;
    }
    assert e.vars[0] == Top(old(e.State()), 0);
    if !e.vars[0].Integer? {
      return Bad(TypeCheckError);
    }
    if e.vars[0].data.NaN? {
      return Bad(IntegerOverflow);
    }
    var limit := e.vars[0].data.v;
    if !(-0x8000_0000_0000_0000 <= limit < 0x8000_0000_0000_0000) {
      return Bad(RangeCheckError);
    }
    if limit < e.gas.State().Used() {
      return Bad(OutOfGas);
    }
    e.gas.NewGasLimit(limit);
    return Fine;
  }

  // ----- one round -----

  datatype Round = Continue | Exit(code: int) | Fault(code: int) | NoFuel

  /** The round did what one step of the metered machine does. */
  predicate Rounds(e: Engine, o: Round, v: VmOutcome)
    reads e, e.gas
  {
    match v
    case Going(vm) => o == Continue && e.State() == vm.core && e.gas.State() == vm.gas
    case Over(vm, Halted(core, code)) => o == Exit(code) && e.State() == vm.core == core && e.gas.State() == vm.gas
    case Over(vm, Failed(core, code)) => o == Fault(code) && e.State() == vm.core == core && e.gas.State() == vm.gas
    case Over(_, Next(_)) => false
    case OutOfFuel => o == NoFuel
  }

  /** What the attempt of a step has left to be settled. */
  predicate Attempted(e: Engine, p: Report, isa: Isa, tariff: Tariff, vm: Vm)
    reads e, e.gas
  {
    match p
    case Broke => Metered(isa, tariff, vm).None?
    case Okay =>
      && Attempt(isa, vm.core) == Some(Done(e.State()))
      && Metered(isa, tariff, vm) == if e.gas.remaining >= 0 then Some(e.gas.State()) else None
    case Thrown(v, n) =>
      && Attempt(isa, vm.core) == Some(Threw(e.State(), v, n))
      && e.gas.State() == Charged(vm.gas, BasePrice(tariff, vm) + SitePrice(AttemptSite(isa, vm.core)))
  }

  /** An exception leaves the limit alone. */
  lemma ThrowKeepsLimit(isa: Isa, core: Core)
    requires Attempt(isa, core).Some? && Attempt(isa, core).value.Threw?
    ensures NewLimit(isa, core).None?
  {}

  /** A paid exception costs its price; one that cannot be paid costs too much. */
  lemma RaiseIsPrice(g: GasState, core: Core, value: StackItem, code: int)
    ensures
      var t, p := RaiseToll(g, core, value, code), RaisePrice(core, value, code);
      && (t.paid ==> t.gas == Charged(g, p) && t.gas.remaining >= 0)
      && (!t.paid ==> Charged(g, p).remaining < 0)
  {
    TollIsPrice(Charged(g, EXCEPTION_PRICE), RaiseSite(core, value, code));
  }

  /** Settles an attempt: checks the gas, or delivers the exception. */
  method Finish(e: Engine, p: Report, ghost isa: Isa, ghost tariff: Tariff, ghost vm: Vm) returns (o: Round)
    requires Attempted(e, p, isa, tariff, vm) && (p.Thrown? ==> Typed(e))
    modifies e, e.gas
    ensures Rounds(e, o, VmStep(isa, tariff, vm))
  {
    hide Step, Attempt, AttemptSite, RaiseToll, RaisePrice, Raise, BasePrice, NewLimit;
    StepIsAttempt(isa, vm.core);
    match p
    case Broke => o := NoFuel;
    case Okay =>
      var ok := e.gas.CheckGasRemaining();
      o := if ok then Continue else NoFuel;
    case Thrown(v, n) =>
      ThrowKeepsLimit(isa, vm.core);
      RaiseIsPrice(e.gas.State(), e.State(), v, n);
      ThrownCharge(isa, tariff, vm, e.State(), v, n);
      e.vars, e.pargs := [], None;
      var d := RaiseException(e, v, n);
      o := match d case Delivered => Continue case Ended(code) => Fault(code) case NoGas => NoFuel;
  }

  lemma ThrownCharge(isa: Isa, tariff: Tariff, vm: Vm, core: Core, v: StackItem, n: int)
    requires Attempt(isa, vm.core) == Some(Threw(core, v, n))
    ensures Charge(isa, tariff, vm)
         == BasePrice(tariff, vm) + SitePrice(AttemptSite(isa, vm.core)) + RaisePrice(core, v, n)
  {
    hide Attempt, AttemptSite, RaisePrice, BasePrice;
  }

  lemma DoneCharge(isa: Isa, tariff: Tariff, vm: Vm)
    requires Attempt(isa, vm.core).None? || Attempt(isa, vm.core).value.Done?
    ensures Charge(isa, tariff, vm) == BasePrice(tariff, vm) + SitePrice(AttemptSite(isa, vm.core))
  {
    hide Attempt, AttemptSite, BasePrice;
  }

  /** An attempt that has paid its base price and the toll of its transfer, and asked for no new limit. */
  lemma PaidAttempt(e: Engine, p: Report, isa: Isa, tariff: Tariff, vm: Vm, x: Exec)
    requires Attempt(isa, vm.core) == Some(x) && NewLimit(isa, vm.core).None?
    requires Reports(e, p, x, SiteToll(Charged(vm.gas, BasePrice(tariff, vm)), AttemptSite(isa, vm.core)))
    ensures Attempted(e, p, isa, tariff, vm)
  {
    hide Attempt, AttemptSite, SiteToll, SitePrice, BasePrice, NewLimit, ExceptionPrice;
    TollIsPrice(Charged(vm.gas, BasePrice(tariff, vm)), AttemptSite(isa, vm.core));
    if x.Done? {
      DoneCharge(isa, tariff, vm);
    }
  }

  /** The new limit of an instruction that succeeds decides whether the step is paid. */
  lemma LimitDecides(isa: Isa, tariff: Tariff, vm: Vm, limit: int)
    requires NewLimit(isa, vm.core) == Some(limit) && AttemptSite(isa, vm.core).NoPass?
    requires Attempt(isa, vm.core).Some? && Attempt(isa, vm.core).value.Done?
    ensures
      var g := Charged(vm.gas, BasePrice(tariff, vm));
      Metered(isa, tariff, vm) ==
      if limit < g.Used() || Relimited(g, limit).remaining < 0 then None else Some(Relimited(g, limit))
  {
    hide Attempt, BasePrice, NewLimit;
    DoneCharge(isa, tariff, vm);
  }

  /** An instruction: decoded, charged and run. */
  method AttemptInstr(e: Engine, isa: Isa, tariff: Tariff, steps: nat) returns (p: Report)
    requires IsInstruction(e.State()) && AtBoundary(e.State()) && Typed(e)
    modifies e, e.gas, e.cstate
    ensures e.cstate.State() == NowCommitted(isa, old(e.State()), old(e.cstate.State()))
    ensures Attempted(e, p, isa, tariff, Vm(old(e.State()), old(e.gas.State()), steps))
  {
    hide Machine.Execute, ExecuteSite, SiteToll, Metered, InReachTyped;
    ghost var vm := Vm(e.State(), e.gas.State(), steps);
    e.vars, e.pargs := [], None;
    var _ := e.gas.UseGas(BASIC_PRICE + tariff.bits(e.cc.code) + tariff.work(steps, e.State()));
    assert e.gas.State() == Charged(vm.gas, BasePrice(tariff, vm));
    match isa.fetch(e.cc.code) {
    case Invalid =>
      NoToll(e.gas.State());
      return Thrown(ZERO, CodeNumber(InvalidOpcode));
    case Fetched(instr, rest) =>
      CodeKeepsTypes(e.State(), rest);
      e.cc := e.cc.(code := rest);
      if instr.Accept? || instr.SetGasLimit? {
        p := AttemptLimit(e, isa, tariff, instr, vm);
      } else {
        assert NewLimit(isa, vm.core).None?;
        p := Dispatch(e, isa, instr);
        PaidAttempt(e, p, isa, tariff, vm, StepInstr(isa, vm.core));
      }
    }
  }

  lemma CodeKeepsTypes(core: Core, code: Slice)
    requires InReachTyped(core)
    ensures InReachTyped(core.(cc := core.cc.(code := code))) && |core.ctrls| == NUMREGS
  {}

  /** ACCEPT and SETGASLIMIT. */
  method AttemptLimit(e: Engine, isa: Isa, tariff: Tariff, instr: Instr, ghost vm: Vm) returns (p: Report)
    requires IsInstruction(vm.core) && (instr.Accept? || instr.SetGasLimit?)
    requires isa.fetch(vm.core.cc.code) == Fetched(instr, e.cc.code)
    requires e.State() == vm.core.(cc := vm.core.cc.(code := e.cc.code)) && Idle(e) && e.vars == []
    requires e.gas.State() == Charged(vm.gas, BasePrice(tariff, vm))
    modifies e, e.gas
    ensures Attempted(e, p, isa, tariff, vm)
  {
    hide Metered, BasePrice;
    NoToll(e.gas.State());
    if instr.Accept? {
      LimitDecides(isa, tariff, vm, MAX_I64);
      e.gas.NewGasLimit(MAX_I64);
      return Okay;
    }
    var x := ExecSetGasLimit(e.State());
    if x.Done? {
      LimitDecides(isa, tariff, vm, Top(e.State(), 0).data.v);
    }
    var r := ExecuteSetGasLimit(e);
    return FromStatus(r);
  }

  /** The implicit jump to a reference. */
  method AttemptJmpRef(e: Engine, isa: Isa, tariff: Tariff, steps: nat) returns (p: Report)
    requires OutOfBits(e.cc.code) && !Exhausted(e.cc.code)
    modifies e, e.gas
    ensures Attempted(e, p, isa, tariff, Vm(old(e.State()), old(e.gas.State()), steps))
  {
    ghost var vm := Vm(e.State(), e.gas.State(), steps);
    ghost var x := StepJmpRef(isa, vm.core);
    NoToll(Charged(vm.gas, BasePrice(tariff, vm)));
    if x.Done? {
      DoneCharge(isa, tariff, vm);
    } else {
      ThrownCharge(isa, tariff, vm, x.core, x.value, x.code);
    }
    var ok := e.gas.TryUseGas(IMPLICIT_JMPREF_PRICE);
    if !ok {
      return Broke;
    }
    ok := e.gas.TryUseGas(tariff.work(steps, e.State()));
    if !ok {
      return Broke;
    }
    match isa.load(e.cc.code)
    case None => return Thrown(ZERO, CodeNumber(CellUnderflow));
    case Some(code) =>
      e.cc := e.cc.(code := code);
      return Okay;
  }

  /** A step whose base price alone is too high cannot be paid. */
  lemma BaseTooHigh(isa: Isa, tariff: Tariff, vm: Vm)
    requires NewLimit(isa, vm.core).None? && Charged(vm.gas, BasePrice(tariff, vm)).remaining < 0
    ensures Metered(isa, tariff, vm).None?
  {
    hide BasePrice, SitePrice, AttemptSite, ExceptionPrice, NewLimit;
  }

  /** The end of the code of a continuation that is not a stop. */
  method AttemptImplicit(e: Engine, isa: Isa, tariff: Tariff, steps: nat) returns (p: Report)
    requires Exhausted(e.cc.code) && AtBoundary(e.State()) && Typed(e)
    requires !e.cc.typ.Quit? && !e.cc.typ.ExcQuit? && (e.cc.typ.Ordinary? ==> At(e.ctrls, 0).Saved?)
    modifies e, e.gas
    ensures Attempted(e, p, isa, tariff, Vm(old(e.State()), old(e.gas.State()), steps))
  {
    hide Return, SiteToll, Metered, StepWhile, StepUntil, StepRepeat, StepCatchRevert, StepTryCatch, StepAgain,
      ReturnSite, WhileStepSite, UntilStepSite, RevertSite, InReachTyped;
    ghost var vm := Vm(e.State(), e.gas.State(), steps);
    ghost var core := e.State();
    ghost var x := if core.cc.typ.Ordinary? then Return(core) else StepSpecial(core);
    assert Attempt(isa, core) == Some(x) && NewLimit(isa, core).None?;
    if Charged(vm.gas, BasePrice(tariff, vm)).remaining < 0 {
      BaseTooHigh(isa, tariff, vm);
    }
    NoToll(vm.gas);
    InReach(core);
    e.vars, e.pargs := [], None;
    var r := Fine;
    match e.cc.typ {
    case Ordinary =>
      var ok := e.gas.TryUseGas(IMPLICIT_RET_PRICE);
      if !ok {
        return Broke;
      }
      r := SwitchToC0(e);
    case PushInt(n) =>
      e.cc := e.cc.(stack := e.cc.stack + [Integer(Value(n))]);
      r := SwitchC0(e);
    case TryCatch => r := StepHandlerEnd(e);
    case CatchRevert(depth) => r := StepRevert(e, depth);
    case WhileLoopCondition(body, cond) => r := StepWhileLoop(e, body, cond);
    case RepeatLoopBody(body, counter) => r := StepRepeatLoop(e, body, counter);
    case UntilLoopCondition(body) => r := StepUntilLoop(e, body);
    case AgainLoopBody(body) => StepAgainLoop(e, body);
    case _ =>
    }
    p := FromStatus(r);
    if !core.cc.typ.TryCatch? || Charged(vm.gas, BasePrice(tariff, vm)).remaining >= 0 {
      PaidAttempt(e, p, isa, tariff, vm, x);
    }
  }

  lemma InReach(core: Core)
    requires InReachTyped(core)
    ensures TypedSaveList(core.ctrls)
    ensures HoldsCont(core.ctrls[0]) ==> |core.ctrls[0].item.cont.savelist| == NUMREGS
  {}

  /** `make_external_error`. */
  method ExternalError(e: Engine) returns (o: Round)
    modifies e
    ensures
      match External(old(e.State()))
      case Halted(core, code) => o == Exit(code) && e.State() == core
      case Failed(core, code) => o == Fault(code) && e.State() == core
      case Next(_) => false
  {
    if |e.cc.stack| < 1 {
      return Fault(CodeNumber(StackUnderflow));
    }
    var x := e.cc.stack[|e.cc.stack| - 1];
    e.cc := e.cc.(stack := e.cc.stack[..|e.cc.stack| - 1]);
    if !x.Integer? {
      return Fault(CodeNumber(TypeCheckError));
    }
    if x.data.NaN? || !(0 <= x.data.v <= 0xFFFF) {
      return Fault(CodeNumber(RangeCheckError));
    }
    if x.data.v == 0 || x.data.v == 1 {
      return Exit(x.data.v);
    }
    if |e.cc.stack| > 0 {
      e.cc := e.cc.(stack := e.cc.stack[..|e.cc.stack| - 1]);
    }
    return Fault(x.data.v);
  }

  /** The end of the run: a quit, an uncaught exception, or a plain end without c0. */
  method Stop(e: Engine, isa: Isa, tariff: Tariff, steps: nat) returns (o: Round)
    requires Exhausted(e.cc.code) && e.gas.remaining >= 0 && Attempt(isa, e.State()).None?
    modifies e, e.gas
    ensures Rounds(e, o, VmStep(isa, tariff, Vm(old(e.State()), old(e.gas.State()), steps)))
  {
    hide External, Return, StepSpecial;
    ghost var vm := Vm(e.State(), e.gas.State(), steps);
    DoneCharge(isa, tariff, vm);
    if e.cc.typ.Quit? {
      return Exit(e.cc.typ.exitCode);
    }
    if e.cc.typ.ExcQuit? {
      o := ExternalError(e);
      return;
    }
    var ok := e.gas.TryUseGas(IMPLICIT_RET_PRICE);
    return if ok then Exit(0) else NoFuel;
  }

  /** What an attempt leaves is well typed. */
  lemma AttemptSound(isa: Isa, core: Core)
    requires Sound(core) && KeepsTypes(isa) && Attempt(isa, core).Some?
    ensures SoundExec(Attempt(isa, core).value)
  {
    hide TypedItem, TypedCont, KeepsTypes, Machine.Execute, StepSpecial, Return;
    if IsInstruction(core) {
      match isa.fetch(core.cc.code)
      case Invalid => FailTyped(core, InvalidOpcode);
      case Fetched(instr, rest) =>
        CodeTyped(core, rest);
        ExecuteTyped(isa, core.(cc := core.cc.(code := rest)), instr);
    } else if !Exhausted(core.cc.code) {
      FailTyped(core, CellUnderflow);
      if isa.load(core.cc.code).Some? {
        CodeTyped(core, isa.load(core.cc.code).value);
      }
    } else if core.cc.typ.Ordinary? {
      ReturnTyped(core);
    } else {
      SpecialTyped(core);
    }
  }

  /** One round of the main loop is one step of the metered machine. */
  method Advance(e: Engine, isa: Isa, tariff: Tariff, steps: nat) returns (o: Round)
    requires Sound(e.State()) && AtBoundary(e.State()) && KeepsTypes(isa) && e.gas.remaining >= 0
    modifies e, e.gas, e.cstate
    ensures Rounds(e, o, VmStep(isa, tariff, Vm(old(e.State()), old(e.gas.State()), steps)))
    ensures e.cstate.State() == NowCommitted(isa, old(e.State()), old(e.cstate.State()))
  {
    hide VmStep, KeepsTypes, Sound, InReachTyped, Return, StepSpecial, StepInstr, StepJmpRef, Attempted;
    ghost var vm := Vm(e.State(), e.gas.State(), steps);
    SoundIsTyped(e.State());
    if Attempt(isa, e.State()).Some? {
      AttemptSound(isa, e.State());
    }
    var p;
    if e.cc.code.RemainingBits() != 0 {
      p := AttemptInstr(e, isa, tariff, steps);
    } else if e.cc.code.RemainingReferences() != 0 {
      p := AttemptJmpRef(e, isa, tariff, steps);
    } else if e.cc.typ.Quit? || e.cc.typ.ExcQuit? || (e.cc.typ.Ordinary? && At(e.ctrls, 0).Unset?) {
      o := Stop(e, isa, tariff, steps);
      return;
    } else {
      p := AttemptImplicit(e, isa, tariff, steps);
    }
    ThrownIsTyped(e, p, isa, tariff, vm);
    o := Finish(e, p, isa, tariff, vm);
  }

  lemma ThrownIsTyped(e: Engine, p: Report, isa: Isa, tariff: Tariff, vm: Vm)
    requires Attempted(e, p, isa, tariff, vm)
    requires Attempt(isa, vm.core).Some? ==> SoundExec(Attempt(isa, vm.core).value)
    ensures p.Thrown? ==> Typed(e)
  {
    hide Attempt, Sound, InReachTyped, Metered;
    if p.Thrown? {
      SoundIsTyped(e.State());
    }
  }

  /**
   * `execute` on the engine: round after round until the run is over. The result, the final state
   * and the gas are those of the metered machine, and the loop always ends. A run that ends well
   * commits the data and actions it ends with; one that fails or runs out of gas keeps what its last
   * COMMIT recorded.
   */
  method Execute(e: Engine, isa: Isa, tariff: Tariff) returns (o: Round, ghost n: nat)
    requires Sound(e.State()) && AtBoundary(e.State()) && KeepsTypes(isa) && e.gas.remaining >= 0
    modifies e, e.gas, e.cstate
    ensures !o.Continue? && Rounds(e, o, VmRun(isa, tariff, Vm(old(e.State()), old(e.gas.State()), 0), n))
    ensures o.Exit? ==> RecordsCells(e.ctrls, e.cstate.State())
    ensures !o.Exit? ==> e.cstate.State() == CommitsIn(isa, old(e.State()), n, old(e.cstate.State()))
  {
    hide VmStep, KeepsTypes, Sound, FreeSteps, AtBoundary, NowCommitted, CommitsIn, Recorded, RecordsCells;
    ghost var start, c := Vm(e.State(), e.gas.State(), 0), e.cstate.State();
    NoCommitYet(isa, start.core, c);
    var steps := 0;
    o, n := Continue, 0;
    while o.Continue?
      invariant n == steps
      invariant Rounds(e, o, VmRun(isa, tariff, start, n))
      invariant o.Continue? ==> VmRun(isa, tariff, start, n) == Going(Vm(e.State(), e.gas.State(), steps))
      invariant o.Continue? ==> Sound(e.State()) && AtBoundary(e.State()) && e.gas.remaining >= 0
      invariant o.Exit? ==> Sound(e.State())
      invariant e.cstate.State() == CommitsIn(isa, start.core, n, c)
      decreases o.Continue?, e.gas.State().Ceiling() - e.gas.State().Used(), FreeSteps(tariff, e.State())
    {
      ghost var vm := Vm(e.State(), e.gas.State(), steps);
      OneMoreStep(isa, tariff, start, n);
      StillRunning(isa, tariff, start, n);
      OneCommitMore(isa, start.core, n, c);
      if VmStep(isa, tariff, vm).Going? {
        RoundKeeps(isa, tariff, vm);
      } else if VmStep(isa, tariff, vm).Over? {
        EndIsSound(isa, tariff, vm);
      }
      o := Advance(e, isa, tariff, steps);
      steps, n := steps + 1, n + 1;
    }
    if o.Exit? {
      SoundRecords(e.State());
      e.cstate.Record(e.ctrls);
    }
  }

  lemma NoCommitYet(isa: Isa, core: Core, c: Committed)
    ensures CommitsIn(isa, core, 0, c) == c
  {}

  /** A metered run that is still going has taken the steps of the unmetered one. */
  lemma StillRunning(isa: Isa, tariff: Tariff, vm: Vm, n: nat)
    requires VmRun(isa, tariff, vm, n).Going?
    ensures Run(isa, vm.core, n) == Next(VmRun(isa, tariff, vm, n).vm.core)
  {
    hide VmRun, Run;
    GasOnlyStops(isa, tariff, vm, n);
  }

  lemma EndIsSound(isa: Isa, tariff: Tariff, vm: Vm)
    requires Sound(vm.core) && KeepsTypes(isa) && VmStep(isa, tariff, vm).Over?
    ensures Sound(VmStep(isa, tariff, vm).vm.core)
  {
    hide Step, Metered, Sound, KeepsTypes;
    StepTyped(isa, vm.core);
  }

  /** A round keeps what the next one needs, counts itself, and makes progress. */
  lemma RoundKeeps(isa: Isa, tariff: Tariff, vm: Vm)
    requires Sound(vm.core) && AtBoundary(vm.core) && KeepsTypes(isa) && vm.gas.remaining >= 0
    requires VmStep(isa, tariff, vm).Going?
    ensures
      var vm1 := VmStep(isa, tariff, vm).vm;
      && Sound(vm1.core) && AtBoundary(vm1.core) && vm1.gas.remaining >= 0 && vm1.steps == vm.steps + 1
      && (|| vm1.gas.Ceiling() - vm1.gas.Used() < vm.gas.Ceiling() - vm.gas.Used()
          || (vm1.gas == vm.gas && FreeSteps(tariff, vm1.core) < FreeSteps(tariff, vm.core)))
  {
    hide Step, Metered, FreeSteps, Sound, AtBoundary, KeepsTypes;
    StepMakesProgress(isa, tariff, vm);
    StepTyped(isa, vm.core);
    StepAtBoundary(isa, vm.core);
  }
}
