/**
 * The control-flow machine: current continuation, control registers, savelists, implicit steps
 * and exceptions, as net effects. Instructions that only rewrite the stack, or throw, are abstract.
 * The machine runs with the 2022 bug fixes enabled.
 */
module Machine {
  import opened Outcomes
  import opened Cells
  import opened Values

  /** Everything control flow depends on, except gas. */
  datatype Core = Core(cc: Continuation, ctrls: SaveList)

  /** An operation finishes or throws; a throw leaves the state reached so far. */
  datatype Exec = Done(core: Core) | Threw(core: Core, value: StackItem, code: int)

  function CodeNumber(e: ExceptionCode): int {
    match e
    case StackUnderflow => 2
    case StackOverflow => 3
    case IntegerOverflow => 4
    case RangeCheckError => 5
    case InvalidOpcode => 6
    case TypeCheckError => 7
    case CellOverflow => 8
    case CellUnderflow => 9
    case DictionaryError => 10
    case UnknownError => 11
    case FatalError => 12
    case OutOfGas => 13
    case Panic => 12
  }

  const ZERO := Integer(Value(0))

  function Fail(core: Core, e: ExceptionCode): Exec {
    Threw(core, ZERO, CodeNumber(e))
  }

  // ----- registers -----

  /** The slot at an index; a slot beyond the list is unset. */
  function At(s: SaveList, i: nat): Slot {
    if i < |s| then s[i] else Unset
  }

  function Set(s: SaveList, i: nat, slot: Slot): (t: SaveList)
    requires i < NUMREGS
    ensures |t| == NUMREGS
    ensures forall j: nat :: At(t, j) == if j == i then slot else if j < NUMREGS then At(s, j) else Unset
  {
    if |s| == NUMREGS then s[i := slot] else seq(NUMREGS, j requires 0 <= j => if j == i then slot else At(s, j))
  }

  /** `SaveList::apply`: saved registers replace current ones. */
  function Apply(ctrls: SaveList, saves: SaveList): (t: SaveList)
    ensures |t| == NUMREGS
    ensures forall i: nat :: i < NUMREGS ==> At(t, i) == if At(saves, i).Saved? then At(saves, i) else At(ctrls, i)
  {
    seq(NUMREGS, i requires 0 <= i => if At(saves, i).Saved? then At(saves, i) else At(ctrls, i))
  }

  function SavedCont(k: Continuation): Slot {
    Saved(ContItem(k))
  }

  predicate HoldsCont(slot: Slot) {
    slot.Saved? && slot.item.ContItem?
  }

  // ----- passing the stack -----

  datatype Transfer = Moved(cc: Continuation, peer: Continuation) | Refused(peer: Continuation, code: ExceptionCode)

  /** `pop_all`: hands stack slots from cc to `peer`, as many as nargs and pargs ask for. */
  function PassStack(cc: Continuation, peer: Continuation, pargs: Option<nat>): Transfer {
    if peer.nargs < 0 then PassTop(cc, peer, if pargs.Some? then pargs.value else |cc.stack|)
    else if pargs.None? then PassTop(cc, peer, peer.nargs)
    else if pargs.value < peer.nargs then Refused(peer, StackUnderflow)
    else PassTop(cc, peer, pargs.value)
  }

  /** `pop_range` of the top k slots. */
  function PassTop(cc: Continuation, peer: Continuation, k: nat): Transfer {
    if k == 0 then Moved(cc, peer)
    else if peer.nargs >= 0 && k > peer.nargs then Refused(peer, StackOverflow)
    else
      var peer1 := if peer.nargs >= 0 then peer.(nargs := peer.nargs - k) else peer;
      var depth := |cc.stack|;
      if k > depth then Refused(peer1, StackUnderflow)
      else Moved(cc.(stack := cc.stack[..depth - k]), peer1.(stack := peer.stack + cc.stack[depth - k..]))
  }

  /** k becomes the current continuation and its savelist is put into effect. */
  function Enter(k: Continuation, ctrls: SaveList): Core {
    Core(k.(savelist := EMPTY_SAVELIST), Apply(ctrls, k.savelist))
  }

  /** `switch` to a continuation that is not in a register. */
  function Jump(core: Core, k: Continuation): Exec {
    match PassStack(core.cc, k, None)
    case Refused(_, e) => Fail(core, e)
    case Moved(_, k1) => Done(Enter(k1, core.ctrls))
  }

  /** `switch(ctrl 0)`: the old c0 is used up, c0 becomes what was saved in it. */
  function Return(core: Core): Exec {
    if !HoldsCont(At(core.ctrls, 0)) then Fail(core, TypeCheckError) else
      var k := At(core.ctrls, 0).item.cont;
      match PassStack(core.cc, k, None)
      case Refused(k1, e) => Fail(core.(ctrls := Set(core.ctrls, 0, SavedCont(k1))), e)
      case Moved(_, k1) => Done(Enter(k1, Set(core.ctrls, 0, Unset)))
  }

  /** `switch(ctrl 1)`: c1 becomes what was saved in it, or a quit with code 1. */
  function ReturnAlt(core: Core): Exec {
    if !HoldsCont(At(core.ctrls, 1)) then Fail(core, TypeCheckError) else
      var k := At(core.ctrls, 1).item.cont;
      match PassStack(core.cc, k, None)
      case Refused(k1, e) => Fail(core.(ctrls := Set(core.ctrls, 1, SavedCont(k1))), e)
      case Moved(_, k1) => Done(Enter(k1, Set(core.ctrls, 1, SavedCont(WithType(Quit(1))))))
  }

  /** `callx`: the caller becomes c0 with the old c0 saved in it, unless k brings its own c0. */
  function Call(core: Core, k: Continuation): Exec {
    match PassStack(core.cc, k, None)
    case Refused(_, e) => Fail(core, e)
    case Moved(cc1, k1) =>
      if At(k1.savelist, 0).Saved? then Unbound(Enter(k1, core.ctrls)) else
        var caller := cc1.(savelist := Set(cc1.savelist, 0, At(core.ctrls, 0)));
        Unbound(Enter(k1, Set(core.ctrls, 0, SavedCont(caller))))
  }

  /** c0 takes any number of arguments. */
  function Unbound(core: Core): Exec {
    var c0 := At(core.ctrls, 0);
    if HoldsCont(c0) then Done(core.(ctrls := Set(core.ctrls, 0, SavedCont(c0.item.cont.(nargs := -1)))))
    else Fail(core, TypeCheckError)
  }

  // ----- instructions -----

  datatype Instr =
    | Op(id: nat)
    | PushCont(body: Slice)
    | Try
    | TryKeep
    | Repeat
    | While
    | Until
    | Again
    | CallX
    | JmpX
    | Ret
    | RetAlt
    | PushCtr(reg: nat)
    | PopCtr(reg: nat)
    | SetContCtr(reg: nat)
    | Accept
    | SetGasLimit
    | Commit

  datatype OpResult = Pushed(stack: seq<StackItem>) | Raised(stack: seq<StackItem>, value: StackItem, code: int)

  datatype Fetch = Invalid | Fetched(instr: Instr, rest: Slice)

  /** What the machine is run with: an instruction decoder, the abstract operations, and the code
   * found in the first reference of a slice. */
  datatype Isa = Isa(
    fetch: Slice -> Fetch,
    apply: (nat, seq<StackItem>) -> OpResult,
    load: Slice -> Option<Slice>)

  function Pop(core: Core, n: nat): Core
    requires n <= |core.cc.stack|
  {
    core.(cc := core.cc.(stack := core.cc.stack[..|core.cc.stack| - n]))
  }

  function Push(core: Core, x: StackItem): Core {
    core.(cc := core.cc.(stack := core.cc.stack + [x]))
  }

  /** The i-th stack slot counted from the top. */
  function Top(core: Core, i: nat): StackItem
    requires i < |core.cc.stack|
  {
    core.cc.stack[|core.cc.stack| - 1 - i]
  }

  /** A null handler is not written over an absent one. */
  function SaveHandler(s: SaveList, h: Slot): SaveList {
    if h.Unset? || (h.item.Null? && At(s, 2).Unset?) then s else Set(s, 2, h)
  }

  /** TRY and TRYKEEP (`init_try_catch`). */
  function ExecTry(core: Core, keep: bool): Exec {
    if |core.cc.stack| < 2 then Fail(core, StackUnderflow) else
    var popped := Pop(core, 2);
    var body, handler := Top(core, 1), Top(core, 0);
    if !body.ContItem? || !handler.ContItem? then Fail(popped, TypeCheckError) else
    var prior := At(core.ctrls, 2);
    var c := body.cont.(savelist := Set(body.cont.savelist, 0, Unset));
    var h := handler.cont.(typ := TryCatch, savelist := SaveHandler(handler.cont.savelist, prior));
    var caller := popped.cc.(savelist := SaveHandler(popped.cc.savelist, prior));
    var guarded := Core(caller, Set(core.ctrls, 2, SavedCont(h)));
    match Call(guarded, c)
    case Threw(failed, v, n) => Threw(failed, v, n)
    case Done(entered) =>
      var current := At(entered.ctrls, 2);
      if !HoldsCont(current) then Fail(entered, TypeCheckError) else
      var k := current.item.cont.(savelist := Set(current.item.cont.savelist, 0, At(entered.ctrls, 0)));
      if keep then Done(entered.(ctrls := Set(entered.ctrls, 2, SavedCont(Envelope(k, |popped.cc.stack|)))))
      else Done(entered.(ctrls := Set(entered.ctrls, 2, SavedCont(k))))
  }

  /** The handler of TRYKEEP is wrapped so that the stack is cut back first. */
  function Envelope(k: Continuation, depth: nat): (r: Continuation) {
    WithType(CatchRevert(depth)).(savelist := Set(EMPTY_SAVELIST, 0, SavedCont(k)))
  }

  /** The code after a loop: the current continuation without its stack, c0 saved in it. */
  function AfterLoop(core: Core): Continuation {
    core.cc.(stack := [], savelist := Set(core.cc.savelist, 0, At(core.ctrls, 0)))
  }

  /** The state in which a loop jumps to its first block: c0 has moved into cc. */
  function Detached(core: Core): Core {
    Core(core.cc.(savelist := Set(core.cc.savelist, 0, At(core.ctrls, 0))), Set(core.ctrls, 0, Unset))
  }

  function LoopCont(typ: ContType, after: Continuation): (k: Continuation) {
    WithType(typ).(savelist := Set(EMPTY_SAVELIST, 0, SavedCont(after)))
  }

  /** Starts a loop: `first` runs with the loop continuation as its c0. */
  function StartLoop(core: Core, first: Continuation, typ: ContType): Exec {
    var loop := LoopCont(typ, AfterLoop(core));
    Jump(Detached(core), first.(savelist := Set(first.savelist, 0, SavedCont(loop))))
  }

  function ExecRepeat(core: Core): Exec {
    if |core.cc.stack| < 2 then Fail(core, StackUnderflow) else
    var popped := Pop(core, 2);
    var body, count := Top(core, 0), Top(core, 1);
    if !body.ContItem? || !count.Integer? then Fail(popped, TypeCheckError)
    else if count.data.NaN? || !(-0x80000000 <= count.data.v <= 0x7FFFFFFF) then Fail(popped, RangeCheckError)
    else if count.data.v <= 0 then Done(popped)
    else StartLoop(popped, body.cont, RepeatLoopBody(body.cont.code, count.data.v))
  }

  function ExecWhile(core: Core): Exec {
    if |core.cc.stack| < 2 then Fail(core, StackUnderflow) else
    var popped := Pop(core, 2);
    var body, cond := Top(core, 0), Top(core, 1);
    if !body.ContItem? || !cond.ContItem? then Fail(popped, TypeCheckError)
    else StartLoop(popped, cond.cont, WhileLoopCondition(body.cont.code, cond.cont.code))
  }

  function ExecUntil(core: Core): Exec {
    if |core.cc.stack| < 1 then Fail(core, StackUnderflow) else
    var popped := Pop(core, 1);
    var body := Top(core, 0);
    if !body.ContItem? then Fail(popped, TypeCheckError)
    else StartLoop(popped, body.cont, UntilLoopCondition(body.cont.code))
  }

  function ExecAgain(core: Core): Exec {
    if |core.cc.stack| < 1 then Fail(core, StackUnderflow) else
    var popped := Pop(core, 1);
    var body := Top(core, 0);
    if !body.ContItem? then Fail(popped, TypeCheckError)
    else StartLoop(popped, body.cont, AgainLoopBody(body.cont.code))
  }

  function ExecCallX(core: Core): Exec {
    if |core.cc.stack| < 1 then Fail(core, StackUnderflow) else
    var k := Top(core, 0);
    if !k.ContItem? then Fail(Pop(core, 1), TypeCheckError) else Call(Pop(core, 1), k.cont)
  }

  /** JMPX ignores the c0 and c1 saved in the target. */
  function ExecJmpX(core: Core): Exec {
    if |core.cc.stack| < 1 then Fail(core, StackUnderflow) else
    var k := Top(core, 0);
    if !k.ContItem? then Fail(Pop(core, 1), TypeCheckError)
    else Jump(Pop(core, 1), k.cont.(savelist := Set(Set(k.cont.savelist, 0, Unset), 1, Unset)))
  }

  function ExecPushCtr(core: Core, reg: nat): Exec {
    if !IsRegister(reg) then Fail(core, RangeCheckError) else
      var slot := At(core.ctrls, Adjust(reg));
      Done(Push(core, if slot.Saved? then slot.item else Null))
  }

  function ExecPopCtr(core: Core, reg: nat): Exec {
    if !IsRegister(reg) then Fail(core, RangeCheckError)
    else if |core.cc.stack| < 1 then Fail(core, StackUnderflow)
    else
      var x, popped := Top(core, 0), Pop(core, 1);
      if At(core.ctrls, Adjust(reg)).Unset? && x.Null? then Done(popped)
      else if !CanPut(reg, x) then Fail(popped, TypeCheckError)
      else Done(popped.(ctrls := Set(core.ctrls, Adjust(reg), Saved(x))))
  }

  function ExecSetContCtr(core: Core, reg: nat): Exec {
    if !IsRegister(reg) then Fail(core, RangeCheckError)
    else if |core.cc.stack| < 2 then Fail(core, StackUnderflow)
    else
      var k, x, popped := Top(core, 0), Top(core, 1), Pop(core, 2);
      if !k.ContItem? then Fail(popped, TypeCheckError)
      else if At(k.cont.savelist, Adjust(reg)).Unset? && x.Null? then Done(Push(popped, k))
      else if !CanPut(reg, x) then Fail(popped, TypeCheckError)
      else Done(Push(popped, ContItem(k.cont.(savelist := Set(k.cont.savelist, Adjust(reg), Saved(x))))))
  }

  /** SETGASLIMIT as far as the stack is concerned; the new limit is the machine's business. */
  function ExecSetGasLimit(core: Core): Exec {
    if |core.cc.stack| < 1 then Fail(core, StackUnderflow) else
    var x := Top(core, 0);
    if !x.Integer? then Fail(Pop(core, 1), TypeCheckError)
    else if x.data.NaN? then Fail(Pop(core, 1), IntegerOverflow)
    else if !(-0x8000_0000_0000_0000 <= x.data.v < 0x8000_0000_0000_0000) then Fail(Pop(core, 1), RangeCheckError)
    else Done(Pop(core, 1))
  }

  function Execute(isa: Isa, core: Core, instr: Instr): Exec {
    match instr
    case Op(id) =>
      (match isa.apply(id, core.cc.stack)
       case Pushed(s) => Done(core.(cc := core.cc.(stack := s)))
       case Raised(s, v, n) => Threw(core.(cc := core.cc.(stack := s)), v, n))
    case PushCont(body) => Done(Push(core, ContItem(WithCode(body))))
    case Try => ExecTry(core, false)
    case TryKeep => ExecTry(core, true)
    case Repeat => ExecRepeat(core)
    case While => ExecWhile(core)
    case Until => ExecUntil(core)
    case Again => ExecAgain(core)
    case CallX => ExecCallX(core)
    case JmpX => ExecJmpX(core)
    case Ret => Return(core)
    case RetAlt => ReturnAlt(core)
    case PushCtr(reg) => ExecPushCtr(core, reg)
    case PopCtr(reg) => ExecPopCtr(core, reg)
    case SetContCtr(reg) => ExecSetContCtr(core, reg)
    case Accept => Done(core)
    case SetGasLimit => ExecSetGasLimit(core)
    case Commit => Done(core)
  }

  // ----- implicit steps -----

  /** `discharge_nargs`: gives up the slots that were still expected. */
  function Discharged(cc: Continuation): Continuation {
    if 0 <= cc.nargs <= |cc.stack| then cc.(stack := cc.stack[cc.nargs..], nargs := -1) else cc.(nargs := -1)
  }

  /** The current continuation turns into the plain code of a loop block. */
  function Turned(core: Core, block: Slice): Core {
    core.(cc := Discharged(core.cc).(code := block, typ := Ordinary))
  }

  /** The loop continuation for the next round, with c0 saved in it. */
  function NextRound(core: Core, typ: ContType): Continuation {
    Continuation(core.cc.code, -1, Set(EMPTY_SAVELIST, 0, At(core.ctrls, 0)), [], typ)
  }

  /** Runs `block` and returns to `next` after it; a loop needs a c0 to return to in the end. */
  function Loop(core: Core, block: Slice, next: Continuation): Exec {
    if At(core.ctrls, 0).Unset? then Fail(Turned(core, block), RangeCheckError)
    else Done(Turned(core, block).(ctrls := Set(core.ctrls, 0, SavedCont(next))))
  }

  function StepWhile(core: Core, body: Slice, cond: Slice): Exec {
    var quit := core.(ctrls := Set(core.ctrls, 0, SavedCont(WithType(Quit(0)))));
    if |core.cc.stack| < 1 then Fail(quit, StackUnderflow)
    else if !Top(core, 0).Integer? then Fail(Pop(quit, 1), TypeCheckError)
    else if Top(core, 0) != ZERO then
      var again := NextRound(core, WhileLoopCondition(body, cond));
      Loop(Pop(core, 1), body, WithCode(cond).(savelist := Set(EMPTY_SAVELIST, 0, SavedCont(again))))
    else Return(Pop(core, 1))
  }

  function StepUntil(core: Core, body: Slice): Exec {
    if |core.cc.stack| < 1 then Fail(core, StackUnderflow)
    else if !Top(core, 0).Integer? then Fail(Pop(core, 1), TypeCheckError)
    else if Top(core, 0) == ZERO then Loop(Pop(core, 1), body, NextRound(core, UntilLoopCondition(body)))
    else Return(Pop(core, 1))
  }

  function StepRepeat(core: Core, body: Slice, counter: int): Exec {
    if counter > 1 then Loop(core, body, NextRound(core, RepeatLoopBody(body, counter - 1))) else Return(core)
  }

  function StepAgain(core: Core, body: Slice): Exec {
    var again := Continuation(core.cc.code, -1, EMPTY_SAVELIST, [], AgainLoopBody(body));
    Done(Turned(core, body).(ctrls := Set(core.ctrls, 0, SavedCont(again))))
  }

  function StepTryCatch(core: Core): Exec {
    Return(core.(ctrls := Set(core.ctrls, 2, Unset)))
  }

  /** Cuts the stack back to `depth` slots under the exception pair. */
  function StepCatchRevert(core: Core, depth: nat): Exec {
    if |core.cc.stack| < 2 then Fail(core, StackUnderflow) else
    var below := Pop(core, 2);
    if |below.cc.stack| < depth then Fail(below, StackUnderflow)
    else Return(core.(cc := core.cc.(stack := below.cc.stack[..depth] + [Top(core, 1), Top(core, 0)])))
  }

  // ----- one step of the machine -----

  datatype Outcome = Next(core: Core) | Halted(core: Core, code: int) | Failed(core: Core, code: int)

  function Settle(e: Exec): Outcome {
    match e
    case Done(core) => Next(core)
    case Threw(core, v, n) => Raise(core, v, n)
  }

  /** `raise_exception_bugfix0` for an exception that is not out-of-gas. */
  function Raise(core: Core, value: StackItem, code: int): Outcome {
    var c2 := At(core.ctrls, 2);
    var bare := core.(ctrls := Set(core.ctrls, 2, Unset));
    if c2.Unset? then Failed(core, code)
    else if c2.item.ContItem? && c2.item.cont.typ == ExcQuit then
      if code == 0 || code == 1 then
        Strict(Jump(Push(bare, value), WithType(Quit(code)).(nargs := 1)))
      else Failed(bare.(cc := bare.cc.(stack := [value, Integer(Value(code))])), code)
    else
      var pushed := Push(Push(bare, value), Integer(Value(code)));
      if !c2.item.ContItem? then Failed(pushed, CodeNumber(TypeCheckError)) else
      var target := if c2.item.cont.typ.CatchRevert? then c2.item.cont else c2.item.cont.(nargs := 2);
      Strict(Jump(pushed, target))
  }

  /** An exception while an exception is being delivered ends the run. */
  function Strict(e: Exec): Outcome {
    match e
    case Done(core) => Next(core)
    case Threw(core, _, n) => Failed(core, n)
  }

  /** `make_external_error`: the run ends with what is on the stack. */
  function External(core: Core): Outcome {
    if |core.cc.stack| < 1 then Failed(core, CodeNumber(StackUnderflow)) else
    var x, popped := Top(core, 0), Pop(core, 1);
    if !x.Integer? then Failed(popped, CodeNumber(TypeCheckError))
    else if x.data.NaN? || !(0 <= x.data.v <= 0xFFFF) then Failed(popped, CodeNumber(RangeCheckError))
    else if x.data.v == 0 || x.data.v == 1 then Halted(popped, x.data.v)
    else if |popped.cc.stack| == 0 then Failed(popped, x.data.v)
    else Failed(Pop(popped, 1), x.data.v)
  }

  predicate OutOfBits(code: Slice) {
    code.RemainingBits() == 0
  }

  /** Nothing left to run here, not even a continuation in a reference. */
  predicate Exhausted(code: Slice) {
    OutOfBits(code) && code.RemainingReferences() == 0
  }

  /** One round of `execute` or of `seek_next_cmd`, gas aside. */
  function Step(isa: Isa, core: Core): Outcome {
    if !OutOfBits(core.cc.code) then Settle(StepInstr(isa, core))
    else if !Exhausted(core.cc.code) then Settle(StepJmpRef(isa, core))
    else
      match core.cc.typ
      case Quit(code) => Halted(core, code)
      case ExcQuit => External(core)
      case Ordinary => if At(core.ctrls, 0).Unset? then Halted(core, 0) else Settle(Return(core))
      case _ => Settle(StepSpecial(core))
  }

  function StepInstr(isa: Isa, core: Core): Exec {
    match isa.fetch(core.cc.code)
    case Invalid => Fail(core, InvalidOpcode)
    case Fetched(instr, rest) => Execute(isa, core.(cc := core.cc.(code := rest)), instr)
  }

  /** Implicit jump to the first reference of exhausted code. */
  function StepJmpRef(isa: Isa, core: Core): Exec {
    match isa.load(core.cc.code)
    case None => Fail(core, CellUnderflow)
    case Some(code) => Done(core.(cc := core.cc.(code := code)))
  }

  /** What happens when the code of a special continuation runs out. */
  function StepSpecial(core: Core): Exec {
    match core.cc.typ
    case PushInt(n) => Return(Push(core, Integer(Value(n))))
    case TryCatch => StepTryCatch(core)
    case CatchRevert(depth) => StepCatchRevert(core, depth)
    case WhileLoopCondition(body, cond) => StepWhile(core, body, cond)
    case RepeatLoopBody(body, counter) => StepRepeat(core, body, counter)
    case UntilLoopCondition(body) => StepUntil(core, body)
    case AgainLoopBody(body) => StepAgain(core, body)
    case _ => Done(core)
  }

  /** n steps, or fewer when the run ends earlier. */
  function Run(isa: Isa, core: Core, n: nat): Outcome
    decreases n
  {
    if n == 0 then Next(core) else
      match Step(isa, core)
      case Next(core1) => Run(isa, core1, n - 1)
      case Halted(core1, code) => Halted(core1, code)
      case Failed(core1, code) => Failed(core1, code)
  }

  lemma {:induction false} RunAdd(isa: Isa, core: Core, m: nat, n: nat)
    requires Run(isa, core, m).Next?
    ensures Run(isa, core, m + n) == Run(isa, Run(isa, core, m).core, n)
    decreases m
  {
    hide Step;
    if m > 0 {
      RunAdd(isa, Step(isa, core).core, m - 1, n);
    }
  }
}
