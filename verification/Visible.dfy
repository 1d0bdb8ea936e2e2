/**
 * What a program sees of the instructions and steps that structured programs do not contain: registers
 * read and written, jumps, alternative returns, continuations with registers of their own, and refusals.
 * Numbers are written out.
 */
module Visible {
  import opened Outcomes
  import opened Cells
  import opened Values
  import opened Machine

  // ----- registers -----

  /** The control registers are c0 to c5 and c7. */
  predicate Register(reg: nat) {
    reg <= 5 || reg == 7
  }

  /** c0, c1 and c3 take continuations, c2 a continuation or null, c4 and c5 cells, c7 a tuple. */
  predicate Admitted(reg: nat, x: StackItem) {
    && ((reg == 0 || reg == 1 || reg == 3) ==> x.ContItem?)
    && (reg == 2 ==> x.ContItem? || x.Null?)
    && ((reg == 4 || reg == 5) ==> x.CellItem?)
    && (reg == 7 ==> x.Tuple?)
  }

  /** What PUSHCTR shows of a register; null if there is nothing. */
  function Shown(core: Core, reg: nat): StackItem
    requires Register(reg)
  {
    var r := ExecPushCtr(core, reg);
    if r.Done? && |r.core.cc.stack| > 0 then Top(r.core, 0) else Null
  }

  /** PUSHCTR only adds what it shows to the stack. */
  lemma PushShows(core: Core, reg: nat)
    ensures Register(reg) ==>
      ExecPushCtr(core, reg) == Done(core.(cc := core.cc.(stack := core.cc.stack + [Shown(core, reg)])))
    ensures !Register(reg) ==> ExecPushCtr(core, reg) == Threw(core, ZERO, 5)
  {}

  /**
   * POPCTR then PUSHCTR gives the value back, and no other register moves. A value the register does
   * not admit raises exception 7 and is lost, except that null may go into an empty register.
   */
  lemma PopThenPush(core: Core, reg: nat)
    requires Register(reg) && |core.ctrls| == NUMREGS && |core.cc.stack| >= 1
    ensures
      var x, r := Top(core, 0), ExecPopCtr(core, reg);
      && (Admitted(reg, x) ==> r.Done?)
      && (!Admitted(reg, x) && !x.Null? ==> r == Threw(Pop(core, 1), ZERO, 7))
      && (r.Done? ==>
            && r.core.cc == Pop(core, 1).cc
            && Shown(r.core, reg) == x
            && ExecPushCtr(r.core, reg) == Done(core.(ctrls := r.core.ctrls))
            && forall other: nat :: Register(other) && other != reg ==> Shown(r.core, other) == Shown(core, other))
      && (r.Threw? ==> r == Threw(Pop(core, 1), ZERO, 7))
  {
    var s := core.cc.stack;
    assert s[..|s| - 1] + [s[|s| - 1]] == s;
  }

  lemma PopNothing(core: Core, reg: nat)
    ensures core.cc.stack == [] && Register(reg) ==> ExecPopCtr(core, reg) == Threw(core, ZERO, 2)
    ensures !Register(reg) ==> ExecPopCtr(core, reg) == Threw(core, ZERO, 5)
  {}

  // ----- continuations with registers of their own -----

  /** A continuation that takes any number of arguments, with room for every register. */
  predicate Open(k: Continuation) {
    k.nargs == -1 && |k.savelist| == NUMREGS
  }

  lemma OpenTakesAll(cc: Continuation, k: Continuation)
    requires Open(k)
    ensures PassStack(cc, k, None) == Moved(cc.(stack := []), k.(stack := k.stack + cc.stack))
  {
    assert cc.stack[0..] == cc.stack && k.stack + [] == k.stack;
  }

  /** JMPX hands over the stack and puts the target's registers into force, but keeps c0 and c1. */
  lemma JumpKeepsReturns(core: Core, k: Continuation)
    requires |core.ctrls| == NUMREGS && core.cc.stack != [] && Top(core, 0) == ContItem(k) && Open(k)
    ensures
      var r := ExecJmpX(core);
      && r.Done?
      && r.core.cc == k.(stack := k.stack + core.cc.stack[..|core.cc.stack| - 1], savelist := EMPTY_SAVELIST)
      && |r.core.ctrls| == NUMREGS
      && r.core.ctrls[0] == core.ctrls[0] && r.core.ctrls[1] == core.ctrls[1]
      && forall i :: 2 <= i < NUMREGS ==>
           r.core.ctrls[i] == if k.savelist[i].Saved? then k.savelist[i] else core.ctrls[i]
  {
    hide PassStack;
    var target := k.(savelist := Set(Set(k.savelist, 0, Unset), 1, Unset));
    OpenTakesAll(Pop(core, 1).cc, target);
  }

  /** SETCONTCTR saves a value in the continuation it returns, if the register admits it. */
  lemma SetContSaves(core: Core, reg: nat, k: Continuation, x: StackItem)
    requires Register(reg) && |core.cc.stack| >= 2 && Top(core, 0) == ContItem(k) && Top(core, 1) == x && Open(k)
    requires Admitted(reg, x) && !x.Null?
    ensures
      var r := ExecSetContCtr(core, reg);
      var pos := if reg == 7 then 6 else reg;
      && r.Done? && r.core.ctrls == core.ctrls
      && r.core.cc == core.cc.(stack := core.cc.stack[..|core.cc.stack| - 2]
                       + [ContItem(k.(savelist := k.savelist[pos := Saved(x)]))])
  {}

  /** What SETCONTCTR refuses, and with which number; null into an empty register changes nothing. */
  lemma SetContRefused(core: Core, reg: nat)
    ensures
      var r, popped := ExecSetContCtr(core, reg), |core.cc.stack| - 2;
      if !Register(reg) then r == Threw(core, ZERO, 5)
      else if popped < 0 then r == Threw(core, ZERO, 2)
      else
        var k, x := Top(core, 0), Top(core, 1);
        var below := core.(cc := core.cc.(stack := core.cc.stack[..popped]));
        var empty := k.ContItem? && !At(k.cont.savelist, if reg == 7 then 6 else reg).Saved?;
        if !k.ContItem? then r == Threw(below, ZERO, 7)
        else if x.Null? && empty then r == Done(Push(below, k))
        else r.Done? <==> Admitted(reg, x)
    ensures
      var r := ExecSetContCtr(core, reg);
      r.Threw? && Register(reg) && |core.cc.stack| >= 2 ==> r == Threw(Pop(core, 2), ZERO, 7)
  {}

  /** SETCONTCTR then JMPX installs the value, except in c0 and c1, which a jump keeps. */
  lemma SetContThenJump(core: Core, reg: nat, k: Continuation, x: StackItem)
    requires Register(reg) && |core.cc.stack| >= 2 && Top(core, 0) == ContItem(k) && Top(core, 1) == x && Open(k)
    requires Admitted(reg, x) && !x.Null? && |core.ctrls| == NUMREGS
    ensures
      var r := ExecJmpX(ExecSetContCtr(core, reg).core);
      r.Done? && Shown(r.core, reg) == if reg == 0 || reg == 1 then Shown(core, reg) else x
  {
    hide ExecJmpX, ExecSetContCtr;
    SetContSaves(core, reg, k, x);
    var pos := if reg == 7 then 6 else reg;
    JumpKeepsReturns(ExecSetContCtr(core, reg).core, k.(savelist := k.savelist[pos := Saved(x)]));
  }

  /** CALLX of a continuation that brings its own c0: that one is used, and the caller is forgotten. */
  lemma CallWithOwnReturn(core: Core, k: Continuation)
    requires |core.ctrls| == NUMREGS && Open(k) && HoldsCont(k.savelist[0])
    ensures
      var r := Call(core, k);
      && r.Done?
      && r.core.cc == k.(stack := k.stack + core.cc.stack, savelist := EMPTY_SAVELIST)
      && |r.core.ctrls| == NUMREGS
      && r.core.ctrls[0] == SavedCont(k.savelist[0].item.cont.(nargs := -1))
      && forall i :: 1 <= i < NUMREGS ==>
           r.core.ctrls[i] == if k.savelist[i].Saved? then k.savelist[i] else core.ctrls[i]
  {
    hide PassStack;
    OpenTakesAll(core.cc, k);
  }

  // ----- returns -----

  const QUIT_WITH_ONE := SavedCont(Continuation(EMPTY_SLICE, -1, EMPTY_SAVELIST, [], Quit(1)))

  /** RETALT resumes c1; if that one had no c1 saved, c1 is a quit with 1 afterwards. */
  lemma ReturnAltResumes(core: Core, k: Continuation)
    requires |core.ctrls| == NUMREGS && core.ctrls[1] == SavedCont(k) && Open(k)
    ensures
      var r := ReturnAlt(core);
      && r.Done?
      && r.core.cc == k.(stack := k.stack + core.cc.stack, savelist := EMPTY_SAVELIST)
      && |r.core.ctrls| == NUMREGS
      && r.core.ctrls[1] == (if k.savelist[1].Saved? then k.savelist[1] else QUIT_WITH_ONE)
      && forall i :: 0 <= i < NUMREGS && i != 1 ==>
           r.core.ctrls[i] == if k.savelist[i].Saved? then k.savelist[i] else core.ctrls[i]
  {
    hide PassStack;
    OpenTakesAll(core.cc, k);
  }

  /** RETALT after RETALT quits with 1 on the stack of the moment. */
  lemma ReturnAltTwice(isa: Isa, core: Core)
    requires |core.ctrls| == NUMREGS && core.ctrls[1] == QUIT_WITH_ONE
    ensures
      var r := ReturnAlt(core);
      r.Done? && Step(isa, r.core) == Halted(r.core, 1) && r.core.cc.stack == core.cc.stack
  {
    hide ReturnAlt;
    ReturnAltResumes(core, QUIT_WITH_ONE.item.cont);
    assert [] + core.cc.stack == core.cc.stack;
  }

  lemma NothingToReturnTo(core: Core)
    requires |core.ctrls| == NUMREGS
    ensures !HoldsCont(core.ctrls[0]) ==> Return(core) == Threw(core, ZERO, 7)
    ensures !HoldsCont(core.ctrls[1]) ==> ReturnAlt(core) == Threw(core, ZERO, 7)
  {}

  /** RET resumes c0, which loses itself and brings back what was saved in it. */
  lemma ReturnResumes(core: Core, k: Continuation)
    requires |core.ctrls| == NUMREGS && core.ctrls[0] == SavedCont(k) && Open(k)
    ensures
      var r := Return(core);
      && r.Done?
      && r.core.cc == k.(stack := k.stack + core.cc.stack, savelist := EMPTY_SAVELIST)
      && |r.core.ctrls| == NUMREGS
      && r.core.ctrls[0] == k.savelist[0]
      && forall i :: 1 <= i < NUMREGS ==>
           r.core.ctrls[i] == if k.savelist[i].Saved? then k.savelist[i] else core.ctrls[i]
  {
    hide PassStack;
    OpenTakesAll(core.cc, k);
  }

  /** The end of an implicit PUSHINT pushes its number and returns. */
  lemma PushIntReturns(isa: Isa, core: Core, n: int)
    requires Exhausted(core.cc.code) && core.cc.typ == PushInt(n)
    ensures Step(isa, core) == Settle(Return(core.(cc := core.cc.(stack := core.cc.stack + [Integer(Value(n))]))))
  {
    hide Return, Settle;
  }

  /** The end of a handler takes the handler in force out of c2 and returns. */
  lemma HandlerEndReturns(isa: Isa, core: Core, k: Continuation)
    requires Exhausted(core.cc.code) && core.cc.typ == TryCatch
    requires |core.ctrls| == NUMREGS && core.ctrls[0] == SavedCont(k) && Open(k)
    ensures
      var r := Step(isa, core);
      && r.Next?
      && r.core.cc == k.(stack := k.stack + core.cc.stack, savelist := EMPTY_SAVELIST)
      && |r.core.ctrls| == NUMREGS && r.core.ctrls[2] == k.savelist[2] && r.core.ctrls[0] == k.savelist[0]
  {
    hide Return;
    var bare := core.(ctrls := Set(core.ctrls, 2, Unset));
    assert Step(isa, core) == Settle(Return(bare));
    ReturnResumes(bare, k);
  }

  /** A bad WHILE flag leaves a quit with 0 in c0; a bad UNTIL flag leaves c0 alone. */
  lemma BadFlag(core: Core, body: Slice, cond: Slice)
    requires |core.ctrls| == NUMREGS
    ensures core.cc.stack == [] ==>
      && StepWhile(core, body, cond)
         == Threw(core.(ctrls := core.ctrls[0 := SavedCont(WithType(Quit(0)))]), ZERO, 2)
      && StepUntil(core, body) == Threw(core, ZERO, 2)
    ensures core.cc.stack != [] && !Top(core, 0).Integer? ==>
      && StepWhile(core, body, cond)
         == Threw(Pop(core, 1).(ctrls := core.ctrls[0 := SavedCont(WithType(Quit(0)))]), ZERO, 7)
      && StepUntil(core, body) == Threw(Pop(core, 1), ZERO, 7)
  {}

  /** A loop without a c0 to return to in the end raises exception 5. */
  lemma LoopNeedsReturn(core: Core, body: Slice, counter: int)
    requires |core.ctrls| == NUMREGS && core.ctrls[0].Unset? && counter > 1
    ensures StepRepeat(core, body, counter).Threw? && StepRepeat(core, body, counter).code == 5
  {}

  // ----- guards -----

  /** The handler TRY installs: the given code, c0 and c2 to come back to. */
  predicate Guards(h: Slot, handler: Continuation, c0: Slot, c2: Slot) {
    && HoldsCont(h) && h.item.cont.code == handler.code && h.item.cont.typ == TryCatch
    && |h.item.cont.savelist| == NUMREGS && h.item.cont.savelist[0] == c0 && h.item.cont.savelist[2] == c2
  }

  /** The caller that waits in c0: the rest of the code, any number of arguments, c0 and c2 to come back to. */
  predicate Waits(c: Slot, core: Core) {
    && HoldsCont(c) && c.item.cont.code == core.cc.code && c.item.cont.nargs == -1 && c.item.cont.stack == []
    && |c.item.cont.savelist| == NUMREGS
    && c.item.cont.savelist[0] == At(core.ctrls, 0) && c.item.cont.savelist[2] == At(core.ctrls, 2)
  }

  /**
   * TRY of any two continuations: the first runs on the stack below, whatever it has saved for c0; the
   * caller waits in c0; the second is the handler, and both know the c0 and the c2 to come back to.
   */
  lemma TryInstalls(core: Core, body: Continuation, handler: Continuation)
    requires |core.ctrls| == NUMREGS && core.cc.savelist == EMPTY_SAVELIST && |core.cc.stack| >= 2
    requires Top(core, 1) == ContItem(body) && Top(core, 0) == ContItem(handler)
    requires Open(body) && body.savelist[2].Unset? && |handler.savelist| == NUMREGS && handler.savelist[2].Unset?
    requires core.ctrls[2].Saved? ==> !core.ctrls[2].item.Null?
    ensures
      var r := ExecTry(core, false);
      && r.Done?
      && r.core.cc == body.(stack := body.stack + core.cc.stack[..|core.cc.stack| - 2], savelist := EMPTY_SAVELIST)
      && |r.core.ctrls| == NUMREGS
      && Waits(r.core.ctrls[0], core)
      && Guards(r.core.ctrls[2], handler, r.core.ctrls[0], core.ctrls[2])
  {
    hide PassStack, Apply, SaveHandler, Call, Waits;
    var popped := Pop(core, 2);
    var prior := core.ctrls[2];
    var c := body.(savelist := Set(body.savelist, 0, Unset));
    var h := handler.(typ := TryCatch, savelist := SaveHandler(handler.savelist, prior));
    var caller := popped.cc.(savelist := SaveHandler(popped.cc.savelist, prior));
    var guarded := Core(caller, Set(core.ctrls, 2, SavedCont(h)));
    HandlerSaved(handler.savelist, prior);
    HandlerSaved(EMPTY_SAVELIST, prior);
    CallEntersGuard(core, guarded, c);
    var entered := Call(guarded, c).core;
    assert ExecTry(core, false).core.ctrls[0] == entered.ctrls[0];
  }

  /** Saving the handler in force keeps the other registers of a savelist that has none yet. */
  lemma HandlerSaved(s: SaveList, prior: Slot)
    requires |s| == NUMREGS && s[2].Unset? && (prior.Saved? ==> !prior.item.Null?)
    ensures
      var t := SaveHandler(s, prior);
      |t| == NUMREGS && t[2] == prior && forall i :: 0 <= i < NUMREGS && i != 2 ==> t[i] == s[i]
  {}

  lemma CallEntersGuard(core: Core, guarded: Core, c: Continuation)
    requires |core.ctrls| == NUMREGS && |guarded.ctrls| == NUMREGS && Open(c)
    requires c.savelist[0].Unset? && c.savelist[2].Unset? && |guarded.cc.savelist| == NUMREGS
    requires guarded.cc.code == core.cc.code && guarded.cc.savelist[2] == core.ctrls[2]
    requires guarded.ctrls[0] == core.ctrls[0]
    ensures
      var r := Call(guarded, c);
      && r.Done?
      && r.core.cc == c.(stack := c.stack + guarded.cc.stack, savelist := EMPTY_SAVELIST)
      && |r.core.ctrls| == NUMREGS
      && Waits(r.core.ctrls[0], core) && r.core.ctrls[2] == guarded.ctrls[2]
  {
    hide PassStack;
    OpenTakesAll(guarded.cc, c);
  }

  // ----- passing the stack -----

  /** How many slots a transfer asks for: what the instruction says, what the target expects, or all. */
  function Wanted(cc: Continuation, k: Continuation, pargs: Option<nat>): nat {
    if pargs.Some? then pargs.value else if k.nargs >= 0 then k.nargs else |cc.stack|
  }

  /**
   * A transfer moves exactly the wanted slots from the top of one stack to the top of the other, in
   * order, and counts them off what the target expects. It is refused if the instruction gives fewer
   * than the target expects or the stack has fewer (an underflow), or if it gives more (an overflow).
   */
  lemma TransferMoves(cc: Continuation, k: Continuation, pargs: Option<nat>)
    ensures
      var n, t := Wanted(cc, k, pargs), PassStack(cc, k, pargs);
      if k.nargs >= 0 && n < k.nargs then t == Refused(k, StackUnderflow)
      else if n == 0 then t == Moved(cc, k)
      else if k.nargs >= 0 && n > k.nargs then t == Refused(k, StackOverflow)
      else if n > |cc.stack| then t.Refused? && t.code == StackUnderflow
      else
        var low := |cc.stack| - n;
        && t.Moved?
        && t.cc == cc.(stack := cc.stack[..low])
        && t.peer == k.(stack := k.stack + cc.stack[low..], nargs := if k.nargs >= 0 then k.nargs - n else k.nargs)
  {}

  // ----- refusals -----

  /** How many slots a control instruction takes. */
  function Operands(instr: Instr): nat {
    match instr
    case Try => 2
    case TryKeep => 2
    case Repeat => 2
    case While => 2
    case Until => 1
    case Again => 1
    case CallX => 1
    case JmpX => 1
    case _ => 0
  }

  predicate Both(instr: Instr) {
    instr.Try? || instr.TryKeep? || instr.While?
  }

  /** Some operand is not what the instruction takes. */
  predicate IllTyped(core: Core, instr: Instr)
    requires |core.cc.stack| >= Operands(instr) > 0
  {
    || !Top(core, 0).ContItem?
    || (Both(instr) && !Top(core, 1).ContItem?)
    || (instr.Repeat? && !Top(core, 1).Integer?)
  }

  /** With too few slots the stack stays and exception 2 is raised; with other values they are gone and it is 7. */
  lemma OperandsChecked(isa: Isa, core: Core, instr: Instr)
    requires Operands(instr) > 0
    ensures |core.cc.stack| < Operands(instr) ==> Execute(isa, core, instr) == Threw(core, ZERO, 2)
    ensures |core.cc.stack| >= Operands(instr) && IllTyped(core, instr) ==>
      Execute(isa, core, instr) == Threw(Pop(core, Operands(instr)), ZERO, 7)
  {
    hide Call, Jump, StartLoop;
  }

  /** SETGASLIMIT takes an integer of 64 bits. */
  lemma LimitChecked(isa: Isa, core: Core)
    ensures
      var r := Execute(isa, core, SetGasLimit);
      if core.cc.stack == [] then r == Threw(core, ZERO, 2)
      else
        match Top(core, 0)
        case Integer(Value(v)) =>
          if -9_223_372_036_854_775_808 <= v <= 9_223_372_036_854_775_807 then r == Done(Pop(core, 1))
          else r == Threw(Pop(core, 1), ZERO, 5)
        case Integer(NaN) => r == Threw(Pop(core, 1), ZERO, 4)
        case _ => r == Threw(Pop(core, 1), ZERO, 7)
  {}

  /** Which instruction does what is described above; ACCEPT and COMMIT leave stack and registers alone. */
  lemma InstructionsDo(isa: Isa, core: Core)
    ensures Execute(isa, core, Ret) == Return(core) && Execute(isa, core, RetAlt) == ReturnAlt(core)
    ensures Execute(isa, core, JmpX) == ExecJmpX(core) && Execute(isa, core, CallX) == ExecCallX(core)
    ensures Execute(isa, core, Accept) == Execute(isa, core, Commit) == Done(core)
  {
    hide Return, ReturnAlt, ExecJmpX, ExecCallX, ExecPushCtr, ExecPopCtr, ExecSetContCtr, ExecTry, ExecRepeat,
      ExecWhile, ExecUntil, ExecAgain, ExecSetGasLimit;
  }

  lemma RegisterInstructionsDo(isa: Isa, core: Core, reg: nat)
    ensures Execute(isa, core, PushCtr(reg)) == ExecPushCtr(core, reg)
    ensures Execute(isa, core, PopCtr(reg)) == ExecPopCtr(core, reg)
    ensures Execute(isa, core, SetContCtr(reg)) == ExecSetContCtr(core, reg)
  {
    hide Return, ReturnAlt, ExecJmpX, ExecCallX, ExecPushCtr, ExecPopCtr, ExecSetContCtr, ExecTry, ExecRepeat,
      ExecWhile, ExecUntil, ExecAgain, ExecSetGasLimit;
  }

  /** Undecodable code raises exception 6, a reference that cannot be loaded exception 9. */
  lemma CodeRefused(isa: Isa, core: Core)
    ensures !OutOfBits(core.cc.code) && isa.fetch(core.cc.code).Invalid? ==> Step(isa, core) == Raise(core, ZERO, 6)
    ensures OutOfBits(core.cc.code) && !Exhausted(core.cc.code) && isa.load(core.cc.code).None? ==>
      Step(isa, core) == Raise(core, ZERO, 9)
  {
    hide Raise;
  }

  /** Without a handler an exception fails the run as it stands; with a null handler the run fails with 7. */
  lemma RaiseUnhandled(core: Core, value: StackItem, code: int)
    requires |core.ctrls| == NUMREGS
    ensures core.ctrls[2].Unset? ==> Raise(core, value, code) == Failed(core, code)
    ensures core.ctrls[2] == Saved(Null) ==>
      var r := Raise(core, value, code);
      r.Failed? && r.code == 7 && r.core.cc.stack == core.cc.stack + [value, Integer(Value(code))]
  {
    assert core.cc.stack + [value] + [Integer(Value(code))] == core.cc.stack + [value, Integer(Value(code))];
  }

  /** A slice has as many bits and references left as its window, and code is at its end when both are none. */
  lemma WindowLeft(s: Slice)
    requires s.Valid()
    ensures s.RemainingBits() == |s.cell.bits[s.dataStart..s.dataEnd]|
    ensures s.RemainingReferences() == |s.cell.refs[s.refStart..s.refEnd]|
    ensures OutOfBits(s) <==> s.dataStart == s.dataEnd
    ensures Exhausted(s) <==> s.dataStart == s.dataEnd && s.refStart == s.refEnd
  {}

  /** Plain code that ends without a c0 ends the run well; a quit ends it with its number. */
  lemma CodeEnds(isa: Isa, core: Core)
    requires Exhausted(core.cc.code) && |core.ctrls| == NUMREGS
    ensures core.cc.typ == Ordinary && core.ctrls[0].Unset? ==> Step(isa, core) == Halted(core, 0)
    ensures core.cc.typ.Quit? ==> Step(isa, core) == Halted(core, core.cc.typ.exitCode)
  {}

  /** A run that comes to the uncaught-exception continuation ends with the number on the stack. */
  lemma UncaughtEnds(isa: Isa, core: Core, below: seq<StackItem>, n: int)
    requires Exhausted(core.cc.code) && core.cc.typ == ExcQuit
    requires core.cc.stack == below + [Integer(Value(n))]
    ensures
      var r := Step(isa, core);
      && (n == 0 || n == 1 ==> r.Halted? && r.code == n && r.core.cc.stack == below)
      && (2 <= n <= 65535 ==>
            r.Failed? && r.code == n && r.core.cc.stack == if below == [] then [] else below[..|below| - 1])
      && (n < 0 || n > 65535 ==> r.Failed? && r.code == 5)
  {
    assert core.cc.stack[..|core.cc.stack| - 1] == below;
  }

  /** The numbers under which a program sees the exceptions of the machine. */
  lemma ExceptionNumbers(core: Core)
    ensures Fail(core, StackUnderflow) == Threw(core, Integer(Value(0)), 2)
    ensures Fail(core, StackOverflow) == Threw(core, Integer(Value(0)), 3)
    ensures Fail(core, IntegerOverflow) == Threw(core, Integer(Value(0)), 4)
    ensures Fail(core, RangeCheckError) == Threw(core, Integer(Value(0)), 5)
    ensures Fail(core, InvalidOpcode) == Threw(core, Integer(Value(0)), 6)
    ensures Fail(core, TypeCheckError) == Threw(core, Integer(Value(0)), 7)
    ensures Fail(core, CellOverflow) == Threw(core, Integer(Value(0)), 8)
    ensures Fail(core, CellUnderflow) == Threw(core, Integer(Value(0)), 9)
    ensures Fail(core, DictionaryError) == Threw(core, Integer(Value(0)), 10)
    ensures CodeNumber(UnknownError) == 11 && CodeNumber(FatalError) == 12 && CodeNumber(OutOfGas) == 13
  {}
}
