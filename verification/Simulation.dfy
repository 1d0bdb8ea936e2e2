/** The continuation machine runs every structured program to its meaning. */
module Simulation {
  import opened Outcomes
  import opened Cells
  import opened Values
  import opened Machine
  import opened Structured

  /** Between instructions the savelist of cc is empty, and c2 holds some handler. */
  predicate Ready(core: Core) {
    && core.cc.savelist == EMPTY_SAVELIST
    && (core.cc.nargs == -1 || core.cc.nargs == 0)
    && |core.ctrls| == NUMREGS
    && HoldsCont(core.ctrls[2])
  }

  /** Two register files that differ in c0 at most. */
  predicate SameButC0(a: SaveList, b: SaveList) {
    |a| == |b| == NUMREGS && forall i :: 1 <= i < NUMREGS ==> a[i] == b[i]
  }

  /** The state in which p, run from `core`, leaves the machine: only the code and the stack differ. */
  function Reached(core: Core, rest: Slice, stack: seq<StackItem>, nargs: int): Core {
    core.(cc := core.cc.(code := rest, stack := stack, nargs := nargs))
  }

  /** After n steps from `from` the machine shows the end `e`. */
  predicate Shows(isa: Isa, from: Core, n: nat, e: Eval, origin: Core, rest: Slice, thrown: Core, fuel: nat) {
    match e
    case Finish(s, a) => Run(isa, from, n) == Next(Reached(origin, rest, s, a))
    case Throw(s, v, c) =>
      && Run(isa, from, n).Next?
      && Step(isa, Run(isa, from, n).core) == Raise(thrown, v, c)
      && thrown.cc.stack == s
      && SameButC0(thrown.ctrls, origin.ctrls)
    case Crash(c) => Run(isa, from, n).Failed? && Run(isa, from, n).code == c
    case Unfinished => n >= fuel && Run(isa, from, n).Next?
  }

  lemma ShowsLater(isa: Isa, from: Core, m: nat, mid: Core, n: nat, e: Eval, origin: Core, rest: Slice, thrown: Core,
      fuel: nat, more: nat)
    requires Run(isa, from, m) == Next(mid)
    requires Shows(isa, mid, n, e, origin, rest, thrown, fuel) && more <= m + fuel
    ensures Shows(isa, from, m + n, e, origin, rest, thrown, more)
  {
    hide Run, Step, Raise;
    RunAdd(isa, from, m, n);
  }

  lemma OneStep(isa: Isa, core: Core, next: Core)
    requires Step(isa, core) == Next(next)
    ensures Run(isa, core, 1) == Next(next)
  {}

  lemma Joined(isa: Isa, a: Core, m: nat, b: Core, n: nat, c: Outcome)
    requires Run(isa, a, m) == Next(b) && Run(isa, b, n) == c
    ensures Run(isa, a, m + n) == c
  {
    hide Run, Step;
    RunAdd(isa, a, m, n);
  }

  // ----- single steps -----

  lemma InstrStep(isa: Isa, core: Core, instr: Instr, rest: Slice)
    requires Read(isa, core.cc.code, instr) == Some(rest)
    ensures Step(isa, core) == Settle(Execute(isa, core.(cc := core.cc.(code := rest)), instr))
  {}

  /** PUSHCONT puts its literal on the stack. */
  lemma PushContStep(isa: Isa, core: Core, block: Slice, rest: Slice)
    requires Read(isa, core.cc.code, PushCont(block)) == Some(rest)
    ensures Step(isa, core) == Next(Reached(core, rest, core.cc.stack + [Block(block)], core.cc.nargs))
  {}

  /** Two literals on the stack after two steps. */
  lemma PushTwo(isa: Isa, core: Core, a: Slice, b: Slice, rest: Slice)
    requires ReadTwo(isa, core.cc.code, PushCont(a), PushCont(b)) == Some(rest)
    ensures Run(isa, core, 2) == Next(Reached(core, rest, core.cc.stack + [Block(a), Block(b)], core.cc.nargs))
  {}

  /** A register file is determined by its seven slots. */
  lemma SameSlots(a: SaveList, b: SaveList)
    requires |a| == |b| == NUMREGS
    requires forall i :: 0 <= i < NUMREGS ==> a[i] == b[i]
    ensures a == b
  {}

  // ----- entering and leaving blocks -----

  /** A continuation without stack and without a fixed count takes the whole stack. */
  lemma PassAll(cc: Continuation, k: Continuation)
    requires k.nargs == -1 && k.stack == []
    ensures PassStack(cc, k, None) == Moved(cc.(stack := []), k.(stack := cc.stack))
  {}

  /** The current continuation while a block runs. */
  function Callee(code: Slice, stack: seq<StackItem>): Continuation {
    WithCode(code).(stack := stack)
  }

  /** What a call leaves in c0: the rest of the caller's code, with the caller's c0 saved. */
  function Caller(core: Core): Continuation
    requires |core.ctrls| == NUMREGS
  {
    core.cc.(stack := [], nargs := -1, savelist := EMPTY_SAVELIST[0 := core.ctrls[0]])
  }

  /** The machine inside a called block. */
  function InCall(core: Core, code: Slice, stack: seq<StackItem>): Core
    requires |core.ctrls| == NUMREGS
  {
    Core(Callee(code, stack), core.ctrls[0 := SavedCont(Caller(core))])
  }

  /** The caller of a guarded block also saves the handler that was in force. */
  function GuardCaller(core: Core): Continuation
    requires |core.ctrls| == NUMREGS
  {
    Caller(core).(savelist := EMPTY_SAVELIST[0 := core.ctrls[0]][2 := core.ctrls[2]])
  }

  function Handler(core: Core, code: Slice): Continuation
    requires |core.ctrls| == NUMREGS
  {
    WithCode(code).(typ := TryCatch,
                    savelist := EMPTY_SAVELIST[2 := core.ctrls[2]][0 := SavedCont(GuardCaller(core))])
  }

  /** The machine inside a guarded block. */
  function InGuard(core: Core, code: Slice, handlerCode: Slice, stack: seq<StackItem>, keep: bool): Core
    requires |core.ctrls| == NUMREGS
  {
    var h := Handler(core, handlerCode);
    Core(Callee(code, stack),
         core.ctrls[0 := SavedCont(GuardCaller(core))]
                   [2 := SavedCont(if keep then Envelope(h, |stack|) else h)])
  }

  lemma CallEnters(core: Core, code: Slice, stack: seq<StackItem>)
    requires Ready(core) && core.cc.stack == stack + [Block(code)]
    ensures ExecCallX(core) == Done(InCall(core, code, stack))
  {
    var popped := Pop(core, 1);
    assert popped.cc.stack == stack;
    PassAll(popped.cc, WithCode(code));
    SameSlots(Apply(Set(core.ctrls, 0, SavedCont(Caller(core))), EMPTY_SAVELIST),
              Set(core.ctrls, 0, SavedCont(Caller(core))));
  }

  /** TRY and TRYKEEP run the block with the wrapped handler in c2 and the caller in c0. */
  lemma TryEnters(core: Core, code: Slice, handlerCode: Slice, stack: seq<StackItem>, keep: bool)
    requires Ready(core) && core.cc.stack == stack + [Block(code), Block(handlerCode)]
    ensures ExecTry(core, keep) == Done(InGuard(core, code, handlerCode, stack, keep))
  {
    var popped := Pop(core, 2);
    assert popped.cc.stack == stack;
    var c := WithCode(code);
    assert c.(savelist := Set(c.savelist, 0, Unset)) == c;
    var h := WithCode(handlerCode).(typ := TryCatch, savelist := EMPTY_SAVELIST[2 := core.ctrls[2]]);
    var caller := popped.cc.(savelist := EMPTY_SAVELIST[2 := core.ctrls[2]]);
    PassAll(caller, c);
    var saved := GuardCaller(core).(nargs := core.cc.nargs);
    assert EMPTY_SAVELIST[2 := core.ctrls[2]][0 := core.ctrls[0]]
        == EMPTY_SAVELIST[0 := core.ctrls[0]][2 := core.ctrls[2]];
    var ctrls := core.ctrls[2 := SavedCont(h)][0 := SavedCont(saved)];
    SameSlots(Apply(ctrls, EMPTY_SAVELIST), ctrls);
    assert Call(Core(caller, core.ctrls[2 := SavedCont(h)]), c)
        == Done(Core(Callee(code, stack), ctrls[0 := SavedCont(GuardCaller(core))]));
    assert ctrls[0 := SavedCont(GuardCaller(core))][2 := SavedCont(Handler(core, handlerCode))]
        == core.ctrls[0 := SavedCont(GuardCaller(core))][2 := SavedCont(Handler(core, handlerCode))];
    assert ctrls[0 := SavedCont(GuardCaller(core))][2 := SavedCont(Envelope(Handler(core, handlerCode), |stack|))]
        == core.ctrls[0 := SavedCont(GuardCaller(core))][2 := SavedCont(Envelope(Handler(core, handlerCode), |stack|))];
  }

  /** Returning to a caller from a finished block puts c0 and, for a guard, c2 back. */
  lemma ReturnsToCaller(core: Core, at: Core, guarded: bool)
    requires |core.ctrls| == NUMREGS && HoldsCont(core.ctrls[2])
    requires |at.ctrls| == NUMREGS && SameButC0(at.ctrls, core.ctrls[2 := at.ctrls[2]])
    requires at.ctrls[0] == SavedCont(if guarded then GuardCaller(core) else Caller(core))
    requires guarded || at.ctrls[2] == core.ctrls[2]
    ensures Return(at)
         == Done(Core(core.cc.(stack := at.cc.stack, nargs := -1, savelist := EMPTY_SAVELIST), core.ctrls))
  {}

  // ----- handlers -----

  /** A handler of TRY starts with nothing but the exception pair, c0 at the caller and the old c2. */
  lemma HandlerEnters(core: Core, thrown: Core, code: Slice, value: StackItem, number: int)
    requires |core.ctrls| == NUMREGS && HoldsCont(core.ctrls[2])
    requires SameButC0(thrown.ctrls, core.ctrls[2 := SavedCont(Handler(core, code))])
    ensures Raise(thrown, value, number) ==
      Next(Core(Handler(core, code).(savelist := EMPTY_SAVELIST, nargs := 0, stack := [value, Integer(Value(number))]),
                core.ctrls[0 := SavedCont(GuardCaller(core))]))
  {}

  /** The machine about to cut the stack back for a handler of TRYKEEP. */
  function Reverting(core: Core, code: Slice, depth: nat, stack: seq<StackItem>): Core
    requires |core.ctrls| == NUMREGS
  {
    Core(Envelope(Handler(core, code), depth).(savelist := EMPTY_SAVELIST, stack := stack),
         core.ctrls[2 := Unset][0 := SavedCont(Handler(core, code))])
  }

  lemma EnvelopeEnters(core: Core, thrown: Core, code: Slice, depth: nat, value: StackItem, number: int)
    requires |core.ctrls| == NUMREGS
    requires SameButC0(thrown.ctrls, core.ctrls[2 := SavedCont(Envelope(Handler(core, code), depth))])
    ensures Raise(thrown, value, number)
         == Next(Reverting(core, code, depth, thrown.cc.stack + [value, Integer(Value(number))]))
  {}

  /** With enough stack left, the handler of TRYKEEP sees the guarded stack below the exception pair. */
  lemma RevertKeeps(isa: Isa, core: Core, code: Slice, depth: nat, stack: seq<StackItem>, value: StackItem,
      number: StackItem)
    requires |core.ctrls| == NUMREGS && HoldsCont(core.ctrls[2]) && depth <= |stack|
    ensures Step(isa, Reverting(core, code, depth, stack + [value, number])) ==
      Next(Core(Handler(core, code).(savelist := EMPTY_SAVELIST, stack := stack[..depth] + [value, number]),
                core.ctrls[0 := SavedCont(GuardCaller(core))]))
  {
    var at := Reverting(core, code, depth, stack + [value, number]);
    assert Pop(at, 2).cc.stack == stack;
    var cut := at.(cc := at.cc.(stack := stack[..depth] + [value, number]));
    assert Step(isa, at) == Settle(Return(cut));
    var k := Handler(core, code);
    PassAll(cut.cc, k);
    SameSlots(Apply(Set(cut.ctrls, 0, Unset), k.savelist), core.ctrls[0 := SavedCont(GuardCaller(core))]);
  }

  /** With less than the guarded stack left, TRYKEEP cannot restore it and the run fails. */
  lemma RevertFails(isa: Isa, core: Core, code: Slice, depth: nat, stack: seq<StackItem>, value: StackItem,
      number: StackItem)
    requires |core.ctrls| == NUMREGS && |stack| < depth
    ensures Step(isa, Reverting(core, code, depth, stack + [value, number])).Failed?
    ensures Step(isa, Reverting(core, code, depth, stack + [value, number])).code == CodeNumber(StackUnderflow)
  {}

  // ----- loops -----

  /** The machine inside a loop block: c0 is the loop continuation. */
  function InLoop(core: Core, code: Slice, stack: seq<StackItem>, loop: Continuation): Core
    requires |core.ctrls| == NUMREGS
  {
    Core(Callee(code, stack), core.ctrls[0 := SavedCont(loop)])
  }

  /** What a loop returns to in the end: the rest of the code, expecting what it expected before. */
  function Rest(core: Core): Continuation
    requires |core.ctrls| == NUMREGS
  {
    core.cc.(stack := [], savelist := EMPTY_SAVELIST[0 := core.ctrls[0]])
  }

  lemma LoopEnters(core: Core, code: Slice, typ: ContType)
    requires Ready(core)
    ensures StartLoop(core, WithCode(code), typ) == Done(InLoop(core, code, core.cc.stack, LoopCont(typ, Rest(core))))
  {}

  /** A block that ends goes to the continuation in c0, which brings its own c0 back, if it has one. */
  lemma BlockReturns(isa: Isa, at: Core, k: Continuation, c0: Slot)
    requires |at.ctrls| == NUMREGS && at.ctrls[0] == SavedCont(k)
    requires Exhausted(at.cc.code) && at.cc.typ.Ordinary?
    requires k.nargs == -1 && k.stack == [] && k.savelist == EMPTY_SAVELIST[0 := c0]
    ensures Step(isa, at) == Next(Core(k.(savelist := EMPTY_SAVELIST, stack := at.cc.stack), at.ctrls[0 := c0]))
  {}

  /** Leaving a loop resumes the code after it; the stack gets there only if nargs was -1. */
  lemma LoopLeaves(core: Core, at: Core)
    requires Ready(core)
    requires SameButC0(at.ctrls, core.ctrls) && at.ctrls[0] == SavedCont(Rest(core))
    ensures Return(at) == Done(Reached(core, core.cc.code, Leave(at.cc.stack, core.cc.nargs).stack, core.cc.nargs))
  {}

  /** The machine at a loop continuation, deciding about another round. */
  function AtLoop(core: Core, typ: ContType, stack: seq<StackItem>): Core
    requires |core.ctrls| == NUMREGS
  {
    Core(WithType(typ).(stack := stack), core.ctrls[0 := SavedCont(Rest(core))])
  }

  lemma RepeatDecides(isa: Isa, core: Core, code: Slice, k: int, stack: seq<StackItem>)
    requires Ready(core) && k >= 1
    ensures Step(isa, AtLoop(core, RepeatLoopBody(code, k), stack)) == Next(
      if k == 1 then Reached(core, core.cc.code, Leave(stack, core.cc.nargs).stack, core.cc.nargs)
      else InLoop(core, code, stack, LoopCont(RepeatLoopBody(code, k - 1), Rest(core))))
  {
    var at := AtLoop(core, RepeatLoopBody(code, k), stack);
    assert Step(isa, at) == Settle(StepRepeat(at, code, k));
    if k == 1 {
      LoopLeaves(core, at);
    } else {
      assert at.ctrls[0 := SavedCont(LoopCont(RepeatLoopBody(code, k - 1), Rest(core)))]
          == core.ctrls[0 := SavedCont(LoopCont(RepeatLoopBody(code, k - 1), Rest(core)))];
    }
  }

  /** The condition block that follows the body of a WHILE. */
  function CondCont(core: Core, cond: Slice, body: Slice): Continuation
    requires |core.ctrls| == NUMREGS
  {
    WithCode(cond).(savelist := EMPTY_SAVELIST[0 := SavedCont(LoopCont(WhileLoopCondition(body, cond), Rest(core)))])
  }

  lemma WhileDecides(isa: Isa, core: Core, body: Slice, cond: Slice, stack: seq<StackItem>, flag: StackItem)
    requires Ready(core) && flag.Integer?
    ensures Step(isa, AtLoop(core, WhileLoopCondition(body, cond), stack + [flag])) == Next(
      if flag == ZERO then Reached(core, core.cc.code, Leave(stack, core.cc.nargs).stack, core.cc.nargs)
      else InLoop(core, body, stack, CondCont(core, cond, body)))
  {
    var at := AtLoop(core, WhileLoopCondition(body, cond), stack + [flag]);
    assert Step(isa, at) == Settle(StepWhile(at, body, cond));
    assert Pop(at, 1).cc.stack == stack;
    if flag == ZERO {
      LoopLeaves(core, Pop(at, 1));
    } else {
      assert at.ctrls[0 := SavedCont(CondCont(core, cond, body))]
          == core.ctrls[0 := SavedCont(CondCont(core, cond, body))];
    }
  }

  lemma UntilDecides(isa: Isa, core: Core, body: Slice, stack: seq<StackItem>, flag: StackItem)
    requires Ready(core) && flag.Integer?
    ensures Step(isa, AtLoop(core, UntilLoopCondition(body), stack + [flag])) == Next(
      if flag != ZERO then Reached(core, core.cc.code, Leave(stack, core.cc.nargs).stack, core.cc.nargs)
      else InLoop(core, body, stack, LoopCont(UntilLoopCondition(body), Rest(core))))
  {
    var at := AtLoop(core, UntilLoopCondition(body), stack + [flag]);
    assert Step(isa, at) == Settle(StepUntil(at, body));
    assert Pop(at, 1).cc.stack == stack;
    if flag != ZERO {
      LoopLeaves(core, Pop(at, 1));
    } else {
      assert at.ctrls[0 := SavedCont(LoopCont(UntilLoopCondition(body), Rest(core)))]
          == core.ctrls[0 := SavedCont(LoopCont(UntilLoopCondition(body), Rest(core)))];
    }
  }

  /** A missing or ill-typed flag raises an exception with c2 still in force. */
  lemma FlagRefused(isa: Isa, core: Core, typ: ContType, stack: seq<StackItem>) returns (thrown: Core)
    requires Ready(core) && (typ.WhileLoopCondition? || typ.UntilLoopCondition?)
    requires |stack| < 1 || !stack[|stack| - 1].Integer?
    ensures Step(isa, AtLoop(core, typ, stack))
         == Raise(thrown, ZERO, CodeNumber(if |stack| < 1 then StackUnderflow else TypeCheckError))
    ensures thrown.cc.stack == if |stack| < 1 then stack else stack[..|stack| - 1]
    ensures SameButC0(thrown.ctrls, core.ctrls)
  {
    hide Raise;
    var at := AtLoop(core, typ, stack);
    var quit := if typ.WhileLoopCondition? then at.(ctrls := Set(at.ctrls, 0, SavedCont(WithType(Quit(0))))) else at;
    thrown := if |stack| < 1 then quit else Pop(quit, 1);
  }

  // ----- the simulation -----

  /** An end that is not a normal finish depends on the origin only through registers other than c0. */
  lemma Rebase(isa: Isa, from: Core, n: nat, e: Eval, a: Core, restA: Slice, b: Core, restB: Slice, thrown: Core,
      fuel: nat)
    requires !e.Finish? && SameButC0(a.ctrls, b.ctrls)
    requires Shows(isa, from, n, e, a, restA, thrown, fuel)
    ensures Shows(isa, from, n, e, b, restB, thrown, fuel)
  {}

  /** A machine inside a block whose c0 is an open continuation k that saves `c0`. */
  predicate InBlock(at: Core, code: Slice, k: Continuation, c0: Slot) {
    && Ready(at)
    && at.cc == Callee(code, at.cc.stack)
    && at.ctrls[0] == SavedCont(k)
    && k.nargs == -1 && k.stack == [] && k.savelist == EMPTY_SAVELIST[0 := c0]
  }

  /** After n steps the block has ended with `e`, and a normal end has moved on to k. */
  predicate BlockEnds(isa: Isa, at: Core, n: nat, e: Eval, k: Continuation, c0: Slot, thrown: Core, fuel: nat)
    requires |at.ctrls| == NUMREGS
  {
    if e.Finish?
    then n >= 1 && Run(isa, at, n) == Next(Core(k.(savelist := EMPTY_SAVELIST, stack := e.stack), at.ctrls[0 := c0]))
    else Shows(isa, at, n, e, at, at.cc.code, thrown, fuel)
  }

  lemma BlockRuns(isa: Isa, p: Prog, at: Core, k: Continuation, c0: Slot, fuel: nat) returns (n: nat, thrown: Core)
    requires InBlock(at, at.cc.code, k, c0) && Whole(isa, p, at.cc.code)
    ensures BlockEnds(isa, at, n, Meaning(isa, p, at.cc.stack, -1, fuel), k, c0, thrown, fuel)
    decreases fuel, p, 2
  {
    hide Run, Step, Raise, Meaning;
    n, thrown := Simulate(isa, p, at, fuel);
    var e := Meaning(isa, p, at.cc.stack, -1, fuel);
    var rest := After(isa, p, at.cc.code).value;
    if e.Finish? {
      var end := Reached(at, rest, e.stack, e.nargs);
      BlockReturns(isa, end, k, c0);
      var next := Core(k.(savelist := EMPTY_SAVELIST, stack := e.stack), at.ctrls[0 := c0]);
      OneStep(isa, end, next);
      Joined(isa, at, n, end, 1, Next(next));
      n := n + 1;
    } else {
      Rebase(isa, at, n, e, at, rest, at, at.cc.code, thrown, fuel);
    }
  }

  /** REPEAT: from inside round one of k rounds to the end of the loop. */
  lemma RepeatRuns(isa: Isa, body: Prog, code: Slice, core: Core, stack: seq<StackItem>, k: int, fuel: nat)
    returns (n: nat, thrown: Core)
    requires Ready(core) && Whole(isa, body, code) && k >= 1
    ensures Shows(isa, InLoop(core, code, stack, LoopCont(RepeatLoopBody(code, k), Rest(core))), n,
                  Rounds(isa, body, stack, core.cc.nargs, k, fuel), core, core.cc.code, thrown, fuel)
    decreases fuel, body, k + 2
  {
    hide Run, Step, Raise, Meaning, Whole;
    var loop := LoopCont(RepeatLoopBody(code, k), Rest(core));
    var at := InLoop(core, code, stack, loop);
    n, thrown := BlockRuns(isa, body, at, loop, SavedCont(Rest(core)), fuel);
    var e := Meaning(isa, body, stack, -1, fuel);
    if e.Finish? {
      var decide := AtLoop(core, RepeatLoopBody(code, k), e.stack);
      assert Run(isa, at, n) == Next(decide) by {
        assert at.ctrls[0 := SavedCont(Rest(core))] == core.ctrls[0 := SavedCont(Rest(core))];
      }
      RepeatDecides(isa, core, code, k, e.stack);
      var next := if k == 1 then Reached(core, core.cc.code, Leave(e.stack, core.cc.nargs).stack, core.cc.nargs)
        else InLoop(core, code, e.stack, LoopCont(RepeatLoopBody(code, k - 1), Rest(core)));
      OneStep(isa, decide, next);
      Joined(isa, at, n, decide, 1, Next(next));
      n := n + 1;
      if k > 1 {
        var m;
        m, thrown := RepeatRuns(isa, body, code, core, e.stack, k - 1, fuel);
        ShowsLater(isa, at, n, next, m, Rounds(isa, body, e.stack, core.cc.nargs, k - 1, fuel), core, core.cc.code,
            thrown, fuel, fuel);
        n := n + m;
      }
    } else {
      Rebase(isa, at, n, e, at, at.cc.code, core, core.cc.code, thrown, fuel);
    }
  }

  /** WHILE: from inside the condition block to the end of the loop. */
  lemma WhileRuns(isa: Isa, p: Prog, core: Core, stack: seq<StackItem>, fuel: nat) returns (n: nat, thrown: Core)
    requires Ready(core) && p.Whilst? && Whole(isa, p.cond, p.condCode) && Whole(isa, p.body, p.code)
    ensures Shows(isa, InLoop(core, p.condCode, stack, LoopCont(WhileLoopCondition(p.code, p.condCode), Rest(core))), n,
                  WhileRounds(isa, p, stack, core.cc.nargs, fuel), core, core.cc.code, thrown, fuel)
    decreases fuel, p, 0
  {
    hide Run, Step, Raise, Meaning, Whole;
    var typ := WhileLoopCondition(p.code, p.condCode);
    var loop := LoopCont(typ, Rest(core));
    var at := InLoop(core, p.condCode, stack, loop);
    n, thrown := BlockRuns(isa, p.cond, at, loop, SavedCont(Rest(core)), fuel);
    var e := Meaning(isa, p.cond, stack, -1, fuel);
    if !e.Finish? {
      Rebase(isa, at, n, e, at, at.cc.code, core, core.cc.code, thrown, fuel);
      return;
    }
    var s := e.stack;
    var decide := AtLoop(core, typ, s);
    assert Run(isa, at, n) == Next(decide) by {
      assert at.ctrls[0 := SavedCont(Rest(core))] == core.ctrls[0 := SavedCont(Rest(core))];
    }
    if |s| < 1 || !s[|s| - 1].Integer? {
      thrown := FlagRefused(isa, core, typ, s);
      return;
    }
    var rest, flag := s[..|s| - 1], s[|s| - 1];
    assert s == rest + [flag];
    WhileDecides(isa, core, p.code, p.condCode, rest, flag);
    var next := if flag == ZERO then Reached(core, core.cc.code, Leave(rest, core.cc.nargs).stack, core.cc.nargs)
      else InLoop(core, p.code, rest, CondCont(core, p.condCode, p.code));
    OneStep(isa, decide, next);
    Joined(isa, at, n, decide, 1, Next(next));
    n := n + 1;
    if flag != ZERO {
      var m, thrown1 := WhileBody(isa, p, core, rest, fuel);
      thrown := thrown1;
      ShowsLater(isa, at, n, next, m, AfterBody(isa, p, rest, core.cc.nargs, fuel), core, core.cc.code, thrown, fuel,
          fuel);
      n := n + m;
    }
  }

  /** The meaning of a WHILE from the start of its body. */
  function AfterBody(isa: Isa, p: Prog, stack: seq<StackItem>, nargs: int, fuel: nat): Eval
    requires p.Whilst?
  {
    match Meaning(isa, p.body, stack, -1, fuel)
    case Finish(s1, _) => if fuel == 0 then Unfinished else WhileRounds(isa, p, s1, nargs, fuel - 1)
    case other => other
  }

  lemma WhileBody(isa: Isa, p: Prog, core: Core, stack: seq<StackItem>, fuel: nat) returns (n: nat, thrown: Core)
    requires Ready(core) && p.Whilst? && Whole(isa, p.cond, p.condCode) && Whole(isa, p.body, p.code)
    ensures Shows(isa, InLoop(core, p.code, stack, CondCont(core, p.condCode, p.code)), n,
                  AfterBody(isa, p, stack, core.cc.nargs, fuel), core, core.cc.code, thrown, fuel)
    decreases fuel, p.body, 3
  {
    hide Run, Step, Raise, Meaning, Whole, WhileRounds;
    var cond := CondCont(core, p.condCode, p.code);
    var loop := LoopCont(WhileLoopCondition(p.code, p.condCode), Rest(core));
    var at := InLoop(core, p.code, stack, cond);
    n, thrown := BlockRuns(isa, p.body, at, cond, SavedCont(loop), fuel);
    var e := Meaning(isa, p.body, stack, -1, fuel);
    if !e.Finish? {
      Rebase(isa, at, n, e, at, at.cc.code, core, core.cc.code, thrown, fuel);
    } else if fuel > 0 {
      var next := InLoop(core, p.condCode, e.stack, loop);
      assert Run(isa, at, n) == Next(next) by {
        assert at.ctrls[0 := SavedCont(loop)] == core.ctrls[0 := SavedCont(loop)];
      }
      var m;
      m, thrown := WhileRuns(isa, p, core, e.stack, fuel - 1);
      ShowsLater(isa, at, n, next, m, WhileRounds(isa, p, e.stack, core.cc.nargs, fuel - 1), core, core.cc.code,
          thrown, fuel - 1, fuel);
      n := n + m;
    }
  }

  /** UNTIL: from inside the body to the end of the loop. */
  lemma UntilRuns(isa: Isa, p: Prog, core: Core, stack: seq<StackItem>, fuel: nat) returns (n: nat, thrown: Core)
    requires Ready(core) && p.RepeatUntil? && Whole(isa, p.body, p.code)
    ensures Shows(isa, InLoop(core, p.code, stack, LoopCont(UntilLoopCondition(p.code), Rest(core))), n,
                  UntilRounds(isa, p, stack, core.cc.nargs, fuel), core, core.cc.code, thrown, fuel)
    decreases fuel, p, 0
  {
    hide Run, Step, Raise, Meaning, Whole;
    var typ := UntilLoopCondition(p.code);
    var loop := LoopCont(typ, Rest(core));
    var at := InLoop(core, p.code, stack, loop);
    n, thrown := BlockRuns(isa, p.body, at, loop, SavedCont(Rest(core)), fuel);
    var e := Meaning(isa, p.body, stack, -1, fuel);
    if !e.Finish? {
      Rebase(isa, at, n, e, at, at.cc.code, core, core.cc.code, thrown, fuel);
      return;
    }
    var s := e.stack;
    var decide := AtLoop(core, typ, s);
    assert Run(isa, at, n) == Next(decide) by {
      assert at.ctrls[0 := SavedCont(Rest(core))] == core.ctrls[0 := SavedCont(Rest(core))];
    }
    if |s| < 1 || !s[|s| - 1].Integer? {
      thrown := FlagRefused(isa, core, typ, s);
      return;
    }
    var rest, flag := s[..|s| - 1], s[|s| - 1];
    assert s == rest + [flag];
    UntilDecides(isa, core, p.code, rest, flag);
    var next := if flag != ZERO then Reached(core, core.cc.code, Leave(rest, core.cc.nargs).stack, core.cc.nargs)
      else InLoop(core, p.code, rest, loop);
    OneStep(isa, decide, next);
    Joined(isa, at, n, decide, 1, Next(next));
    n := n + 1;
    if flag == ZERO && fuel > 0 {
      var m;
      m, thrown := UntilRuns(isa, p, core, rest, fuel - 1);
      ShowsLater(isa, at, n, next, m, UntilRounds(isa, p, rest, core.cc.nargs, fuel - 1), core, core.cc.code, thrown,
          fuel - 1, fuel);
      n := n + m;
    }
  }

  /** The continuation of an AGAIN loop: the first one still holds what was c0, the later ones nothing. */
  function AgainCont(code: Slice, c0: Slot): Continuation {
    WithType(AgainLoopBody(code)).(savelist := EMPTY_SAVELIST[0 := c0])
  }

  /** An AGAIN continuation always starts its body again and puts itself back into c0. */
  lemma AgainDecides(isa: Isa, core: Core, code: Slice, c0: Slot, stack: seq<StackItem>)
    requires Ready(core)
    ensures Step(isa, Core(AgainCont(code, c0).(savelist := EMPTY_SAVELIST, stack := stack), core.ctrls[0 := c0]))
         == Next(InLoop(core, code, stack, AgainCont(code, Unset)))
  {
    var at := Core(AgainCont(code, c0).(savelist := EMPTY_SAVELIST, stack := stack), core.ctrls[0 := c0]);
    assert Step(isa, at) == Settle(StepAgain(at, code));
    assert EMPTY_SAVELIST[0 := Unset] == EMPTY_SAVELIST;
    assert at.ctrls[0 := SavedCont(AgainCont(code, Unset))] == core.ctrls[0 := SavedCont(AgainCont(code, Unset))];
  }

  /** AGAIN: from inside the body; the loop goes on until its body raises or fails. */
  lemma AgainRuns(isa: Isa, p: Prog, core: Core, stack: seq<StackItem>, c0: Slot, fuel: nat)
    returns (n: nat, thrown: Core)
    requires Ready(core) && p.Forever? && Whole(isa, p.body, p.code)
    ensures Shows(isa, InLoop(core, p.code, stack, AgainCont(p.code, c0)), n, ForeverRounds(isa, p, stack, fuel),
                  core, core.cc.code, thrown, fuel)
    decreases fuel, p, 0
  {
    hide Run, Step, Raise, Meaning, Whole;
    var loop := AgainCont(p.code, c0);
    var at := InLoop(core, p.code, stack, loop);
    n, thrown := BlockRuns(isa, p.body, at, loop, c0, fuel);
    var e := Meaning(isa, p.body, stack, -1, fuel);
    if !e.Finish? {
      Rebase(isa, at, n, e, at, at.cc.code, core, core.cc.code, thrown, fuel);
    } else if fuel > 0 {
      var again := Core(loop.(savelist := EMPTY_SAVELIST, stack := e.stack), core.ctrls[0 := c0]);
      assert Run(isa, at, n) == Next(again) by {
        assert at.ctrls[0 := c0] == core.ctrls[0 := c0];
      }
      AgainDecides(isa, core, p.code, c0, e.stack);
      var next := InLoop(core, p.code, e.stack, AgainCont(p.code, Unset));
      OneStep(isa, again, next);
      Joined(isa, at, n, again, 1, Next(next));
      n := n + 1;
      var m;
      m, thrown := AgainRuns(isa, p, core, e.stack, Unset, fuel - 1);
      ShowsLater(isa, at, n, next, m, ForeverRounds(isa, p, e.stack, fuel - 1), core, core.cc.code, thrown, fuel - 1,
          fuel);
      n := n + m;
    }
  }

  /** The machine at the start of a handler. */
  function InHandler(core: Core, code: Slice, stack: seq<StackItem>, nargs: int): Core
    requires |core.ctrls| == NUMREGS
  {
    Core(Handler(core, code).(savelist := EMPTY_SAVELIST, nargs := nargs, stack := stack),
         core.ctrls[0 := SavedCont(GuardCaller(core))])
  }

  /** A block or a handler that ends normally returns to the guarded caller. */
  lemma GuardReturns(isa: Isa, core: Core, end: Core)
    requires Ready(core) && Exhausted(end.cc.code) && |end.ctrls| == NUMREGS
    requires end.cc.typ.Ordinary? || end.cc.typ.TryCatch?
    requires SameButC0(end.ctrls, core.ctrls[2 := end.ctrls[2]]) && end.ctrls[0] == SavedCont(GuardCaller(core))
    ensures Step(isa, end) == Next(Reached(core, core.cc.code, end.cc.stack, -1))
  {
    if end.cc.typ.Ordinary? {
      ReturnsToCaller(core, end, true);
    } else {
      ReturnsToCaller(core, end.(ctrls := Set(end.ctrls, 2, Unset)), true);
    }
  }

  lemma HandlerRuns(isa: Isa, p: Prog, core: Core, code: Slice, stack: seq<StackItem>, nargs: int, fuel: nat)
    returns (n: nat, thrown: Core)
    requires Ready(core) && Whole(isa, p, code) && (nargs == -1 || nargs == 0)
    ensures Shows(isa, InHandler(core, code, stack, nargs), n, Open(Meaning(isa, p, stack, nargs, fuel)),
                  core, core.cc.code, thrown, fuel)
    decreases fuel, p, 2
  {
    hide Run, Step, Raise, Meaning;
    var at := InHandler(core, code, stack, nargs);
    n, thrown := Simulate(isa, p, at, fuel);
    var e := Meaning(isa, p, stack, nargs, fuel);
    var rest := After(isa, p, code).value;
    if e.Finish? {
      var end := Reached(at, rest, e.stack, e.nargs);
      GuardReturns(isa, core, end);
      OneStep(isa, end, Reached(core, core.cc.code, e.stack, -1));
      Joined(isa, at, n, end, 1, Next(Reached(core, core.cc.code, e.stack, -1)));
      n := n + 1;
    } else {
      Rebase(isa, at, n, e, at, rest, core, core.cc.code, thrown, fuel);
    }
  }

  /** From the throw inside a guarded block to the end of its handler. */
  lemma ThrowIsCaught(isa: Isa, p: Prog, core: Core, stack: seq<StackItem>, thrown: Core, v: StackItem, c: int,
      fuel: nat)
    returns (start: Core, n: nat, thrown1: Core)
    requires Ready(core) && p.Guard? && Whole(isa, p.handler, p.handlerCode)
    requires SameButC0(thrown.ctrls, InGuard(core, p.code, p.handlerCode, stack, p.keep).ctrls)
    ensures Raise(thrown, v, c) == Next(start)
    ensures Shows(isa, start, n, Caught(isa, p, |stack|, thrown.cc.stack, v, c, fuel), core, core.cc.code, thrown1,
        fuel)
    decreases fuel, p.handler, 3
  {
    hide Run, Step, Raise, Meaning, Whole;
    var code, s, d, number := p.handlerCode, thrown.cc.stack, |stack|, Integer(Value(c));
    if !p.keep {
      HandlerEnters(core, thrown, code, v, c);
      start := InHandler(core, code, [v, number], 0);
      n, thrown1 := HandlerRuns(isa, p.handler, core, code, [v, number], 0, fuel);
    } else {
      EnvelopeEnters(core, thrown, code, d, v, c);
      start := Reverting(core, code, d, s + [v, number]);
      if |s| < d {
        RevertFails(isa, core, code, d, s, v, number);
        n, thrown1 := 1, start;
        OneFailure(isa, start);
      } else {
        RevertKeeps(isa, core, code, d, s, v, number);
        var at := InHandler(core, code, s[..d] + [v, number], -1);
        OneStep(isa, start, at);
        n, thrown1 := HandlerRuns(isa, p.handler, core, code, s[..d] + [v, number], -1, fuel);
        ShowsLater(isa, start, 1, at, n, Caught(isa, p, d, s, v, c, fuel), core, core.cc.code, thrown1, fuel, fuel);
        n := n + 1;
      }
    }
  }

  lemma OneFailure(isa: Isa, core: Core)
    requires Step(isa, core).Failed?
    ensures Run(isa, core, 1) == Step(isa, core)
  {}

  /** TRY and TRYKEEP: from inside the guarded block to the end of the block or of its handler. */
  lemma GuardRuns(isa: Isa, p: Prog, core: Core, stack: seq<StackItem>, fuel: nat) returns (n: nat, thrown: Core)
    requires Ready(core) && p.Guard? && Whole(isa, p.body, p.code) && Whole(isa, p.handler, p.handlerCode)
    ensures Shows(isa, InGuard(core, p.code, p.handlerCode, stack, p.keep), n,
                  Meaning(isa, p, stack, core.cc.nargs, fuel), core, core.cc.code, thrown, fuel)
    decreases fuel, p, 0
  {
    hide Run, Step, Raise, Rounds, WhileRounds, UntilRounds, ForeverRounds;
    var at := InGuard(core, p.code, p.handlerCode, stack, p.keep);
    n, thrown := Simulate(isa, p.body, at, fuel);
    var e := Meaning(isa, p.body, stack, -1, fuel);
    var rest := After(isa, p.body, p.code).value;
    match e
    case Finish(s, a) =>
      var end := Reached(at, rest, s, a);
      GuardReturns(isa, core, end);
      OneStep(isa, end, Reached(core, core.cc.code, s, -1));
      Joined(isa, at, n, end, 1, Next(Reached(core, core.cc.code, s, -1)));
      n := n + 1;
    case Throw(s, v, c) =>
      var start, m, thrown1 := ThrowIsCaught(isa, p, core, stack, thrown, v, c, fuel);
      var last := Run(isa, at, n).core;
      OneStep(isa, last, start);
      Joined(isa, at, n, last, 1, Next(start));
      ShowsLater(isa, at, n + 1, start, m, Caught(isa, p, |stack|, s, v, c, fuel), core, core.cc.code, thrown1, fuel,
          fuel);
      n, thrown := n + 1 + m, thrown1;
    case Crash(c) =>
    case Unfinished =>
  }

  lemma CallRuns(isa: Isa, p: Prog, core: Core, stack: seq<StackItem>, fuel: nat) returns (n: nat, thrown: Core)
    requires Ready(core) && p.Invoke? && Whole(isa, p.body, p.code)
    ensures Shows(isa, InCall(core, p.code, stack), n, Meaning(isa, p, stack, core.cc.nargs, fuel),
                  core, core.cc.code, thrown, fuel)
    decreases fuel, p, 0
  {
    hide Run, Step, Raise, Rounds, WhileRounds, UntilRounds, ForeverRounds;
    var at := InCall(core, p.code, stack);
    n, thrown := Simulate(isa, p.body, at, fuel);
    var e := Meaning(isa, p.body, stack, -1, fuel);
    var rest := After(isa, p.body, p.code).value;
    if e.Finish? {
      var end := Reached(at, rest, e.stack, e.nargs);
      CallReturns(isa, core, end);
      OneStep(isa, end, Reached(core, core.cc.code, e.stack, -1));
      Joined(isa, at, n, end, 1, Next(Reached(core, core.cc.code, e.stack, -1)));
      n := n + 1;
    } else {
      Rebase(isa, at, n, e, at, rest, core, core.cc.code, thrown, fuel);
    }
  }

  lemma CallReturns(isa: Isa, core: Core, end: Core)
    requires Ready(core) && Exhausted(end.cc.code) && end.cc.typ.Ordinary?
    requires SameButC0(end.ctrls, core.ctrls) && end.ctrls[0] == SavedCont(Caller(core))
    ensures Step(isa, end) == Next(Reached(core, core.cc.code, end.cc.stack, -1))
  {
    ReturnsToCaller(core, end, false);
  }

  /** The origin may be named at any code position and with any stack. */
  lemma SameOrigin(isa: Isa, from: Core, n: nat, e: Eval, base: Core, core: Core, rest: Slice, thrown: Core, fuel: nat)
    requires base == Reached(core, base.cc.code, base.cc.stack, base.cc.nargs)
    requires Shows(isa, from, n, e, base, rest, thrown, fuel)
    ensures Shows(isa, from, n, e, core, rest, thrown, fuel)
  {}

  /** Block literals are on the stack, the instruction that uses them has been read. */
  function Loaded(core: Core, rest: Slice, blocks: seq<StackItem>): Core {
    Reached(core, rest, core.cc.stack + blocks, core.cc.nargs)
  }

  lemma LoadOne(isa: Isa, core: Core, a: Slice, instr: Instr, rest: Slice, next: Core)
    requires ReadTwo(isa, core.cc.code, PushCont(a), instr) == Some(rest)
    requires Execute(isa, Loaded(core, rest, [Block(a)]), instr) == Done(next)
    ensures Run(isa, core, 2) == Next(next)
  {}

  lemma LoadTwo(isa: Isa, core: Core, a: Slice, b: Slice, instr: Instr, rest: Slice, next: Core)
    requires ReadThree(isa, core.cc.code, PushCont(a), PushCont(b), instr) == Some(rest)
    requires Execute(isa, Loaded(core, rest, [Block(a), Block(b)]), instr) == Done(next)
    ensures Run(isa, core, 3) == Next(next)
  {
    hide Run, Step, Read, Execute;
    var mid := ReadTwo(isa, core.cc.code, PushCont(a), PushCont(b)).value;
    var at := Loaded(core, mid, [Block(a), Block(b)]);
    PushTwo(isa, core, a, b, mid);
    InstrStep(isa, at, instr, rest);
    OneStep(isa, at, next);
    Joined(isa, core, 2, at, 1, Next(next));
  }

  lemma SimulateGuard(isa: Isa, p: Prog, core: Core, fuel: nat) returns (n: nat, thrown: Core)
    requires Ready(core) && p.Guard? && After(isa, p, core.cc.code).Some?
    ensures Shows(isa, core, n, Meaning(isa, p, core.cc.stack, core.cc.nargs, fuel),
                  core, After(isa, p, core.cc.code).value, thrown, fuel)
    decreases fuel, p, 1, 0
  {
    hide Run, Step, Raise, Meaning, Whole, ReadThree, ExecTry;
    var stack, rest := core.cc.stack, After(isa, p, core.cc.code).value;
    var base := Loaded(core, rest, [Block(p.code), Block(p.handlerCode)]);
    var start := InGuard(base, p.code, p.handlerCode, stack, p.keep);
    TryEnters(base, p.code, p.handlerCode, stack, p.keep);
    LoadTwo(isa, core, p.code, p.handlerCode, if p.keep then TryKeep else Try, rest, start);
    n, thrown := GuardRuns(isa, p, base, stack, fuel);
    var e := Meaning(isa, p, stack, core.cc.nargs, fuel);
    ShowsLater(isa, core, 3, start, n, e, base, rest, thrown, fuel, fuel);
    n := 3 + n;
    SameOrigin(isa, core, n, e, base, core, rest, thrown, fuel);
  }

  lemma SimulateCall(isa: Isa, p: Prog, core: Core, fuel: nat) returns (n: nat, thrown: Core)
    requires Ready(core) && p.Invoke? && After(isa, p, core.cc.code).Some?
    ensures Shows(isa, core, n, Meaning(isa, p, core.cc.stack, core.cc.nargs, fuel),
                  core, After(isa, p, core.cc.code).value, thrown, fuel)
    decreases fuel, p, 1, 0
  {
    hide Run, Step, Raise, Meaning, Whole, ReadTwo, ExecCallX;
    var stack, rest := core.cc.stack, After(isa, p, core.cc.code).value;
    var base := Loaded(core, rest, [Block(p.code)]);
    var start := InCall(base, p.code, stack);
    CallEnters(base, p.code, stack);
    LoadOne(isa, core, p.code, CallX, rest, start);
    n, thrown := CallRuns(isa, p, base, stack, fuel);
    var e := Meaning(isa, p, stack, core.cc.nargs, fuel);
    ShowsLater(isa, core, 2, start, n, e, base, rest, thrown, fuel, fuel);
    n := 2 + n;
    SameOrigin(isa, core, n, e, base, core, rest, thrown, fuel);
  }

  lemma SimulateWhile(isa: Isa, p: Prog, core: Core, fuel: nat) returns (n: nat, thrown: Core)
    requires Ready(core) && p.Whilst? && After(isa, p, core.cc.code).Some?
    ensures Shows(isa, core, n, WhileRounds(isa, p, core.cc.stack, core.cc.nargs, fuel),
                  core, After(isa, p, core.cc.code).value, thrown, fuel)
    decreases fuel, p, 1, 0
  {
    hide Run, Step, Raise, Whole, ReadThree, StartLoop, WhileRounds;
    var stack, rest := core.cc.stack, After(isa, p, core.cc.code).value;
    var loaded := Loaded(core, rest, [Block(p.condCode), Block(p.code)]);
    var base := Reached(core, rest, stack, core.cc.nargs);
    assert Pop(loaded, 2) == base by { assert loaded.cc.stack[..|loaded.cc.stack| - 2] == stack; }
    var typ := WhileLoopCondition(p.code, p.condCode);
    var start := InLoop(base, p.condCode, stack, LoopCont(typ, Rest(base)));
    LoopEnters(base, p.condCode, typ);
    LoadTwo(isa, core, p.condCode, p.code, While, rest, start);
    n, thrown := WhileRuns(isa, p, base, stack, fuel);
    var e := WhileRounds(isa, p, stack, core.cc.nargs, fuel);
    ShowsLater(isa, core, 3, start, n, e, base, rest, thrown, fuel, fuel);
    n := 3 + n;
    SameOrigin(isa, core, n, e, base, core, rest, thrown, fuel);
  }

  lemma SimulateUntil(isa: Isa, p: Prog, core: Core, fuel: nat) returns (n: nat, thrown: Core)
    requires Ready(core) && p.RepeatUntil? && After(isa, p, core.cc.code).Some?
    ensures Shows(isa, core, n, UntilRounds(isa, p, core.cc.stack, core.cc.nargs, fuel),
                  core, After(isa, p, core.cc.code).value, thrown, fuel)
    decreases fuel, p, 1, 0
  {
    hide Run, Step, Raise, Whole, ReadTwo, StartLoop, UntilRounds;
    var stack, rest := core.cc.stack, After(isa, p, core.cc.code).value;
    var loaded := Loaded(core, rest, [Block(p.code)]);
    var base := Reached(core, rest, stack, core.cc.nargs);
    assert Pop(loaded, 1) == base by { assert loaded.cc.stack[..|loaded.cc.stack| - 1] == stack; }
    var typ := UntilLoopCondition(p.code);
    var start := InLoop(base, p.code, stack, LoopCont(typ, Rest(base)));
    LoopEnters(base, p.code, typ);
    LoadOne(isa, core, p.code, Until, rest, start);
    n, thrown := UntilRuns(isa, p, base, stack, fuel);
    var e := UntilRounds(isa, p, stack, core.cc.nargs, fuel);
    ShowsLater(isa, core, 2, start, n, e, base, rest, thrown, fuel, fuel);
    n := 2 + n;
    SameOrigin(isa, core, n, e, base, core, rest, thrown, fuel);
  }

  lemma SimulateAgain(isa: Isa, p: Prog, core: Core, fuel: nat) returns (n: nat, thrown: Core)
    requires Ready(core) && p.Forever? && After(isa, p, core.cc.code).Some?
    ensures Shows(isa, core, n, ForeverRounds(isa, p, core.cc.stack, fuel),
                  core, After(isa, p, core.cc.code).value, thrown, fuel)
    decreases fuel, p, 1, 0
  {
    hide Run, Step, Raise, Whole, ReadTwo, StartLoop, ForeverRounds;
    var stack, rest := core.cc.stack, After(isa, p, core.cc.code).value;
    var loaded := Loaded(core, rest, [Block(p.code)]);
    var base := Reached(core, rest, stack, core.cc.nargs);
    assert Pop(loaded, 1) == base by { assert loaded.cc.stack[..|loaded.cc.stack| - 1] == stack; }
    var typ := AgainLoopBody(p.code);
    var start := InLoop(base, p.code, stack, AgainCont(p.code, SavedCont(Rest(base))));
    LoopEnters(base, p.code, typ);
    LoadOne(isa, core, p.code, Again, rest, start);
    n, thrown := AgainRuns(isa, p, base, stack, SavedCont(Rest(base)), fuel);
    var e := ForeverRounds(isa, p, stack, fuel);
    ShowsLater(isa, core, 2, start, n, e, base, rest, thrown, fuel, fuel);
    n := 2 + n;
    SameOrigin(isa, core, n, e, base, core, rest, thrown, fuel);
  }

  /** REPEAT refuses its count before anything else changes. */
  lemma CountRefused(isa: Isa, core: Core, code: Slice, rest: Slice) returns (thrown: Core)
    requires Ready(core) && ReadTwo(isa, core.cc.code, PushCont(code), Repeat) == Some(rest)
    requires |core.cc.stack| > 0 ==>
      var count := core.cc.stack[|core.cc.stack| - 1];
      !count.Integer? || count.data.NaN? || !(-0x80000000 <= count.data.v <= 0x7FFFFFFF)
    ensures
      var s := core.cc.stack;
      var e := if |s| < 1 then StackUnderflow else if !s[|s| - 1].Integer? then TypeCheckError else RangeCheckError;
      && Run(isa, core, 1).Next?
      && Step(isa, Run(isa, core, 1).core) == Raise(thrown, ZERO, CodeNumber(e))
      && thrown.cc.stack == (if |s| < 1 then s + [Block(code)] else s[..|s| - 1])
      && SameButC0(thrown.ctrls, core.ctrls)
  {
    hide Run, Step, Raise, Read;
    var s := core.cc.stack;
    var mid := Read(isa, core.cc.code, PushCont(code)).value;
    var at := Loaded(core, mid, [Block(code)]);
    PushContStep(isa, core, code, mid);
    OneStep(isa, core, at);
    InstrStep(isa, at, Repeat, rest);
    var loaded := Loaded(core, rest, [Block(code)]);
    thrown := if |s| < 1 then loaded else Pop(loaded, 2);
  }

  lemma SimulateRepeat(isa: Isa, p: Prog, core: Core, fuel: nat) returns (n: nat, thrown: Core)
    requires Ready(core) && p.Times? && After(isa, p, core.cc.code).Some?
    ensures Shows(isa, core, n, Meaning(isa, p, core.cc.stack, core.cc.nargs, fuel),
                  core, After(isa, p, core.cc.code).value, thrown, fuel)
    decreases fuel, p, 1, 0
  {
    hide Run, Step, Raise, Whole, ReadTwo, StartLoop, Rounds, WhileRounds, UntilRounds, ForeverRounds, Caught;
    var s, rest := core.cc.stack, After(isa, p, core.cc.code).value;
    if |s| < 1 || !s[|s| - 1].Integer? || s[|s| - 1].data.NaN? || !(-0x80000000 <= s[|s| - 1].data.v <= 0x7FFFFFFF) {
      thrown := CountRefused(isa, core, p.code, rest);
      n := 1;
      return;
    }
    var below, k := s[..|s| - 1], s[|s| - 1].data.v;
    var loaded := Loaded(core, rest, [Block(p.code)]);
    var base := Reached(core, rest, below, core.cc.nargs);
    assert Pop(loaded, 2) == base by { assert loaded.cc.stack[..|loaded.cc.stack| - 2] == below; }
    if k <= 0 {
      LoadOne(isa, core, p.code, Repeat, rest, base);
      n, thrown := 2, core;
    } else {
      var typ := RepeatLoopBody(p.code, k);
      var start := InLoop(base, p.code, below, LoopCont(typ, Rest(base)));
      LoopEnters(base, p.code, typ);
      LoadOne(isa, core, p.code, Repeat, rest, start);
      n, thrown := RepeatRuns(isa, p.body, p.code, base, below, k, fuel);
      var e := Rounds(isa, p.body, below, core.cc.nargs, k, fuel);
      ShowsLater(isa, core, 2, start, n, e, base, rest, thrown, fuel, fuel);
      n := 2 + n;
      SameOrigin(isa, core, n, e, base, core, rest, thrown, fuel);
    }
  }

  lemma SimulateSeq(isa: Isa, p: Prog, core: Core, fuel: nat) returns (n: nat, thrown: Core)
    requires Ready(core) && p.Then? && After(isa, p, core.cc.code).Some?
    ensures Shows(isa, core, n, Meaning(isa, p, core.cc.stack, core.cc.nargs, fuel),
                  core, After(isa, p, core.cc.code).value, thrown, fuel)
    decreases fuel, p, 1, 0
  {
    hide Run, Step, Raise, Whole, Rounds, WhileRounds, UntilRounds, ForeverRounds, Caught;
    var mid, rest := After(isa, p.first, core.cc.code).value, After(isa, p, core.cc.code).value;
    n, thrown := Simulate(isa, p.first, core, fuel);
    var e := Meaning(isa, p.first, core.cc.stack, core.cc.nargs, fuel);
    if e.Finish? {
      var at := Reached(core, mid, e.stack, e.nargs);
      var m;
      m, thrown := Simulate(isa, p.second, at, fuel);
      var e2 := Meaning(isa, p.second, e.stack, e.nargs, fuel);
      ShowsLater(isa, core, n, at, m, e2, at, rest, thrown, fuel, fuel);
      n := n + m;
      SameOrigin(isa, core, n, e2, at, core, rest, thrown, fuel);
    } else {
      Rebase(isa, core, n, e, core, mid, core, rest, thrown, fuel);
    }
  }

  lemma SimulateOp(isa: Isa, id: nat, core: Core, rest: Slice) returns (n: nat, thrown: Core)
    requires Ready(core) && Read(isa, core.cc.code, Op(id)) == Some(rest)
    ensures Shows(isa, core, n, Meaning(isa, Do(id), core.cc.stack, core.cc.nargs, 0), core, rest, thrown, 0)
  {
    hide Run, Step, Raise;
    InstrStep(isa, core, Op(id), rest);
    match isa.apply(id, core.cc.stack)
    case Pushed(s) =>
      OneStep(isa, core, Reached(core, rest, s, core.cc.nargs));
      n, thrown := 1, core;
    case Raised(s, v, c) =>
      n, thrown := 0, Reached(core, rest, s, core.cc.nargs);
      NoSteps(isa, core);
  }

  lemma NoSteps(isa: Isa, core: Core)
    ensures Run(isa, core, 0) == Next(core)
  {}

  /**
   * The machine computes the meaning of every structured program: it finishes with the same
   * stack and with every register as it was, or raises the same exception with the same stack
   * and with c1..c7 as they were, or fails with the same code.
   */
  lemma {:induction false} Simulate(isa: Isa, p: Prog, core: Core, fuel: nat) returns (n: nat, thrown: Core)
    requires Ready(core) && After(isa, p, core.cc.code).Some?
    ensures Shows(isa, core, n, Meaning(isa, p, core.cc.stack, core.cc.nargs, fuel),
                  core, After(isa, p, core.cc.code).value, thrown, fuel)
    decreases fuel, p, 1, 1
  {
    hide Run, Step, Raise, Rounds, Caught, WhileRounds, UntilRounds, ForeverRounds, Whole;
    thrown := core;
    match p
    case Skip =>
      n := 0;
      NoSteps(isa, core);
    case Follow =>
      n := 1;
      FollowStep(isa, core);
    case Do(id) => n, thrown := SimulateOp(isa, id, core, After(isa, p, core.cc.code).value);
    case Then(_, _) => n, thrown := SimulateSeq(isa, p, core, fuel);
    case Invoke(_, _) => n, thrown := SimulateCall(isa, p, core, fuel);
    case Guard(_, _, _, _, _) => n, thrown := SimulateGuard(isa, p, core, fuel);
    case Times(_, _) => n, thrown := SimulateRepeat(isa, p, core, fuel);
    case Whilst(_, _, _, _) => n, thrown := SimulateWhile(isa, p, core, fuel);
    case RepeatUntil(_, _) => n, thrown := SimulateUntil(isa, p, core, fuel);
    case Forever(_, _) => n, thrown := SimulateAgain(isa, p, core, fuel);
  }

  lemma FollowStep(isa: Isa, core: Core)
    requires OutOfBits(core.cc.code) && !Exhausted(core.cc.code) && isa.load(core.cc.code).Some?
    ensures Run(isa, core, 1) == Next(core.(cc := core.cc.(code := isa.load(core.cc.code).value)))
  {}
}
