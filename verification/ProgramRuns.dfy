/** Whole runs of structured programs, and what loops in handlers and TRYKEEP do to the stack. */
module ProgramRuns {
  import opened Outcomes
  import opened Cells
  import opened Values
  import opened Machine
  import opened Structured
  import opened Simulation
  import opened GasMeter
  import opened Metering

  /** A fresh machine: c0 quits with 0 and c2 reports uncaught exceptions. */
  predicate Fresh(ctrls: SaveList) {
    && |ctrls| == NUMREGS
    && ctrls[0] == SavedCont(WithType(Quit(0)))
    && ctrls[2] == SavedCont(WithType(ExcQuit))
  }

  /** A run that has ended stays ended. */
  lemma {:induction false} RunStays(isa: Isa, core: Core, m: nat, n: nat)
    requires !Run(isa, core, m).Next? && m <= n
    ensures Run(isa, core, n) == Run(isa, core, m)
    decreases m
  {
    hide Step;
    if Step(isa, core).Next? {
      RunStays(isa, Step(isa, core).core, m - 1, n - 1);
    }
  }

  /** The end of the main program: quit with code 0 and the stack it left. */
  lemma MainReturns(isa: Isa, end: Core)
    requires |end.ctrls| == NUMREGS && end.ctrls[0] == SavedCont(WithType(Quit(0)))
    requires Exhausted(end.cc.code) && end.cc.typ.Ordinary?
    ensures Run(isa, end, 2).Halted? && Run(isa, end, 2).code == 0
    ensures Run(isa, end, 2).core.cc.stack == end.cc.stack
  {}

  lemma OneHalt(isa: Isa, core: Core)
    requires !Step(isa, core).Next?
    ensures Run(isa, core, 1) == Step(isa, core)
  {}

  /** An exception nobody catches ends the run with its value and number. */
  lemma MainThrows(isa: Isa, last: Core, thrown: Core, v: StackItem, c: int)
    requires |thrown.ctrls| == NUMREGS && thrown.ctrls[2] == SavedCont(WithType(ExcQuit))
    requires Step(isa, last) == Raise(thrown, v, c)
    ensures
      var r := Run(isa, last, 2);
      if c == 0 || c == 1 then r.Halted? && r.code == c && r.core.cc.stack == [v]
      else r.Failed? && r.code == c && r.core.cc.stack == [v, Integer(Value(c))]
  {
    if c == 0 || c == 1 {
      var bare := thrown.(ctrls := Set(thrown.ctrls, 2, Unset));
      var s := Push(bare, v).cc.stack;
      assert s[|s| - 1..] == [v] && [] + s[|s| - 1..] == [v];
      var next := Raise(thrown, v, c).core;
      OneStep(isa, last, next);
      assert Step(isa, next) == Halted(next, c);
      OneHalt(isa, next);
      Joined(isa, last, 1, next, 1, Halted(next, c));
    } else {
      OneHalt(isa, last);
      RunStays(isa, last, 1, 2);
    }
  }

  /** The end of a run that a meaning calls for. */
  predicate Delivers(e: Eval, r: Outcome) {
    match e
    case Finish(s, _) => r.Halted? && r.code == 0 && r.core.cc.stack == s
    case Throw(_, v, c) =>
      if c == 0 || c == 1 then r.Halted? && r.code == c && r.core.cc.stack == [v]
      else r.Failed? && r.code == c && r.core.cc.stack == [v, Integer(Value(c))]
    case Crash(c) => r.Failed? && r.code == c
    case Unfinished => r.Next?
  }

  /**
   * A fresh machine runs a structured program to its meaning: quit with 0 on the final stack,
   * the uncaught exception, or the failure; and while the meaning is out of reach of the fuel
   * the machine is still running after that many steps.
   */
  lemma ProgramRunsToMeaning(isa: Isa, p: Prog, code: Slice, stack: seq<StackItem>, ctrls: SaveList, fuel: nat)
    returns (n: nat)
    requires Fresh(ctrls) && Whole(isa, p, code)
    ensures Delivers(Meaning(isa, p, stack, -1, fuel), Run(isa, Core(Callee(code, stack), ctrls), n))
    ensures Meaning(isa, p, stack, -1, fuel).Unfinished? ==> n >= fuel
  {
    hide Run, Step, Raise, Meaning;
    var start := Core(Callee(code, stack), ctrls);
    var thrown;
    n, thrown := Simulate(isa, p, start, fuel);
    var rest := After(isa, p, code).value;
    match Meaning(isa, p, stack, -1, fuel)
    case Finish(s, a) =>
      var end := Reached(start, rest, s, a);
      MainReturns(isa, end);
      Joined(isa, start, n, end, 2, Run(isa, end, 2));
      n := n + 2;
    case Throw(s, v, c) =>
      var last := Run(isa, start, n).core;
      MainThrows(isa, last, thrown, v, c);
      Joined(isa, start, n, last, 2, Run(isa, last, 2));
      n := n + 2;
    case Crash(c) =>
    case Unfinished =>
  }

  /** Whenever the machine ends a structured program, the meaning is defined with that much fuel. */
  lemma EndedRunHasMeaning(isa: Isa, p: Prog, code: Slice, stack: seq<StackItem>, ctrls: SaveList, n: nat)
    requires Fresh(ctrls) && Whole(isa, p, code)
    requires !Run(isa, Core(Callee(code, stack), ctrls), n).Next?
    ensures !Meaning(isa, p, stack, -1, n).Unfinished?
  {
    hide Run, Step, Meaning, Whole;
    var m := ProgramRunsToMeaning(isa, p, code, stack, ctrls, n);
    if Meaning(isa, p, stack, -1, n).Unfinished? {
      RunStays(isa, Core(Callee(code, stack), ctrls), n, m);
    }
  }

  /** A run that gas lets end ends with the meaning of the program. */
  lemma EndedRunDelivers(isa: Isa, tariff: Tariff, p: Prog, code: Slice, stack: seq<StackItem>, ctrls: SaveList,
      gas: GasState, n: nat)
    requires Fresh(ctrls) && Whole(isa, p, code)
    requires VmRun(isa, tariff, Vm(Core(Callee(code, stack), ctrls), gas, 0), n).Over?
    ensures
      var r := VmRun(isa, tariff, Vm(Core(Callee(code, stack), ctrls), gas, 0), n).result;
      !r.Next? && Delivers(Meaning(isa, p, stack, -1, n), r)
  {
    hide Run, VmRun, Meaning, Whole;
    var start := Core(Callee(code, stack), ctrls);
    GasOnlyStops(isa, tariff, Vm(start, gas, 0), n);
    EndedRunHasMeaning(isa, p, code, stack, ctrls, n);
    var m := ProgramRunsToMeaning(isa, p, code, stack, ctrls, n);
    RunStays(isa, start, n, if m >= n then m else n);
    RunStays(isa, start, m, if m >= n then m else n);
  }

  /**
   * Under gas a structured program always ends, and unless gas runs out it ends with its meaning.
   */
  lemma MeteredProgramEnds(isa: Isa, tariff: Tariff, p: Prog, code: Slice, stack: seq<StackItem>, ctrls: SaveList,
      gas: GasState)
    returns (n: nat)
    requires Fresh(ctrls) && Whole(isa, p, code) && gas.remaining >= 0
    ensures
      var r := VmRun(isa, tariff, Vm(Core(Callee(code, stack), ctrls), gas, 0), n);
      && !r.Going?
      && (r.Over? ==> !r.result.Next? && Delivers(Meaning(isa, p, stack, -1, n), r.result))
  {
    hide VmRun, Meaning, Whole;
    var start := Vm(Core(Callee(code, stack), ctrls), gas, 0);
    n := EveryRunEnds(isa, tariff, start);
    if VmRun(isa, tariff, start, n).Over? {
      EndedRunDelivers(isa, tariff, p, code, stack, ctrls, gas, n);
    }
  }

  // ----- loops under a fixed argument count -----

  /** The same end with the stack gone: what a loop makes of e when it was entered with nargs 0. */
  function StackLost(e: Eval): Eval {
    if e.Finish? then Finish([], 0) else e
  }

  lemma {:induction false} RoundsLoseStack(isa: Isa, body: Prog, stack: seq<StackItem>, k: int, fuel: nat)
    requires k >= 1
    ensures Rounds(isa, body, stack, 0, k, fuel) == StackLost(Rounds(isa, body, stack, -1, k, fuel))
    decreases k
  {
    hide Meaning;
    var e := Meaning(isa, body, stack, -1, fuel);
    if e.Finish? && k > 1 {
      RoundsLoseStack(isa, body, e.stack, k - 1, fuel);
    }
  }

  lemma {:induction false} WhileLosesStack(isa: Isa, p: Prog, stack: seq<StackItem>, fuel: nat)
    requires p.Whilst?
    ensures WhileRounds(isa, p, stack, 0, fuel) == StackLost(WhileRounds(isa, p, stack, -1, fuel))
    decreases fuel
  {
    hide Meaning;
    var e := Meaning(isa, p.cond, stack, -1, fuel);
    if e.Finish? && |e.stack| >= 1 && fuel > 0 {
      var e1 := Meaning(isa, p.body, e.stack[..|e.stack| - 1], -1, fuel);
      if e1.Finish? {
        WhileLosesStack(isa, p, e1.stack, fuel - 1);
      }
    }
  }

  lemma {:induction false} UntilLosesStack(isa: Isa, p: Prog, stack: seq<StackItem>, fuel: nat)
    requires p.RepeatUntil?
    ensures UntilRounds(isa, p, stack, 0, fuel) == StackLost(UntilRounds(isa, p, stack, -1, fuel))
    decreases fuel
  {
    hide Meaning;
    var e := Meaning(isa, p.body, stack, -1, fuel);
    if e.Finish? && |e.stack| >= 1 && fuel > 0 {
      UntilLosesStack(isa, p, e.stack[..|e.stack| - 1], fuel - 1);
    }
  }

  /** The program starts a loop: it is one, and a REPEAT has at least one round to do. */
  predicate StartsLoop(p: Prog, stack: seq<StackItem>) {
    || p.Whilst?
    || p.RepeatUntil?
    || (p.Times? && |stack| > 0 && stack[|stack| - 1].Integer? && stack[|stack| - 1].data.Value?
        && 0 < stack[|stack| - 1].data.v <= 0x7FFFFFFF)
  }

  /**
   * A loop leaves its stack to the code after it if and only if it was started with no fixed
   * argument count, or there is no stack to leave.
   */
  lemma LoopKeepsStackIff(isa: Isa, p: Prog, stack: seq<StackItem>, nargs: int, fuel: nat)
    requires StartsLoop(p, stack) && (nargs == -1 || nargs == 0)
    requires Meaning(isa, p, stack, -1, fuel).Finish?
    ensures Meaning(isa, p, stack, nargs, fuel).Finish?
    ensures Meaning(isa, p, stack, nargs, fuel).stack == Meaning(isa, p, stack, -1, fuel).stack
       <==> nargs == -1 || Meaning(isa, p, stack, -1, fuel).stack == []
  {
    hide Rounds, WhileRounds, UntilRounds;
    match p
    case Times(_, body) => RoundsLoseStack(isa, body, stack[..|stack| - 1], stack[|stack| - 1].data.v, fuel);
    case Whilst(_, _, _, _) => WhileLosesStack(isa, p, stack, fuel);
    case RepeatUntil(_, _) => UntilLosesStack(isa, p, stack, fuel);
    case _ =>
  }

  /**
   * A handler that runs an empty UNTIL loop over the exception number: under TRYKEEP it returns
   * the guarded stack and the exception value, under TRY it returns nothing at all.
   */
  lemma LoopInHandler(isa: Isa, code: Slice, body: Prog, h: Slice, b: Slice, stack: seq<StackItem>, nargs: int,
      fuel: nat)
    requires Meaning(isa, body, stack, -1, fuel).Throw?
    requires Meaning(isa, body, stack, -1, fuel).code != 0
    requires |Meaning(isa, body, stack, -1, fuel).stack| >= |stack|
    ensures
      var e := Meaning(isa, body, stack, -1, fuel);
      && Meaning(isa, Guard(code, body, h, RepeatUntil(b, Skip), true), stack, nargs, fuel)
         == Finish(e.stack[..|stack|] + [e.value], -1)
      && Meaning(isa, Guard(code, body, h, RepeatUntil(b, Skip), false), stack, nargs, fuel) == Finish([], -1)
  {
    var e := Meaning(isa, body, stack, -1, fuel);
    var number := Integer(Value(e.code));
    var kept := e.stack[..|stack|] + [e.value];
    var loop := RepeatUntil(b, Skip);
    EmptyUntil(isa, b, kept, number, -1, fuel);
    EmptyUntil(isa, b, [e.value], number, 0, fuel);
    assert kept + [number] == e.stack[..|stack|] + [e.value, number];
    assert [e.value] + [number] == [e.value, number];
    GuardThrows(isa, Guard(code, body, h, loop, true), stack, nargs, fuel);
    GuardThrows(isa, Guard(code, body, h, loop, false), stack, nargs, fuel);
  }

  /** An UNTIL with an empty body just takes a nonzero flag off the stack. */
  lemma EmptyUntil(isa: Isa, b: Slice, below: seq<StackItem>, flag: StackItem, nargs: int, fuel: nat)
    requires flag.Integer? && flag != ZERO
    ensures Meaning(isa, RepeatUntil(b, Skip), below + [flag], nargs, fuel) == Leave(below, nargs)
  {
    var s := below + [flag];
    assert Meaning(isa, Skip, s, -1, fuel) == Finish(s, -1);
    assert s[..|s| - 1] == below;
  }

  lemma GuardThrows(isa: Isa, p: Prog, stack: seq<StackItem>, nargs: int, fuel: nat)
    requires p.Guard? && Meaning(isa, p.body, stack, -1, fuel).Throw?
    ensures
      var e := Meaning(isa, p.body, stack, -1, fuel);
      Meaning(isa, p, stack, nargs, fuel) == Caught(isa, p, |stack|, e.stack, e.value, e.code, fuel)
  {}

  // ----- TRYKEEP over a stack that was eaten into -----

  /**
   * An exception under TRYKEEP reaches the handler, with the guarded slots below the exception pair,
   * if and only if the block has left that many slots; otherwise the run fails with a stack underflow.
   */
  lemma KeepNeedsGuardedStack(isa: Isa, p: Prog, stack: seq<StackItem>, nargs: int, fuel: nat)
    requires p.Guard? && p.keep && Meaning(isa, p.body, stack, -1, fuel).Throw?
    ensures
      var e := Meaning(isa, p.body, stack, -1, fuel);
      Meaning(isa, p, stack, nargs, fuel) ==
      if |e.stack| < |stack| then Crash(CodeNumber(StackUnderflow))
      else Open(Meaning(isa, p.handler, e.stack[..|stack|] + [e.value, Integer(Value(e.code))], -1, fuel))
  {
    GuardThrows(isa, p, stack, nargs, fuel);
  }

  /** A TRY or TRYKEEP around some block. */
  datatype Layer = Layer(code: Slice, handlerCode: Slice, handler: Prog, keep: bool)

  /** p inside any number of guards, the outermost first. */
  function Enclosed(p: Prog, layers: seq<Layer>): Prog {
    if layers == [] then p else
      var l := layers[0];
      Guard(l.code, Enclosed(p, layers[1..]), l.handlerCode, l.handler, l.keep)
  }

  /** A crash passes every enclosing handler. */
  lemma {:induction false} CrashPassesHandlers(isa: Isa, p: Prog, layers: seq<Layer>, stack: seq<StackItem>, c: int,
      fuel: nat)
    requires Meaning(isa, p, stack, -1, fuel) == Crash(c)
    ensures Meaning(isa, Enclosed(p, layers), stack, -1, fuel) == Crash(c)
    decreases |layers|
  {
    if layers != [] {
      CrashPassesHandlers(isa, p, layers[1..], stack, c, fuel);
    }
  }

  /**
   * A fresh machine that runs TRYKEEP on a block which raises with less than the guarded stack left
   * fails with a stack underflow, whatever handlers are around it.
   */
  lemma KeepEndsRun(isa: Isa, p: Prog, layers: seq<Layer>, code: Slice, stack: seq<StackItem>, ctrls: SaveList,
      fuel: nat)
    returns (n: nat)
    requires p.Guard? && p.keep && Meaning(isa, p.body, stack, -1, fuel).Throw?
    requires |Meaning(isa, p.body, stack, -1, fuel).stack| < |stack|
    requires Fresh(ctrls) && Whole(isa, Enclosed(p, layers), code)
    ensures
      var r := Run(isa, Core(Callee(code, stack), ctrls), n);
      r.Failed? && r.code == CodeNumber(StackUnderflow)
  {
    hide Run, Meaning, Whole, Enclosed;
    KeepNeedsGuardedStack(isa, p, stack, -1, fuel);
    CrashPassesHandlers(isa, p, layers, stack, CodeNumber(StackUnderflow), fuel);
    n := ProgramRunsToMeaning(isa, Enclosed(p, layers), code, stack, ctrls, fuel);
  }

  /** The code of the example below, told apart by its length. */
  function ExampleCode(n: nat): Slice {
    Slice(Cell(seq(n, _ => true), []), 0, n, 0, 0)
  }

  /** 7: TRY of 4 with an empty handler; 4: TRYKEEP of 1 with an empty handler; 1: an operation. */
  function ExampleFetch(s: Slice): Fetch {
    match s.RemainingBits()
    case 7 => Fetched(PushCont(ExampleCode(4)), ExampleCode(6))
    case 6 => Fetched(PushCont(ExampleCode(0)), ExampleCode(5))
    case 5 => Fetched(Try, ExampleCode(0))
    case 4 => Fetched(PushCont(ExampleCode(1)), ExampleCode(3))
    case 3 => Fetched(PushCont(ExampleCode(0)), ExampleCode(2))
    case 2 => Fetched(TryKeep, ExampleCode(0))
    case 1 => Fetched(Op(0), ExampleCode(0))
    case _ => Invalid
  }

  /** THROWARG 100: the value of the exception comes off the stack. */
  function ThrowArg(id: nat, stack: seq<StackItem>): OpResult {
    if stack == [] then Raised([], ZERO, CodeNumber(StackUnderflow))
    else Raised(stack[..|stack| - 1], stack[|stack| - 1], 100)
  }

  function ExampleIsa(): Isa {
    Isa(ExampleFetch, ThrowArg, _ => None)
  }

  lemma ExampleReads(n: nat)
    requires 1 <= n <= 7
    ensures
      var f := ExampleFetch(ExampleCode(n));
      f.Fetched? && Read(ExampleIsa(), ExampleCode(n), f.instr) == Some(f.rest)
    ensures Exhausted(ExampleCode(0))
  {}

  /** Code that pushes two blocks and guards the first with the second. */
  lemma GuardIsWhole(isa: Isa, p: Prog, code: Slice)
    requires p.Guard? && Whole(isa, p.body, p.code) && Whole(isa, p.handler, p.handlerCode)
    requires
      var rest := ReadThree(isa, code, PushCont(p.code), PushCont(p.handlerCode), if p.keep then TryKeep else Try);
      rest.Some? && Exhausted(rest.value)
    ensures Whole(isa, p, code)
  {
    hide ReadThree;
  }

  /** THROWARG in a TRYKEEP in a TRY, over a stack of one slot: neither handler runs, the machine fails. */
  lemma ThrowArgUnderTryKeep(x: StackItem, ctrls: SaveList) returns (n: nat)
    requires Fresh(ctrls)
    ensures
      var r := Run(ExampleIsa(), Core(Callee(ExampleCode(7), [x]), ctrls), n);
      r.Failed? && r.code == CodeNumber(StackUnderflow)
  {
    hide Run, Whole, ExampleCode, Read, Fresh;
    var isa := ExampleIsa();
    var none := ExampleCode(0);
    var p := Guard(ExampleCode(1), Do(0), none, Skip, true);
    var layers := [Layer(ExampleCode(4), none, Skip, false)];
    ExampleIsWhole();
    assert Enclosed(p, layers[1..]) == p;
    assert Meaning(isa, Do(0), [x], -1, 0) == Throw([], x, 100);
    n := KeepEndsRun(isa, p, layers, ExampleCode(7), [x], ctrls, 0);
  }

  lemma ExampleIsWhole()
    ensures
      var none := ExampleCode(0);
      var p := Guard(ExampleCode(1), Do(0), none, Skip, true);
      Whole(ExampleIsa(), Guard(ExampleCode(4), p, none, Skip, false), ExampleCode(7))
  {
    hide Read, Whole, ExampleIsa;
    var isa := ExampleIsa();
    var none := ExampleCode(0);
    var p := Guard(ExampleCode(1), Do(0), none, Skip, true);
    forall n: nat | 1 <= n <= 7
      ensures
        var f := ExampleFetch(ExampleCode(n));
        f.Fetched? && Read(isa, ExampleCode(n), f.instr) == Some(f.rest)
    {
      ExampleReads(n);
    }
    ExampleReads(1);
    LeavesAreWhole(isa, none, ExampleCode(1));
    GuardIsWhole(isa, p, ExampleCode(4));
    GuardIsWhole(isa, Guard(ExampleCode(4), p, none, Skip, false), ExampleCode(7));
  }

  lemma LeavesAreWhole(isa: Isa, none: Slice, one: Slice)
    requires Exhausted(none) && Read(isa, one, Op(0)) == Some(none)
    ensures Whole(isa, Skip, none) && Whole(isa, Do(0), one)
  {}
}
