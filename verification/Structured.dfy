/**
 * Structured programs: nested TRY, TRYKEEP, REPEAT, WHILE, UNTIL, AGAIN and calls, given a direct meaning.
 * `Simulation` proves that the continuation machine computes exactly that meaning.
 */
module Structured {
  import opened Outcomes
  import opened Cells
  import opened Values
  import opened Machine

  /** A block of code together with its structure; block literals are pushed by PUSHCONT. */
  datatype Prog =
    | Skip
    | Do(id: nat)
    | Follow
    | Then(first: Prog, second: Prog)
    | Invoke(code: Slice, body: Prog)
    | Guard(code: Slice, body: Prog, handlerCode: Slice, handler: Prog, keep: bool)
    | Times(code: Slice, body: Prog)
    | Whilst(condCode: Slice, cond: Prog, code: Slice, body: Prog)
    | RepeatUntil(code: Slice, body: Prog)
    | Forever(code: Slice, body: Prog)

  // ----- which code spells which program -----

  /** The code after `instr`, if that is what comes first. */
  function Read(isa: Isa, code: Slice, instr: Instr): Option<Slice> {
    if OutOfBits(code) then None else
      match isa.fetch(code)
      case Invalid => None
      case Fetched(i, rest) => if i == instr then Some(rest) else None
  }

  function ReadTwo(isa: Isa, code: Slice, i: Instr, j: Instr): Option<Slice> {
    match Read(isa, code, i)
    case None => None
    case Some(rest) => Read(isa, rest, j)
  }

  function ReadThree(isa: Isa, code: Slice, i: Instr, j: Instr, k: Instr): Option<Slice> {
    match ReadTwo(isa, code, i, j)
    case None => None
    case Some(rest) => Read(isa, rest, k)
  }

  /** The code left after p, if `code` starts with p. */
  function After(isa: Isa, p: Prog, code: Slice): Option<Slice>
    decreases p, 0
  {
    match p
    case Skip => Some(code)
    case Do(id) => Read(isa, code, Op(id))
    case Follow => if OutOfBits(code) && !Exhausted(code) then isa.load(code) else None
    case Then(first, second) =>
      (match After(isa, first, code)
       case None => None
       case Some(rest) => After(isa, second, rest))
    case Invoke(c, body) =>
      if Whole(isa, body, c) then ReadTwo(isa, code, PushCont(c), CallX) else None
    case Guard(c, body, h, handler, keep) =>
      if Whole(isa, body, c) && Whole(isa, handler, h)
      then ReadThree(isa, code, PushCont(c), PushCont(h), if keep then TryKeep else Try) else None
    case Times(c, body) =>
      if Whole(isa, body, c) then ReadTwo(isa, code, PushCont(c), Repeat) else None
    case Whilst(t, cond, c, body) =>
      if Whole(isa, cond, t) && Whole(isa, body, c)
      then ReadThree(isa, code, PushCont(t), PushCont(c), While) else None
    case RepeatUntil(c, body) =>
      if Whole(isa, body, c) then ReadTwo(isa, code, PushCont(c), Until) else None
    case Forever(c, body) =>
      if Whole(isa, body, c) then ReadTwo(isa, code, PushCont(c), Again) else None
  }

  /** `code` is p and nothing else. */
  predicate Whole(isa: Isa, p: Prog, code: Slice)
    decreases p, 1
  {
    match After(isa, p, code)
    case None => false
    case Some(rest) => Exhausted(rest)
  }

  // ----- meaning -----

  /**
   * How a program ends: with a stack (and the number of further arguments its continuation
   * expects), with an exception and the stack it left behind, with the failure of the whole
   * run, or not within the given fuel.
   */
  datatype Eval =
    | Finish(stack: seq<StackItem>, nargs: int)
    | Throw(stack: seq<StackItem>, value: StackItem, code: int)
    | Crash(code: int)
    | Unfinished

  function Block(code: Slice): StackItem {
    ContItem(WithCode(code))
  }

  function Error(stack: seq<StackItem>, e: ExceptionCode): Eval {
    Throw(stack, ZERO, CodeNumber(e))
  }

  /** A called block returns all of its stack and leaves the caller open to any number of values. */
  function Open(e: Eval): Eval {
    if e.Finish? then Finish(e.stack, -1) else e
  }

  /** A loop gives its stack to the code after it only if that code was not entered with a fixed count. */
  function Leave(stack: seq<StackItem>, nargs: int): Eval {
    Finish(if nargs == -1 then stack else [], nargs)
  }

  function Meaning(isa: Isa, p: Prog, stack: seq<StackItem>, nargs: int, fuel: nat): (e: Eval)
    ensures e.Finish? ==> e.nargs == -1 || e.nargs == nargs
    decreases fuel, p, 1
  {
    match p
    case Skip => Finish(stack, nargs)
    case Follow => Finish(stack, nargs)
    case Do(id) =>
      (match isa.apply(id, stack)
       case Pushed(s) => Finish(s, nargs)
       case Raised(s, v, n) => Throw(s, v, n))
    case Then(first, second) =>
      (match Meaning(isa, first, stack, nargs, fuel)
       case Finish(s, a) => Meaning(isa, second, s, a, fuel)
       case other => other)
    case Invoke(c, body) => Open(Meaning(isa, body, stack, -1, fuel))
    case Guard(c, body, h, handler, keep) =>
      (match Meaning(isa, body, stack, -1, fuel)
       case Finish(s, _) => Finish(s, -1)
       case Throw(s, v, n) => Caught(isa, p, |stack|, s, v, n, fuel)
       case other => other)
    case Times(c, body) =>
      if |stack| < 1 then Error(stack + [Block(c)], StackUnderflow) else
      var rest, count := stack[..|stack| - 1], stack[|stack| - 1];
      if !count.Integer? then Error(rest, TypeCheckError)
      else if count.data.NaN? || !(-0x80000000 <= count.data.v <= 0x7FFFFFFF) then Error(rest, RangeCheckError)
      else if count.data.v <= 0 then Finish(rest, nargs)
      else Rounds(isa, body, rest, nargs, count.data.v, fuel)
    case Whilst(t, cond, c, body) => WhileRounds(isa, p, stack, nargs, fuel)
    case RepeatUntil(c, body) => UntilRounds(isa, p, stack, nargs, fuel)
    case Forever(c, body) => ForeverRounds(isa, p, stack, fuel)
  }

  /**
   * A handler of TRY starts with the exception pair alone and with no further arguments due.
   * A handler of TRYKEEP also finds the `depth` slots that were there before the guarded block;
   * if the block has eaten into them the whole run fails.
   */
  function Caught(isa: Isa, p: Prog, depth: nat, stack: seq<StackItem>, value: StackItem, code: int,
      fuel: nat): (e: Eval)
    requires p.Guard?
    ensures e.Finish? ==> e.nargs == -1
    decreases fuel, p, 0
  {
    var pair := [value, Integer(Value(code))];
    if !p.keep then Open(Meaning(isa, p.handler, pair, 0, fuel))
    else if |stack| < depth then Crash(CodeNumber(StackUnderflow))
    else Open(Meaning(isa, p.handler, stack[..depth] + pair, -1, fuel))
  }

  /** k rounds of a REPEAT body. */
  function Rounds(isa: Isa, body: Prog, stack: seq<StackItem>, nargs: int, k: int, fuel: nat): (e: Eval)
    requires k >= 1
    ensures e.Finish? ==> e.nargs == -1 || e.nargs == nargs
    decreases fuel, body, k + 1
  {
    match Meaning(isa, body, stack, -1, fuel)
    case Finish(s, _) => if k == 1 then Leave(s, nargs) else Rounds(isa, body, s, nargs, k - 1, fuel)
    case other => other
  }

  function WhileRounds(isa: Isa, p: Prog, stack: seq<StackItem>, nargs: int, fuel: nat): (e: Eval)
    requires p.Whilst?
    ensures e.Finish? ==> e.nargs == -1 || e.nargs == nargs
    decreases fuel, p, 0
  {
    match Meaning(isa, p.cond, stack, -1, fuel)
    case Finish(s, _) =>
      if |s| < 1 then Error(s, StackUnderflow) else
      var rest, flag := s[..|s| - 1], s[|s| - 1];
      if !flag.Integer? then Error(rest, TypeCheckError)
      else if flag == ZERO then Leave(rest, nargs)
      else
        (match Meaning(isa, p.body, rest, -1, fuel)
         case Finish(s1, _) => if fuel == 0 then Unfinished else WhileRounds(isa, p, s1, nargs, fuel - 1)
         case other => other)
    case other => other
  }

  function UntilRounds(isa: Isa, p: Prog, stack: seq<StackItem>, nargs: int, fuel: nat): (e: Eval)
    requires p.RepeatUntil?
    ensures e.Finish? ==> e.nargs == -1 || e.nargs == nargs
    decreases fuel, p, 0
  {
    match Meaning(isa, p.body, stack, -1, fuel)
    case Finish(s, _) =>
      if |s| < 1 then Error(s, StackUnderflow) else
      var rest, flag := s[..|s| - 1], s[|s| - 1];
      if !flag.Integer? then Error(rest, TypeCheckError)
      else if flag != ZERO then Leave(rest, nargs)
      else if fuel == 0 then Unfinished else UntilRounds(isa, p, rest, nargs, fuel - 1)
    case other => other
  }

  /** The body of AGAIN on its own result, over and over: only an exception or a failure ends it. */
  function ForeverRounds(isa: Isa, p: Prog, stack: seq<StackItem>, fuel: nat): (e: Eval)
    requires p.Forever?
    ensures !e.Finish?
    decreases fuel, p, 0
  {
    match Meaning(isa, p.body, stack, -1, fuel)
    case Finish(s, _) => if fuel == 0 then Unfinished else ForeverRounds(isa, p, s, fuel - 1)
    case other => other
  }
}
