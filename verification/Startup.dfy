/** Setting up a machine: what its registers show, and that programs run from there. */
module Startup {
  import opened Outcomes
  import opened Cells
  import opened Values
  import opened Machine
  import opened Structured
  import opened Simulation
  import opened GasMeter
  import opened Metering
  import opened Typing
  import opened ProgramRuns
  import opened Commits
  import opened Storage
  import opened Visible
  import Driver
  import EngineRuns

  /** What PUSHCTR shows of each register of a fresh machine. */
  function InitialRegister(reg: nat, code: Slice, context: seq<StackItem>): StackItem
    requires Register(reg)
  {
    match reg
    case 0 => ContItem(WithType(Quit(0)))
    case 1 => ContItem(WithType(Quit(1)))
    case 2 => ContItem(WithType(ExcQuit))
    case 3 => ContItem(WithCode(code))
    case 7 => Tuple(context)
    case _ => CellItem(Cell([], []))
  }

  /** A machine starts on its code and stack; its registers are those it is given, or the initial ones. */
  lemma SetupShows(code: Slice, stack: seq<StackItem>, context: seq<StackItem>, ctrls: SaveList, reg: nat)
    requires Register(reg)
    ensures
      var core := Setup(code, stack, context, ctrls);
      var given := At(ctrls, if reg == 7 then 6 else reg);
      && core.cc == Callee(code, stack)
      && Shown(core, reg) == if given.Saved? then given.item else InitialRegister(reg, code, context)
  {}

  /** Without a c0 and a c2 of its own the machine is fresh. */
  lemma SetupIsFresh(code: Slice, stack: seq<StackItem>, context: seq<StackItem>, ctrls: SaveList)
    requires At(ctrls, 0).Unset? && At(ctrls, 2).Unset?
    ensures ProgramRuns.Fresh(Setup(code, stack, context, ctrls).ctrls)
  {}

  /** From such a setup a structured program runs to its meaning. */
  lemma SetupRunsToMeaning(isa: Isa, p: Prog, code: Slice, stack: seq<StackItem>, context: seq<StackItem>,
      ctrls: SaveList, fuel: nat)
    returns (n: nat)
    requires At(ctrls, 0).Unset? && At(ctrls, 2).Unset? && Whole(isa, p, code)
    ensures Delivers(Meaning(isa, p, stack, -1, fuel), Run(isa, Setup(code, stack, context, ctrls), n))
    ensures Meaning(isa, p, stack, -1, fuel).Unfinished? ==> n >= fuel
  {
    hide Run, Meaning, Whole;
    SetupIsFresh(code, stack, context, ctrls);
    n := ProgramRunsToMeaning(isa, p, code, stack, Setup(code, stack, context, ctrls).ctrls, fuel);
  }

  /** `setup`: register by register, then the ones that are given. */
  method StartEngine(code: Slice, stack: seq<StackItem>, context: seq<StackItem>, ctrls: SaveList, gas: Gas)
    returns (e: Engine)
    ensures fresh(e) && fresh(e.cstate) && e.gas == gas
    ensures e.State() == Setup(code, stack, context, ctrls) && e.vars == [] && e.pargs == None
    ensures e.cstate.State() == Committed.Empty
  {
    var registers := EMPTY_SAVELIST;
    registers := registers[0 := SavedCont(WithType(Quit(0)))];
    registers := registers[1 := SavedCont(WithType(Quit(1)))];
    registers := registers[2 := SavedCont(WithType(ExcQuit))];
    registers := registers[3 := SavedCont(WithCode(code))];
    registers := registers[4 := Saved(CellItem(Cell([], [])))];
    registers := registers[5 := Saved(CellItem(Cell([], [])))];
    registers := registers[Adjust(7) := Saved(Tuple(context))];
    e := new Engine(WithCode(code).(stack := stack), Apply(registers, ctrls), gas);
  }

  /**
   * A program set up and run on the engine always ends. Unless gas runs out it ends with its meaning,
   * and if it ends well, with the data and actions of its last state committed.
   */
  method SetupAndRun(code: Slice, stack: seq<StackItem>, context: seq<StackItem>, gas: Gas, isa: Isa, tariff: Tariff,
      ghost p: Prog)
    returns (e: Engine, o: Driver.Round, ghost n: nat)
    requires Whole(isa, p, code) && TypedStack(stack) && TypedStack(context) && KeepsTypes(isa) && gas.remaining >= 0
    modifies gas
    ensures fresh(e) && fresh(e.cstate) && e.gas == gas && !o.Continue?
    ensures !o.NoFuel? ==> Delivers(Meaning(isa, p, stack, -1, n), EngineRuns.EndOf(e, o))
    ensures o.Exit? ==> RecordsCells(e.ctrls, e.cstate.State())
    ensures !o.Exit? ==>
      e.cstate.State() == CommitsIn(isa, Setup(code, stack, context, EMPTY_SAVELIST), n, Committed.Empty)
  {
    hide Meaning, Whole, Sound, KeepsTypes, TypedStack, Setup, RecordsCells, CommitsIn;
    e := StartEngine(code, stack, context, EMPTY_SAVELIST, gas);
    EmptyTyped();
    SetupSound(code, stack, context, EMPTY_SAVELIST);
    SetupIsFresh(code, stack, context, EMPTY_SAVELIST);
    SetupShows(code, stack, context, EMPTY_SAVELIST, 0);
    o, n := EngineRuns.RunProgram(e, isa, tariff, p);
  }
}
