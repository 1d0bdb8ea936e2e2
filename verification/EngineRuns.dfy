/** Structured programs on the engine itself. */
module EngineRuns {
  import opened Machine
  import opened Structured
  import opened Simulation
  import opened Metering
  import opened Typing
  import opened Commits
  import opened ProgramRuns
  import opened Storage
  import Driver

  /** How a finished run of the engine reads as the end of a run of the machine. */
  ghost function EndOf(e: Engine, o: Driver.Round): Outcome
    requires o.Exit? || o.Fault?
    reads e
  {
    if o.Exit? then Halted(e.State(), o.code) else Failed(e.State(), o.code)
  }

  /**
   * The engine's main loop, started on a structured program with fresh registers, always ends; and
   * unless gas runs out it ends with what the program means: the final stack, the uncaught
   * exception or the failure.
   */
  method RunProgram(e: Engine, isa: Isa, tariff: Tariff, ghost p: Prog) returns (o: Driver.Round, ghost n: nat)
    requires e.cc == Callee(e.cc.code, e.cc.stack) && Fresh(e.ctrls) && Whole(isa, p, e.cc.code)
    requires Sound(e.State()) && KeepsTypes(isa) && e.gas.remaining >= 0
    modifies e, e.gas, e.cstate
    ensures !o.Continue?
    ensures !o.NoFuel? ==> Delivers(Meaning(isa, p, old(e.cc.stack), -1, n), EndOf(e, o))
    ensures o.Exit? ==> RecordsCells(e.ctrls, e.cstate.State())
    ensures !o.Exit? ==> e.cstate.State() == CommitsIn(isa, old(e.State()), n, old(e.cstate.State()))
  {
    hide Meaning, Whole, Sound, KeepsTypes, VmRun, RecordsCells, CommitsIn;
    ghost var core, gas := e.State(), e.gas.State();
    o, n := Driver.Execute(e, isa, tariff);
    if VmRun(isa, tariff, Vm(core, gas, 0), n).Over? {
      EndedRunDelivers(isa, tariff, p, core.cc.code, core.cc.stack, core.ctrls, gas, n);
    }
  }
}
