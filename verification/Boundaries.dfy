/**
 * What holds between instructions in every run: nothing is saved in the current continuation and
 * it expects either any number of further arguments or none.
 */
module Boundaries {
  import opened Outcomes
  import opened Values
  import opened Machine
  import opened Typing

  predicate AtBoundary(core: Core) {
    core.cc.savelist == EMPTY_SAVELIST && (core.cc.nargs == -1 || core.cc.nargs == 0)
  }

  predicate DoneAtBoundary(e: Exec) {
    e.Done? ==> AtBoundary(e.core)
  }

  /** A continuation that has been passed its arguments expects any number more, or none. */
  lemma PassFulfils(cc: Continuation, k: Continuation)
    requires k.nargs >= -1 && PassStack(cc, k, None).Moved?
    ensures PassStack(cc, k, None).peer.nargs == -1 || PassStack(cc, k, None).peer.nargs == 0
  {}

  lemma JumpAtBoundary(core: Core, k: Continuation)
    requires k.nargs >= -1
    ensures DoneAtBoundary(Jump(core, k))
  {
    hide PassStack;
    if PassStack(core.cc, k, None).Moved? {
      PassFulfils(core.cc, k);
    }
  }

  lemma ReturnAtBoundary(core: Core)
    requires Sound(core)
    ensures DoneAtBoundary(Return(core)) && DoneAtBoundary(ReturnAlt(core))
  {
    hide PassStack, TypedItem;
    forall i: nat |
      i < 2 && HoldsCont(At(core.ctrls, i)) && PassStack(core.cc, At(core.ctrls, i).item.cont, None).Moved?
      ensures AtBoundary(Enter(PassStack(core.cc, At(core.ctrls, i).item.cont, None).peer, []))
    {
      RegisterTyped(core.ctrls, i);
      PassFulfils(core.cc, At(core.ctrls, i).item.cont);
    }
  }

  lemma CallAtBoundary(core: Core, k: Continuation)
    requires k.nargs >= -1
    ensures DoneAtBoundary(Call(core, k))
  {
    hide PassStack;
    if PassStack(core.cc, k, None).Moved? {
      PassFulfils(core.cc, k);
    }
  }

  lemma TopNargs(core: Core, i: nat)
    requires Sound(core) && i < |core.cc.stack| && Top(core, i).ContItem?
    ensures Top(core, i).cont.nargs >= -1
  {
    TopCont(core, i);
  }

  lemma TryAtBoundary(core: Core, keep: bool)
    requires Sound(core)
    ensures DoneAtBoundary(ExecTry(core, keep))
  {
    hide Call;
    if |core.cc.stack| >= 2 && Top(core, 1).ContItem? && Top(core, 0).ContItem? {
      TopNargs(core, 1);
      var popped, body, handler, prior := Pop(core, 2), Top(core, 1).cont, Top(core, 0).cont, At(core.ctrls, 2);
      var h := handler.(typ := TryCatch, savelist := SaveHandler(handler.savelist, prior));
      var caller := popped.cc.(savelist := SaveHandler(popped.cc.savelist, prior));
      CallAtBoundary(Core(caller, Set(core.ctrls, 2, SavedCont(h))), body.(savelist := Set(body.savelist, 0, Unset)));
    }
  }

  lemma StartLoopAtBoundary(core: Core, first: Continuation, typ: ContType)
    requires first.nargs >= -1
    ensures DoneAtBoundary(StartLoop(core, first, typ))
  {
    hide Jump;
    var loop := LoopCont(typ, AfterLoop(core));
    JumpAtBoundary(Detached(core), first.(savelist := Set(first.savelist, 0, SavedCont(loop))));
  }

  lemma LoopsAtBoundary(core: Core)
    requires Sound(core) && AtBoundary(core)
    ensures DoneAtBoundary(ExecRepeat(core)) && DoneAtBoundary(ExecWhile(core))
    ensures DoneAtBoundary(ExecUntil(core)) && DoneAtBoundary(ExecAgain(core))
    ensures DoneAtBoundary(ExecCallX(core)) && DoneAtBoundary(ExecJmpX(core))
  {
    hide StartLoop, Call, Jump;
    if |core.cc.stack| >= 1 && Top(core, 0).ContItem? {
      var one, k := Pop(core, 1), Top(core, 0).cont;
      TopNargs(core, 0);
      StartLoopAtBoundary(one, k, UntilLoopCondition(k.code));
      StartLoopAtBoundary(one, k, AgainLoopBody(k.code));
      CallAtBoundary(one, k);
      JumpAtBoundary(one, k.(savelist := Set(Set(k.savelist, 0, Unset), 1, Unset)));
      if |core.cc.stack| >= 2 {
        var two, x := Pop(core, 2), Top(core, 1);
        if x.ContItem? {
          TopNargs(core, 1);
          StartLoopAtBoundary(two, x.cont, WhileLoopCondition(k.code, x.cont.code));
        } else if x.Integer? && x.data.Value? {
          StartLoopAtBoundary(two, k, RepeatLoopBody(k.code, x.data.v));
        }
      }
    }
  }

  lemma ExecuteAtBoundary(isa: Isa, core: Core, instr: Instr)
    requires Sound(core) && AtBoundary(core)
    ensures DoneAtBoundary(Execute(isa, core, instr))
  {
    hide ExecTry, ExecRepeat, ExecWhile, ExecUntil, ExecAgain, ExecCallX, ExecJmpX, Return, ReturnAlt;
    TryAtBoundary(core, false);
    TryAtBoundary(core, true);
    LoopsAtBoundary(core);
    ReturnAtBoundary(core);
  }

  lemma SpecialAtBoundary(core: Core)
    requires Sound(core) && AtBoundary(core)
    ensures DoneAtBoundary(StepSpecial(core))
  {
    hide Return, TypedItem, TypedCont;
    match core.cc.typ
    case PushInt(n) =>
      IntegerTyped(n);
      PushTyped(core, Integer(Value(n)));
      ReturnAtBoundary(Push(core, Integer(Value(n))));
    case TryCatch =>
      SetTyped(core.ctrls, 2, Unset);
      ReturnAtBoundary(core.(ctrls := Set(core.ctrls, 2, Unset)));
    case CatchRevert(depth) => RevertAtBoundary(core, depth);
    case RepeatLoopBody(_, _) => ReturnAtBoundary(core);
    case _ =>
      if |core.cc.stack| >= 1 {
        PopTyped(core, 1);
        ReturnAtBoundary(Pop(core, 1));
      }
  }

  lemma RevertAtBoundary(core: Core, depth: nat)
    requires Sound(core)
    ensures DoneAtBoundary(StepCatchRevert(core, depth))
  {
    hide Return, TypedItem;
    if |core.cc.stack| >= 2 && |core.cc.stack| - 2 >= depth {
      var below := Pop(core, 2);
      PopTyped(core, 2);
      TopTyped(core, 0);
      TopTyped(core, 1);
      var cut := core.(cc := core.cc.(stack := below.cc.stack[..depth] + [Top(core, 1), Top(core, 0)]));
      PartsTyped(cut.cc);
      ReturnAtBoundary(cut);
    }
  }

  lemma RaiseAtBoundary(core: Core, value: StackItem, code: int)
    requires Sound(core)
    ensures Raise(core, value, code).Next? ==> AtBoundary(Raise(core, value, code).core)
  {
    hide Jump;
    var c2 := At(core.ctrls, 2);
    var bare := core.(ctrls := Set(core.ctrls, 2, Unset));
    JumpAtBoundary(Push(bare, value), WithType(Quit(code)).(nargs := 1));
    if HoldsCont(c2) {
      RegisterTyped(core.ctrls, 2);
      var target := if c2.item.cont.typ.CatchRevert? then c2.item.cont else c2.item.cont.(nargs := 2);
      JumpAtBoundary(Push(Push(bare, value), Integer(Value(code))), target);
    }
  }

  lemma SettleAtBoundary(e: Exec)
    requires SoundExec(e) && DoneAtBoundary(e)
    ensures Settle(e).Next? ==> AtBoundary(Settle(e).core)
  {
    hide Raise;
    if e.Threw? {
      RaiseAtBoundary(e.core, e.value, e.code);
    }
  }

  /** One step leads from boundary to boundary. */
  lemma StepAtBoundary(isa: Isa, core: Core)
    requires Sound(core) && AtBoundary(core) && KeepsTypes(isa)
    ensures Step(isa, core).Next? ==> AtBoundary(Step(isa, core).core)
  {
    hide TypedItem, TypedCont, KeepsTypes, Settle, Execute, StepSpecial, Return, External;
    if !OutOfBits(core.cc.code) {
      if isa.fetch(core.cc.code).Fetched? {
        var instr, rest := isa.fetch(core.cc.code).instr, isa.fetch(core.cc.code).rest;
        CodeTyped(core, rest);
        ExecuteTyped(isa, core.(cc := core.cc.(code := rest)), instr);
        ExecuteAtBoundary(isa, core.(cc := core.cc.(code := rest)), instr);
      } else {
        FailTyped(core, InvalidOpcode);
      }
      SettleAtBoundary(StepInstr(isa, core));
    } else if !Exhausted(core.cc.code) {
      FailTyped(core, CellUnderflow);
      if isa.load(core.cc.code).Some? {
        CodeTyped(core, isa.load(core.cc.code).value);
      }
      SettleAtBoundary(StepJmpRef(isa, core));
    } else if core.cc.typ.Ordinary? {
      ReturnTyped(core);
      ReturnAtBoundary(core);
      SettleAtBoundary(Return(core));
    } else if core.cc.typ.ExcQuit? {
      ExternalEnds(core);
    } else if !core.cc.typ.Quit? {
      SpecialTyped(core);
      SpecialAtBoundary(core);
      SettleAtBoundary(StepSpecial(core));
    }
  }

  lemma ExternalEnds(core: Core)
    ensures !External(core).Next?
  {}

  /** Every state of every run from a setup is sound and at a boundary. */
  lemma {:induction false} RunAtBoundary(isa: Isa, core: Core, n: nat)
    requires Sound(core) && AtBoundary(core) && KeepsTypes(isa)
    ensures Sound(Run(isa, core, n).core)
    ensures Run(isa, core, n).Next? ==> AtBoundary(Run(isa, core, n).core)
    decreases n
  {
    hide KeepsTypes, Sound, Step;
    if n > 0 {
      StepTyped(isa, core);
      StepAtBoundary(isa, core);
      if Step(isa, core).Next? {
        RunAtBoundary(isa, Step(isa, core).core, n - 1);
      }
    }
  }
}
