/**
 * Register typing over whole runs: every control register and every savelist, at any depth,
 * holds only values its index admits, and c3, c4, c5 and c7 are never lost.
 */
module Typing {
  import opened Outcomes
  import opened Cells
  import opened Values
  import opened Machine

  // ----- well-typed values -----

  ghost predicate TypedItem(x: StackItem)
    decreases x
  {
    match x
    case Tuple(items) => forall i :: 0 <= i < |items| ==> TypedItem(items[i])
    case ContItem(k) => TypedCont(k)
    case _ => true
  }

  ghost predicate TypedSlot(s: Slot)
    decreases s
  {
    s.Saved? ==> TypedItem(s.item)
  }

  ghost predicate TypedCont(k: Continuation)
    decreases k
  {
    && k.nargs >= -1
    && TypedSaveList(k.savelist)
    && (forall i :: 0 <= i < |k.savelist| ==> TypedSlot(k.savelist[i]))
    && (forall i :: 0 <= i < |k.stack| ==> TypedItem(k.stack[i]))
  }

  ghost predicate TypedStack(stack: seq<StackItem>) {
    forall i :: 0 <= i < |stack| ==> TypedItem(stack[i])
  }

  ghost predicate TypedRegisters(s: SaveList) {
    TypedSaveList(s) && forall i :: 0 <= i < |s| ==> TypedSlot(s[i])
  }

  /** c3 (code), c4 (data), c5 (actions) and c7 (context) are set. */
  predicate Equipped(s: SaveList) {
    |s| == NUMREGS && s[3].Saved? && s[4].Saved? && s[5].Saved? && s[6].Saved?
  }

  ghost predicate Sound(core: Core) {
    TypedCont(core.cc) && TypedRegisters(core.ctrls) && Equipped(core.ctrls)
  }

  ghost predicate SoundExec(e: Exec) {
    Sound(e.core) && (e.Threw? ==> TypedItem(e.value))
  }

  /** The abstract operations build stacks out of well-typed values only. */
  ghost predicate KeepsTypes(isa: Isa) {
    forall id: nat, s: seq<StackItem> :: TypedStack(s) ==>
      var r := isa.apply(id, s);
      TypedStack(r.stack) && (r.Raised? ==> TypedItem(r.value))
  }

  // ----- registers -----

  /** A slot may hold this at the given position. */
  ghost predicate Admits(i: nat, slot: Slot) {
    slot.Saved? ==> CanPut(RegisterAt(i), slot.item) && TypedItem(slot.item)
  }

  lemma EmptyTyped()
    ensures TypedRegisters(EMPTY_SAVELIST)
  {}

  lemma SetTyped(s: SaveList, i: nat, slot: Slot)
    requires TypedRegisters(s) && i < NUMREGS && Admits(i, slot)
    ensures TypedRegisters(Set(s, i, slot))
    ensures Equipped(s) && (i < 3 || slot.Saved?) ==> Equipped(Set(s, i, slot))
  {}

  lemma ApplyTyped(ctrls: SaveList, saves: SaveList)
    requires TypedRegisters(ctrls) && TypedRegisters(saves)
    ensures TypedRegisters(Apply(ctrls, saves))
    ensures Equipped(ctrls) ==> Equipped(Apply(ctrls, saves))
  {}

  lemma SlotTyped(s: SaveList, i: nat)
    requires TypedRegisters(s)
    ensures Admits(i, At(s, i))
  {}

  lemma ContSlot(k: Continuation, i: nat)
    requires TypedCont(k)
    ensures i < 4 && i != 2 ==> Admits(i, SavedCont(k))
    ensures i == 2 ==> Admits(i, SavedCont(k))
  {}

  /** A continuation is well typed when its parts are. */
  lemma PartsTyped(k: Continuation)
    requires k.nargs >= -1 && TypedRegisters(k.savelist) && TypedStack(k.stack)
    ensures TypedCont(k)
  {}

  lemma TypedParts(k: Continuation)
    requires TypedCont(k)
    ensures k.nargs >= -1 && TypedRegisters(k.savelist) && TypedStack(k.stack)
  {}

  lemma RegisterTyped(s: SaveList, i: nat)
    requires TypedRegisters(s) && HoldsCont(At(s, i))
    ensures TypedCont(At(s, i).item.cont)
  {
    SlotTyped(s, i);
  }

  // ----- stacks -----

  lemma PopTyped(core: Core, n: nat)
    requires Sound(core) && n <= |core.cc.stack|
    ensures Sound(Pop(core, n))
  {}

  lemma PushTyped(core: Core, x: StackItem)
    requires Sound(core) && TypedItem(x)
    ensures Sound(Push(core, x))
  {}

  lemma TopTyped(core: Core, i: nat)
    requires Sound(core) && i < |core.cc.stack|
    ensures TypedItem(Top(core, i))
  {}

  lemma TopCont(core: Core, i: nat)
    requires Sound(core) && i < |core.cc.stack| && Top(core, i).ContItem?
    ensures TypedCont(Top(core, i).cont)
  {
    TopTyped(core, i);
  }

  lemma CodeTyped(core: Core, code: Slice)
    requires Sound(core)
    ensures Sound(core.(cc := core.cc.(code := code)))
  {}

  lemma FailTyped(core: Core, e: ExceptionCode)
    requires Sound(core)
    ensures SoundExec(Fail(core, e))
  {}

  /** Passing stack slots keeps both sides well typed and touches nothing but stack and nargs. */
  lemma PassTyped(cc: Continuation, k: Continuation, pargs: Option<nat>)
    requires TypedCont(cc) && TypedCont(k)
    ensures
      var t := PassStack(cc, k, pargs);
      && TypedCont(t.peer) && t.peer.savelist == k.savelist
      && (t.Moved? ==> TypedCont(t.cc) && t.cc.savelist == cc.savelist)
  {
    hide TypedCont, PassTop;
    if k.nargs < 0 {
      PassTopTyped(cc, k, if pargs.Some? then pargs.value else |cc.stack|);
    } else {
      PassTopTyped(cc, k, if pargs.Some? then pargs.value else k.nargs);
    }
  }

  lemma PassTopTyped(cc: Continuation, k: Continuation, n: nat)
    requires TypedCont(cc) && TypedCont(k)
    ensures
      var t := PassTop(cc, k, n);
      && TypedCont(t.peer) && t.peer.savelist == k.savelist
      && (t.Moved? ==> TypedCont(t.cc) && t.cc.savelist == cc.savelist)
  {
    hide TypedCont, TypedItem, TypedRegisters;
    TypedParts(cc);
    TypedParts(k);
    var t := PassTop(cc, k, n);
    PartsTyped(t.peer);
    if t.Moved? {
      PartsTyped(t.cc);
    }
  }

  // ----- jumps, returns, calls -----

  lemma EnterTyped(k: Continuation, ctrls: SaveList)
    requires TypedCont(k) && TypedRegisters(ctrls) && Equipped(ctrls)
    ensures Sound(Enter(k, ctrls))
  {
    hide TypedItem;
    ApplyTyped(ctrls, k.savelist);
    EmptyTyped();
    PartsTyped(Enter(k, ctrls).cc);
  }

  lemma JumpTyped(core: Core, k: Continuation)
    requires Sound(core) && TypedCont(k)
    ensures SoundExec(Jump(core, k))
  {
    hide TypedItem, TypedCont, PassStack, Enter;
    PassTyped(core.cc, k, None);
    var t := PassStack(core.cc, k, None);
    if t.Moved? {
      EnterTyped(t.peer, core.ctrls);
    } else {
      FailTyped(core, t.code);
    }
  }

  lemma ReturnTyped(core: Core)
    requires Sound(core)
    ensures SoundExec(Return(core))
  {
    hide TypedItem, TypedCont, PassStack, Enter;
    if !HoldsCont(At(core.ctrls, 0)) {
      FailTyped(core, TypeCheckError);
      return;
    }
    var k := At(core.ctrls, 0).item.cont;
    RegisterTyped(core.ctrls, 0);
    PassTyped(core.cc, k, None);
    var t := PassStack(core.cc, k, None);
    if t.Moved? {
      SetTyped(core.ctrls, 0, Unset);
      EnterTyped(t.peer, Set(core.ctrls, 0, Unset));
    } else {
      ContSlot(t.peer, 0);
      SetTyped(core.ctrls, 0, SavedCont(t.peer));
      FailTyped(core.(ctrls := Set(core.ctrls, 0, SavedCont(t.peer))), t.code);
    }
  }

  lemma TypeOnlyTyped(typ: ContType)
    ensures TypedCont(WithType(typ))
  {}

  lemma ReturnAltTyped(core: Core)
    requires Sound(core)
    ensures SoundExec(ReturnAlt(core))
  {
    hide TypedItem, TypedCont, PassStack, Enter;
    if !HoldsCont(At(core.ctrls, 1)) {
      FailTyped(core, TypeCheckError);
      return;
    }
    var k := At(core.ctrls, 1).item.cont;
    RegisterTyped(core.ctrls, 1);
    PassTyped(core.cc, k, None);
    var t := PassStack(core.cc, k, None);
    var quit := WithType(Quit(1));
    TypeOnlyTyped(Quit(1));
    if t.Moved? {
      ContSlot(quit, 1);
      SetTyped(core.ctrls, 1, SavedCont(quit));
      EnterTyped(t.peer, Set(core.ctrls, 1, SavedCont(quit)));
    } else {
      ContSlot(t.peer, 1);
      SetTyped(core.ctrls, 1, SavedCont(t.peer));
      FailTyped(core.(ctrls := Set(core.ctrls, 1, SavedCont(t.peer))), t.code);
    }
  }

  /** A continuation stays well typed when an admissible value is saved in it. */
  lemma SavedTyped(k: Continuation, i: nat, slot: Slot)
    requires TypedCont(k) && i < NUMREGS && Admits(i, slot)
    ensures TypedCont(k.(savelist := Set(k.savelist, i, slot)))
  {}

  lemma UnboundTyped(core: Core)
    requires Sound(core)
    ensures SoundExec(Unbound(core))
  {
    hide TypedItem;
    if HoldsCont(At(core.ctrls, 0)) {
      RegisterTyped(core.ctrls, 0);
      var k := At(core.ctrls, 0).item.cont.(nargs := -1);
      PartsTyped(k);
      ContSlot(k, 0);
      SetTyped(core.ctrls, 0, SavedCont(k));
    } else {
      FailTyped(core, TypeCheckError);
    }
  }

  lemma CallTyped(core: Core, k: Continuation)
    requires Sound(core) && TypedCont(k)
    ensures SoundExec(Call(core, k))
  {
    hide TypedItem, TypedCont, PassStack, Enter, Unbound;
    PassTyped(core.cc, k, None);
    var t := PassStack(core.cc, k, None);
    if t.Refused? {
      FailTyped(core, t.code);
    } else if At(t.peer.savelist, 0).Saved? {
      EnterTyped(t.peer, core.ctrls);
      UnboundTyped(Enter(t.peer, core.ctrls));
    } else {
      var caller := t.cc.(savelist := Set(t.cc.savelist, 0, At(core.ctrls, 0)));
      SlotTyped(core.ctrls, 0);
      SavedTyped(t.cc, 0, At(core.ctrls, 0));
      ContSlot(caller, 0);
      SetTyped(core.ctrls, 0, SavedCont(caller));
      EnterTyped(t.peer, Set(core.ctrls, 0, SavedCont(caller)));
      UnboundTyped(Enter(t.peer, Set(core.ctrls, 0, SavedCont(caller))));
    }
  }

  // ----- TRY and loops -----

  lemma HandlerTyped(s: SaveList, h: Slot)
    requires TypedRegisters(s) && Admits(2, h)
    ensures TypedRegisters(SaveHandler(s, h))
  {}

  lemma EnvelopeTyped(k: Continuation, depth: nat)
    requires TypedCont(k)
    ensures TypedCont(Envelope(k, depth))
  {}

  /** The end of TRY: the handler in c2 gets the caller saved in it, and its envelope. */
  lemma TryFinishTyped(entered: Core, keep: bool, depth: nat)
    requires Sound(entered) && HoldsCont(At(entered.ctrls, 2))
    ensures
      var current := At(entered.ctrls, 2).item.cont;
      var k := current.(savelist := Set(current.savelist, 0, At(entered.ctrls, 0)));
      Sound(entered.(ctrls := Set(entered.ctrls, 2, SavedCont(if keep then Envelope(k, depth) else k))))
  {
    hide TypedItem, TypedCont, Envelope;
    RegisterTyped(entered.ctrls, 2);
    SlotTyped(entered.ctrls, 0);
    var current := At(entered.ctrls, 2).item.cont;
    SavedTyped(current, 0, At(entered.ctrls, 0));
    var k := current.(savelist := Set(current.savelist, 0, At(entered.ctrls, 0)));
    EnvelopeTyped(k, depth);
    ContSlot(k, 2);
    ContSlot(Envelope(k, depth), 2);
    SetTyped(entered.ctrls, 2, SavedCont(if keep then Envelope(k, depth) else k));
  }

  /** The state in which TRY calls its block. */
  lemma TryStartTyped(core: Core)
    requires Sound(core) && |core.cc.stack| >= 2 && Top(core, 1).ContItem? && Top(core, 0).ContItem?
    ensures
      var popped, body, handler, prior := Pop(core, 2), Top(core, 1).cont, Top(core, 0).cont, At(core.ctrls, 2);
      var h := handler.(typ := TryCatch, savelist := SaveHandler(handler.savelist, prior));
      var caller := popped.cc.(savelist := SaveHandler(popped.cc.savelist, prior));
      && TypedCont(body.(savelist := Set(body.savelist, 0, Unset)))
      && Sound(Core(caller, Set(core.ctrls, 2, SavedCont(h))))
  {
    hide TypedItem;
    var popped, body, handler, prior := Pop(core, 2), Top(core, 1).cont, Top(core, 0).cont, At(core.ctrls, 2);
    PopTyped(core, 2);
    TopCont(core, 0);
    TopCont(core, 1);
    SlotTyped(core.ctrls, 2);
    SavedTyped(body, 0, Unset);
    var h := handler.(typ := TryCatch, savelist := SaveHandler(handler.savelist, prior));
    HandlerTyped(handler.savelist, prior);
    PartsTyped(h);
    HandlerTyped(popped.cc.savelist, prior);
    PartsTyped(popped.cc.(savelist := SaveHandler(popped.cc.savelist, prior)));
    ContSlot(h, 2);
    SetTyped(core.ctrls, 2, SavedCont(h));
  }

  lemma TryTyped(core: Core, keep: bool)
    requires Sound(core)
    ensures SoundExec(ExecTry(core, keep))
  {
    hide TypedItem, TypedCont, Call, Envelope, SaveHandler;
    if |core.cc.stack| < 2 {
      FailTyped(core, StackUnderflow);
      return;
    }
    var popped := Pop(core, 2);
    PopTyped(core, 2);
    if !Top(core, 1).ContItem? || !Top(core, 0).ContItem? {
      FailTyped(popped, TypeCheckError);
      return;
    }
    var body, handler, prior := Top(core, 1).cont, Top(core, 0).cont, At(core.ctrls, 2);
    var h := handler.(typ := TryCatch, savelist := SaveHandler(handler.savelist, prior));
    var caller := popped.cc.(savelist := SaveHandler(popped.cc.savelist, prior));
    var guarded := Core(caller, Set(core.ctrls, 2, SavedCont(h)));
    var c := body.(savelist := Set(body.savelist, 0, Unset));
    TryStartTyped(core);
    CallTyped(guarded, c);
    var e := Call(guarded, c);
    if e.Done? {
      if HoldsCont(At(e.core.ctrls, 2)) {
        TryFinishTyped(e.core, keep, |popped.cc.stack|);
      } else {
        FailTyped(e.core, TypeCheckError);
      }
    }
  }

  lemma LoopContTyped(typ: ContType, after: Continuation)
    requires TypedCont(after)
    ensures TypedCont(LoopCont(typ, after))
  {}

  lemma StartLoopTyped(core: Core, first: Continuation, typ: ContType)
    requires Sound(core) && TypedCont(first)
    ensures SoundExec(StartLoop(core, first, typ))
  {
    hide TypedItem, Jump, LoopCont;
    SlotTyped(core.ctrls, 0);
    SavedTyped(core.cc, 0, At(core.ctrls, 0));
    SetTyped(core.ctrls, 0, Unset);
    var after := AfterLoop(core);
    TypedParts(core.cc.(savelist := after.savelist));
    PartsTyped(after);
    LoopContTyped(typ, after);
    ContSlot(LoopCont(typ, after), 0);
    SavedTyped(first, 0, SavedCont(LoopCont(typ, after)));
    JumpTyped(Detached(core), first.(savelist := Set(first.savelist, 0, SavedCont(LoopCont(typ, after)))));
  }

  lemma RepeatTyped(core: Core)
    requires Sound(core)
    ensures SoundExec(ExecRepeat(core))
  {
    hide TypedItem, TypedCont, StartLoop;
    if |core.cc.stack| < 2 {
      FailTyped(core, StackUnderflow);
      return;
    }
    var popped, body, count := Pop(core, 2), Top(core, 0), Top(core, 1);
    PopTyped(core, 2);
    if !body.ContItem? || !count.Integer? {
      FailTyped(popped, TypeCheckError);
    } else if count.data.NaN? || !(-0x80000000 <= count.data.v <= 0x7FFFFFFF) {
      FailTyped(popped, RangeCheckError);
    } else if count.data.v > 0 {
      TopCont(core, 0);
      StartLoopTyped(popped, body.cont, RepeatLoopBody(body.cont.code, count.data.v));
    }
  }

  lemma WhileTyped(core: Core)
    requires Sound(core)
    ensures SoundExec(ExecWhile(core))
  {
    hide TypedItem, TypedCont, StartLoop;
    if |core.cc.stack| < 2 {
      FailTyped(core, StackUnderflow);
      return;
    }
    var popped, body, cond := Pop(core, 2), Top(core, 0), Top(core, 1);
    PopTyped(core, 2);
    if !body.ContItem? || !cond.ContItem? {
      FailTyped(popped, TypeCheckError);
    } else {
      TopCont(core, 1);
      StartLoopTyped(popped, cond.cont, WhileLoopCondition(body.cont.code, cond.cont.code));
    }
  }

  /** UNTIL, AGAIN, CALLX and JMPX take one continuation off the stack. */
  lemma OneBlockTyped(core: Core)
    requires Sound(core)
    ensures SoundExec(ExecUntil(core)) && SoundExec(ExecAgain(core))
    ensures SoundExec(ExecCallX(core)) && SoundExec(ExecJmpX(core))
  {
    hide TypedItem, TypedCont, StartLoop, Call, Jump;
    if |core.cc.stack| < 1 {
      FailTyped(core, StackUnderflow);
      return;
    }
    var popped, k := Pop(core, 1), Top(core, 0);
    PopTyped(core, 1);
    if !k.ContItem? {
      FailTyped(popped, TypeCheckError);
      return;
    }
    TopCont(core, 0);
    StartLoopTyped(popped, k.cont, UntilLoopCondition(k.cont.code));
    StartLoopTyped(popped, k.cont, AgainLoopBody(k.cont.code));
    CallTyped(popped, k.cont);
    SavedTyped(k.cont, 0, Unset);
    var k1 := k.cont.(savelist := Set(k.cont.savelist, 0, Unset));
    SavedTyped(k1, 1, Unset);
    JumpTyped(popped, k1.(savelist := Set(k1.savelist, 1, Unset)));
  }

  // ----- register instructions -----

  lemma PushCtrTyped(core: Core, reg: nat)
    requires Sound(core)
    ensures SoundExec(ExecPushCtr(core, reg))
  {}

  /** POPCTR refuses exactly the values the register does not admit, and writes c2 never from null to unset. */
  lemma PopCtrTyped(core: Core, reg: nat)
    requires Sound(core)
    ensures SoundExec(ExecPopCtr(core, reg))
  {
    hide TypedItem, TypedCont;
    if !IsRegister(reg) {
      FailTyped(core, RangeCheckError);
      return;
    } else if |core.cc.stack| < 1 {
      FailTyped(core, StackUnderflow);
      return;
    }
    var x, popped := Top(core, 0), Pop(core, 1);
    PopTyped(core, 1);
    TopTyped(core, 0);
    if CanPut(reg, x) {
      SetTyped(core.ctrls, Adjust(reg), Saved(x));
    } else {
      FailTyped(popped, TypeCheckError);
    }
  }

  lemma SetContCtrTyped(core: Core, reg: nat)
    requires Sound(core)
    ensures SoundExec(ExecSetContCtr(core, reg))
  {
    hide TypedCont;
    if !IsRegister(reg) {
      FailTyped(core, RangeCheckError);
      return;
    } else if |core.cc.stack| < 2 {
      FailTyped(core, StackUnderflow);
      return;
    }
    var k, x, popped := Top(core, 0), Top(core, 1), Pop(core, 2);
    PopTyped(core, 2);
    TopTyped(core, 0);
    TopTyped(core, 1);
    if !k.ContItem? {
      FailTyped(popped, TypeCheckError);
    } else if At(k.cont.savelist, Adjust(reg)).Unset? && x.Null? {
      PushTyped(popped, k);
    } else if !CanPut(reg, x) {
      FailTyped(popped, TypeCheckError);
    } else {
      var k1 := k.cont.(savelist := Set(k.cont.savelist, Adjust(reg), Saved(x)));
      SavedTyped(k.cont, Adjust(reg), Saved(x));
      PushTyped(popped, ContItem(k1));
    }
  }

  lemma SetGasLimitTyped(core: Core)
    requires Sound(core)
    ensures SoundExec(ExecSetGasLimit(core))
  {}

  lemma OpTyped(isa: Isa, core: Core, id: nat)
    requires Sound(core) && KeepsTypes(isa)
    ensures SoundExec(Execute(isa, core, Op(id)))
  {}

  lemma PushContTyped(core: Core, body: Slice)
    requires Sound(core)
    ensures Sound(Push(core, ContItem(WithCode(body))))
  {
    EmptyTyped();
    PartsTyped(WithCode(body));
    PushTyped(core, ContItem(WithCode(body)));
  }

  lemma ExecuteTyped(isa: Isa, core: Core, instr: Instr)
    requires Sound(core) && KeepsTypes(isa)
    ensures SoundExec(Execute(isa, core, instr))
  {
    hide TypedItem, TypedCont, KeepsTypes, ExecTry, ExecRepeat, ExecWhile, ExecUntil, ExecAgain, ExecCallX, ExecJmpX,
      Return, ReturnAlt, ExecPushCtr, ExecPopCtr, ExecSetContCtr, ExecSetGasLimit;
    match instr
    case Op(id) => OpTyped(isa, core, id);
    case PushCont(body) => PushContTyped(core, body);
    case Try => TryTyped(core, false);
    case TryKeep => TryTyped(core, true);
    case Repeat => RepeatTyped(core);
    case While => WhileTyped(core);
    case Until => OneBlockTyped(core);
    case Again => OneBlockTyped(core);
    case CallX => OneBlockTyped(core);
    case JmpX => OneBlockTyped(core);
    case Ret => ReturnTyped(core);
    case RetAlt => ReturnAltTyped(core);
    case PushCtr(reg) => PushCtrTyped(core, reg);
    case PopCtr(reg) => PopCtrTyped(core, reg);
    case SetContCtr(reg) => SetContCtrTyped(core, reg);
    case Accept =>
    case SetGasLimit => SetGasLimitTyped(core);
    case Commit =>
  }

  // ----- implicit steps and exceptions -----

  lemma TurnedTyped(core: Core, block: Slice)
    requires Sound(core)
    ensures Sound(Turned(core, block))
  {}

  lemma LoopTyped(core: Core, block: Slice, next: Continuation)
    requires Sound(core) && TypedCont(next)
    ensures SoundExec(Loop(core, block, next))
  {
    hide TypedItem, TypedCont, Turned;
    TurnedTyped(core, block);
    FailTyped(Turned(core, block), RangeCheckError);
    ContSlot(next, 0);
    SetTyped(core.ctrls, 0, SavedCont(next));
    assert Turned(core, block).ctrls == core.ctrls by { TurnedRegisters(core, block); }
  }

  lemma TurnedRegisters(core: Core, block: Slice)
    ensures Turned(core, block).ctrls == core.ctrls
  {}

  lemma NextRoundTyped(core: Core, typ: ContType)
    requires Sound(core)
    ensures TypedCont(NextRound(core, typ))
  {}

  lemma QuitTyped(core: Core)
    requires Sound(core)
    ensures Sound(core.(ctrls := Set(core.ctrls, 0, SavedCont(WithType(Quit(0))))))
  {
    TypeOnlyTyped(Quit(0));
    ContSlot(WithType(Quit(0)), 0);
    SetTyped(core.ctrls, 0, SavedCont(WithType(Quit(0))));
  }

  lemma WhileStepTyped(core: Core, body: Slice, cond: Slice)
    requires Sound(core)
    ensures SoundExec(StepWhile(core, body, cond))
  {
    hide TypedItem, TypedCont, Return, Loop;
    var quit := core.(ctrls := Set(core.ctrls, 0, SavedCont(WithType(Quit(0)))));
    QuitTyped(core);
    FailTyped(quit, StackUnderflow);
    if |core.cc.stack| >= 1 {
      PopTyped(core, 1);
      PopTyped(quit, 1);
      FailTyped(Pop(quit, 1), TypeCheckError);
      ReturnTyped(Pop(core, 1));
      var again := NextRound(core, WhileLoopCondition(body, cond));
      NextRoundTyped(core, WhileLoopCondition(body, cond));
      CondTyped(cond, again);
      LoopTyped(Pop(core, 1), body, WithCode(cond).(savelist := Set(EMPTY_SAVELIST, 0, SavedCont(again))));
    }
  }

  lemma CondTyped(cond: Slice, again: Continuation)
    requires TypedCont(again)
    ensures TypedCont(WithCode(cond).(savelist := Set(EMPTY_SAVELIST, 0, SavedCont(again))))
  {}

  lemma UntilStepTyped(core: Core, body: Slice)
    requires Sound(core)
    ensures SoundExec(StepUntil(core, body))
  {
    hide TypedItem, TypedCont, Return, Loop;
    FailTyped(core, StackUnderflow);
    if |core.cc.stack| >= 1 {
      PopTyped(core, 1);
      FailTyped(Pop(core, 1), TypeCheckError);
      ReturnTyped(Pop(core, 1));
      NextRoundTyped(core, UntilLoopCondition(body));
      LoopTyped(Pop(core, 1), body, NextRound(core, UntilLoopCondition(body)));
    }
  }

  lemma AgainStepTyped(core: Core, body: Slice)
    requires Sound(core)
    ensures SoundExec(StepAgain(core, body))
  {
    hide TypedItem;
    TurnedTyped(core, body);
    var again := Continuation(core.cc.code, -1, EMPTY_SAVELIST, [], AgainLoopBody(body));
    EmptyTyped();
    PartsTyped(again);
    ContSlot(again, 0);
    SetTyped(core.ctrls, 0, SavedCont(again));
  }

  lemma RevertStepTyped(core: Core, depth: nat)
    requires Sound(core)
    ensures SoundExec(StepCatchRevert(core, depth))
  {
    hide TypedItem, Return;
    FailTyped(core, StackUnderflow);
    if |core.cc.stack| >= 2 {
      var below := Pop(core, 2);
      PopTyped(core, 2);
      FailTyped(below, StackUnderflow);
      if |below.cc.stack| >= depth {
        TopTyped(core, 0);
        TopTyped(core, 1);
        var cut := core.(cc := core.cc.(stack := below.cc.stack[..depth] + [Top(core, 1), Top(core, 0)]));
        PartsTyped(cut.cc);
        ReturnTyped(cut);
      }
    }
  }

  lemma SpecialTyped(core: Core)
    requires Sound(core)
    ensures SoundExec(StepSpecial(core))
  {
    hide TypedItem, TypedCont, StepWhile, StepUntil, StepAgain, StepCatchRevert, Return, Loop;
    match core.cc.typ
    case PushInt(n) =>
      IntegerTyped(n);
      PushTyped(core, Integer(Value(n)));
      ReturnTyped(Push(core, Integer(Value(n))));
    case TryCatch =>
      SetTyped(core.ctrls, 2, Unset);
      ReturnTyped(core.(ctrls := Set(core.ctrls, 2, Unset)));
    case CatchRevert(depth) => RevertStepTyped(core, depth);
    case WhileLoopCondition(body, cond) => WhileStepTyped(core, body, cond);
    case RepeatLoopBody(body, counter) =>
      NextRoundTyped(core, RepeatLoopBody(body, counter - 1));
      LoopTyped(core, body, NextRound(core, RepeatLoopBody(body, counter - 1)));
      ReturnTyped(core);
    case UntilLoopCondition(body) => UntilStepTyped(core, body);
    case AgainLoopBody(body) => AgainStepTyped(core, body);
    case _ =>
  }

  lemma IntegerTyped(n: int)
    ensures TypedItem(Integer(Value(n)))
  {}

  /** Delivering an exception keeps every register well typed. */
  lemma RaiseTyped(core: Core, value: StackItem, code: int)
    requires Sound(core) && TypedItem(value)
    ensures Sound(Raise(core, value, code).core)
  {
    hide TypedItem, TypedCont, Jump;
    var c2 := At(core.ctrls, 2);
    var bare := core.(ctrls := Set(core.ctrls, 2, Unset));
    SetTyped(core.ctrls, 2, Unset);
    if c2.Unset? {
      return;
    }
    IntegerTyped(code);
    if c2.item.ContItem? && c2.item.cont.typ == ExcQuit {
      var quit := WithType(Quit(code)).(nargs := 1);
      QuitOneTyped(code);
      PushTyped(bare, value);
      JumpTyped(Push(bare, value), quit);
      PairTyped(bare.cc, value, code);
    } else {
      var pushed := Push(Push(bare, value), Integer(Value(code)));
      PushTyped(bare, value);
      PushTyped(Push(bare, value), Integer(Value(code)));
      if c2.item.ContItem? {
        RegisterTyped(core.ctrls, 2);
        TwoArguments(c2.item.cont);
        JumpTyped(pushed, if c2.item.cont.typ.CatchRevert? then c2.item.cont else c2.item.cont.(nargs := 2));
      }
    }
  }

  lemma QuitOneTyped(code: int)
    ensures TypedCont(WithType(Quit(code)).(nargs := 1))
  {}

  lemma TwoArguments(k: Continuation)
    requires TypedCont(k)
    ensures TypedCont(k.(nargs := 2))
  {}

  lemma PairTyped(cc: Continuation, value: StackItem, code: int)
    requires TypedCont(cc) && TypedItem(value)
    ensures TypedCont(cc.(stack := [value, Integer(Value(code))]))
  {}

  lemma SettleTyped(e: Exec)
    requires SoundExec(e)
    ensures Sound(Settle(e).core)
  {
    hide Raise;
    if e.Threw? {
      RaiseTyped(e.core, e.value, e.code);
    }
  }

  lemma ExternalTyped(core: Core)
    requires Sound(core)
    ensures Sound(External(core).core)
  {}

  /** One step of the machine keeps all registers and savelists well typed and c3, c4, c5, c7 set. */
  lemma StepTyped(isa: Isa, core: Core)
    requires Sound(core) && KeepsTypes(isa)
    ensures Sound(Step(isa, core).core)
  {
    hide TypedItem, TypedCont, KeepsTypes, Settle, Execute, StepSpecial, Return, External;
    if !OutOfBits(core.cc.code) {
      match isa.fetch(core.cc.code)
      case Invalid =>
        FailTyped(core, InvalidOpcode);
        SettleTyped(StepInstr(isa, core));
      case Fetched(instr, rest) =>
        CodeTyped(core, rest);
        ExecuteTyped(isa, core.(cc := core.cc.(code := rest)), instr);
        SettleTyped(StepInstr(isa, core));
    } else if !Exhausted(core.cc.code) {
      FailTyped(core, CellUnderflow);
      if isa.load(core.cc.code).Some? {
        CodeTyped(core, isa.load(core.cc.code).value);
      }
      SettleTyped(StepJmpRef(isa, core));
    } else if core.cc.typ.ExcQuit? {
      ExternalTyped(core);
    } else if core.cc.typ.Ordinary? {
      ReturnTyped(core);
      SettleTyped(Return(core));
    } else if !core.cc.typ.Quit? {
      SpecialTyped(core);
      SettleTyped(StepSpecial(core));
    }
  }

  /** Every state of every run from a sound start is sound. */
  lemma {:induction false} RunTyped(isa: Isa, core: Core, n: nat)
    requires Sound(core) && KeepsTypes(isa)
    ensures Sound(Run(isa, core, n).core)
    decreases n
  {
    hide KeepsTypes, Sound, Step;
    if n > 0 {
      StepTyped(isa, core);
      if Step(isa, core).Next? {
        RunTyped(isa, Step(isa, core).core, n - 1);
      }
    }
  }

  // ----- setup -----

  /** The registers `setup` installs for code and a context tuple. */
  function SetupRegisters(code: Slice, context: seq<StackItem>): SaveList {
    [SavedCont(WithType(Quit(0))), SavedCont(WithType(Quit(1))), SavedCont(WithType(ExcQuit)),
     SavedCont(WithCode(code)), Saved(CellItem(Cell([], []))), Saved(CellItem(Cell([], []))), Saved(Tuple(context))]
  }

  /** `setup`: default registers, overridden by the ones the caller gives. */
  function Setup(code: Slice, stack: seq<StackItem>, context: seq<StackItem>, ctrls: SaveList): Core {
    Core(WithCode(code).(stack := stack), Apply(SetupRegisters(code, context), ctrls))
  }

  lemma SetupSound(code: Slice, stack: seq<StackItem>, context: seq<StackItem>, ctrls: SaveList)
    requires TypedStack(stack) && TypedStack(context) && TypedRegisters(ctrls)
    ensures Sound(Setup(code, stack, context, ctrls))
  {
    EmptyTyped();
    PartsTyped(WithCode(code).(stack := stack));
    PartsTyped(WithCode(code));
    TypeOnlyTyped(Quit(0));
    TypeOnlyTyped(Quit(1));
    TypeOnlyTyped(ExcQuit);
    var s := SetupRegisters(code, context);
    assert TypedRegisters(s);
    ApplyTyped(s, ctrls);
  }
}
