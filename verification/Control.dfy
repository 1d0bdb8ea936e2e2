/**
 * Control-flow instructions as sequences of microcode moves on the engine, each proved to have
 * the net effect the machine gives it, and to charge exactly the toll of passing the stack.
 */
module Control {
  import opened Outcomes
  import opened Cells
  import opened Values
  import opened Machine
  import opened GasMeter
  import opened Tolls
  import opened Storage
  import opened Typing
  import opened Boundaries

  /** The engine between instructions: nothing saved in cc, no instruction parameters. */
  predicate Idle(e: Engine)
    reads e
  {
    |e.ctrls| == NUMREGS && e.cc.savelist == EMPTY_SAVELIST && e.pargs == None
  }

  /**
   * The gas counter stands where the toll says; the status is out-of-gas exactly when the toll could
   * not be paid, and otherwise the engine shows the result of x.
   */
  predicate Settles(e: Engine, r: Status, x: Exec, t: Toll)
    reads e, e.gas
  {
    && e.gas.State() == t.gas
    && if !t.paid then r == Bad(OutOfGas) else
         match r
         case Fine => x == Done(e.State())
         case Bad(code) => code != OutOfGas && code != Panic && x == Fail(e.State(), code)
  }

  /** `SaveList::apply` on the registers: saved values move out of cc's savelist. */
  method ApplySavelist(e: Engine)
    requires |e.ctrls| == NUMREGS && |e.cc.savelist| == NUMREGS
    modifies e
    ensures e.State() == Enter(old(e.cc), old(e.ctrls))
    ensures e.vars == old(e.vars) && e.pargs == old(e.pargs)
  {
    var self, other := e.ctrls, e.cc.savelist;
    for index := 0 to NUMREGS
      invariant |self| == |other| == NUMREGS
      invariant forall i :: 0 <= i < index ==> other[i].Unset?
      invariant forall i :: 0 <= i < index ==> self[i] == At(Apply(e.ctrls, e.cc.savelist), i)
      invariant forall i :: index <= i < NUMREGS ==> self[i] == e.ctrls[i] && other[i] == e.cc.savelist[i]
    {
      if other[index].Saved? {
        self := self[index := other[index]];
        other := other[index := Unset];
      }
    }
    assert other == EMPTY_SAVELIST;
    assert self == Apply(e.ctrls, e.cc.savelist);
    e.ctrls := self;
    e.cc := e.cc.(savelist := other);
  }

  /** `switch` to a continuation in a variable. */
  method SwitchVar(e: Engine, i: nat) returns (r: Status)
    requires |e.ctrls| == NUMREGS && e.pargs == None && i < |e.vars|
    requires e.vars[i].ContItem? ==> |e.vars[i].cont.savelist| == NUMREGS
    modifies e, e.gas
    ensures e.pargs == None
    ensures old(e.vars[i]).ContItem? ==>
      Settles(e, r, Jump(old(e.State()), old(e.vars[i]).cont),
              SiteToll(old(e.gas.State()), Pass(old(e.cc), old(e.vars[i]).cont)))
    ensures !old(e.vars[i]).ContItem? ==> Settles(e, r, Fail(old(e.State()), TypeCheckError), Free(old(e.gas.State())))
  {
    hide PassStack, PassToll, Enter;
    ghost var st := e.Here();
    ghost var k := if PeerAt(st, Var(i)).Some? then PeerAt(st, Var(i)).value else st.cc;
    PassKeepsSavelist(k, st.cc);
    r := e.PopAll(Var(i));
    if r.IsFailure() {
      return;
    }
    r := e.Swap(Var(i), Cc);
    ApplySavelist(e);
  }

  lemma PassKeepsSavelist(k: Continuation, cc: Continuation)
    ensures PassStack(cc, k, None).peer.savelist == k.savelist
    ensures PassStack(cc, k, None).Moved? ==> PassStack(cc, k, None).cc.savelist == cc.savelist
    ensures PassStack(cc, k, None).Refused? ==>
      PassStack(cc, k, None).code != OutOfGas && PassStack(cc, k, None).code != Panic
  {}

  /** `switch(ctrl 0)`: c0 becomes what the entered continuation saved, or disappears. */
  method SwitchC0(e: Engine) returns (r: Status)
    requires |e.ctrls| == NUMREGS && e.pargs == None
    requires HoldsCont(e.ctrls[0]) ==> |e.ctrls[0].item.cont.savelist| == NUMREGS
    modifies e, e.gas
    ensures e.pargs == None && e.vars == old(e.vars) && (r == Bad(OutOfGas) ==> e.State() == old(e.State()))
    ensures Settles(e, r, Return(old(e.State())), SiteToll(old(e.gas.State()), ReturnSite(old(e.State()))))
  {
    hide PassStack, PassToll, Apply;
    ghost var st := e.Here();
    ghost var k := if PeerAt(st, Ctrl(0)).Some? then PeerAt(st, Ctrl(0)).value else st.cc;
    PassKeepsSavelist(k, st.cc);
    r := e.PopAll(Ctrl(0));
    if r.IsFailure() {
      return;
    }
    r := e.Swap(Ctrl(0), Cc);
    var dropC0 := e.cc.savelist[0].Unset?;
    ghost var entered := e.cc;
    ApplyAfterSwap(st.ctrls, e.ctrls, entered.savelist, 0, Unset);
    ApplySavelist(e);
    if dropC0 {
      e.ctrls := e.ctrls[0 := Unset];
    }
  }

  /** `switch(ctrl 1)`: c1 becomes what the entered continuation saved, or a quit with code 1. */
  method SwitchC1(e: Engine) returns (r: Status)
    requires |e.ctrls| == NUMREGS && e.pargs == None
    requires HoldsCont(e.ctrls[1]) ==> |e.ctrls[1].item.cont.savelist| == NUMREGS
    modifies e, e.gas
    ensures e.pargs == None && e.vars == old(e.vars)
    ensures Settles(e, r, ReturnAlt(old(e.State())), SiteToll(old(e.gas.State()), ReturnAltSite(old(e.State()))))
  {
    hide PassStack, PassToll, Apply;
    ghost var st := e.Here();
    ghost var k := if PeerAt(st, Ctrl(1)).Some? then PeerAt(st, Ctrl(1)).value else st.cc;
    PassKeepsSavelist(k, st.cc);
    r := e.PopAll(Ctrl(1));
    if r.IsFailure() {
      return;
    }
    r := e.Swap(Ctrl(1), Cc);
    var dropC1 := e.cc.savelist[1].Unset?;
    ghost var entered := e.cc;
    ApplyAfterSwap(st.ctrls, e.ctrls, entered.savelist, 1, SavedCont(WithType(Quit(1))));
    ApplySavelist(e);
    if dropC1 {
      e.ctrls := e.ctrls[1 := SavedCont(WithType(Quit(1)))];
    }
  }

  /** What stands in a register when a savelist is applied matters only if nothing is saved for it. */
  lemma ApplyAfterSwap(ctrls: SaveList, swapped: SaveList, saves: SaveList, i: nat, fallback: Slot)
    requires |ctrls| == |swapped| == |saves| == NUMREGS && i < NUMREGS
    requires forall j :: 0 <= j < NUMREGS && j != i ==> swapped[j] == ctrls[j]
    ensures Apply(ctrls[i := fallback], saves)
         == if saves[i].Unset? then Apply(swapped, saves)[i := fallback] else Apply(swapped, saves)
  {}

  /** `switch_to_c0`: the fast path of an implicit return does what `switch(ctrl 0)` does. */
  method SwitchToC0(e: Engine) returns (r: Status)
    requires |e.ctrls| == NUMREGS && e.pargs == None
    requires HoldsCont(e.ctrls[0]) ==> |e.ctrls[0].item.cont.savelist| == NUMREGS
    modifies e, e.gas
    ensures e.pargs == None && e.vars == old(e.vars) && (r == Bad(OutOfGas) ==> e.State() == old(e.State()))
    ensures Settles(e, r, Return(old(e.State())), SiteToll(old(e.gas.State()), ReturnSite(old(e.State()))))
  {
    hide PassStack, PassToll, Apply;
    ghost var st := e.Here();
    ghost var k := if PeerAt(st, Ctrl(0)).Some? then PeerAt(st, Ctrl(0)).value else st.cc;
    PassKeepsSavelist(k, st.cc);
    r := e.PopAll(Ctrl(0));
    if r.IsFailure() {
      return;
    }
    var entered := e.ctrls[0].item.cont;
    e.ctrls := e.ctrls[0 := SavedCont(e.cc)];
    e.cc := entered;
    var dropC0 := e.cc.savelist[0].Unset?;
    ApplyAfterSwap(st.ctrls, e.ctrls, entered.savelist, 0, Unset);
    ApplySavelist(e);
    if dropC0 {
      e.ctrls := e.ctrls[0 := Unset];
    }
  }

  /** From equal engines the two ways to return give the same status, the same state and the same gas. */
  method ReturnBothWays(a: Engine, b: Engine) returns (r: Status, s: Status)
    requires a != b && a.gas != b.gas && a.Here() == b.Here() && a.gas.State() == b.gas.State()
    requires |a.ctrls| == NUMREGS && a.pargs == b.pargs == None
    requires HoldsCont(a.ctrls[0]) ==> |a.ctrls[0].item.cont.savelist| == NUMREGS
    modifies a, b, a.gas, b.gas
    ensures r == s && a.Here() == b.Here() && a.gas.State() == b.gas.State()
  {
    hide SiteToll, Return;
    r := SwitchC0(a);
    s := SwitchToC0(b);
  }

  /** `callx` of the continuation in a variable. */
  method CallX(e: Engine, callee: nat) returns (r: Status)
    requires |e.ctrls| == NUMREGS && e.pargs == None && callee < |e.vars|
    requires |e.cc.savelist| == NUMREGS && e.cc.savelist[0].Unset? && Storable(0, e.ctrls[0])
    requires e.vars[callee].ContItem? ==>
      |e.vars[callee].cont.savelist| == NUMREGS && Storable(0, e.vars[callee].cont.savelist[0])
    modifies e, e.gas
    ensures e.pargs == None && |e.vars| == |old(e.vars)|
    ensures forall i :: 0 <= i < |e.vars| && i != callee ==> e.vars[i] == old(e.vars)[i]
    ensures old(e.vars[callee]).ContItem? ==> 
      Settles(e, r, Call(old(e.State()), old(e.vars[callee]).cont),
              SiteToll(old(e.gas.State()), Pass(old(e.cc), old(e.vars[callee]).cont)))
    ensures !old(e.vars[callee]).ContItem? ==>
      Settles(e, r, Fail(old(e.State()), TypeCheckError), Free(old(e.gas.State())))
  {
    hide PassStack, PassToll, Apply;
    ghost var st := e.Here();
    ghost var k := if PeerAt(st, Var(callee)).Some? then PeerAt(st, Var(callee)).value else st.cc;
    PassKeepsSavelist(k, st.cc);
    r := e.PopAll(Var(callee));
    if r.IsFailure() {
      return;
    }
    ghost var t := PassStack(st.cc, k, None);
    var hasC0 := e.vars[callee].cont.savelist[0].Saved?;
    if hasC0 {
      r := e.Swap(Var(callee), Cc);
    } else {
      LinkCaller(e, callee);
    }
    ghost var before := e.ctrls;
    assert e.cc == t.peer;
    ApplySavelist(e);
    assert At(Apply(before, t.peer.savelist), 0)
        == if At(t.peer.savelist, 0).Saved? then t.peer.savelist[0] else before[0];
    e.ctrls := e.ctrls[0 := SavedCont(e.ctrls[0].item.cont.(nargs := -1))];
  }

  /** The caller takes c0 along and becomes c0 itself; the callee becomes cc. */
  method LinkCaller(e: Engine, callee: nat)
    requires |e.ctrls| == NUMREGS && callee < |e.vars| && e.vars[callee].ContItem?
    requires |e.cc.savelist| == NUMREGS && e.cc.savelist[0].Unset? && Storable(0, e.ctrls[0])
    modifies e
    ensures e.pargs == old(e.pargs)
    ensures e.cc == old(e.vars[callee].cont)
    ensures e.ctrls == old(e.ctrls)[0 := SavedCont(old(e.cc).(savelist := old(e.cc.savelist)[0 := old(e.ctrls)[0]]))]
    ensures e.vars == old(e.vars)[callee := Null]
  {
    ghost var st := e.Here();
    var r := e.Swap(Ctrl(0), CcSave(0));
    ghost var caller := st.cc.(savelist := st.cc.savelist[0 := st.ctrls[0]]);
    assert e.Here() == Store(caller, st.ctrls[0 := Unset], st.vars);
    r := e.Swap(Var(callee), Cc);
    ghost var mid := Store(st.vars[callee].cont, st.ctrls[0 := Unset], st.vars[callee := ContItem(caller)]);
    assert e.Here() == mid;
    r := e.Swap(Var(callee), Ctrl(0));
    UpdateTwice(st.ctrls, 0, Unset, SavedCont(caller));
    UpdateTwice(st.vars, callee, ContItem(caller), Null);
  }

  // ----- loops -----

  /** A well-typed savelist whose own continuations have well-typed savelists. */
  predicate DeeplyTyped(k: Continuation) {
    && TypedSaveList(k.savelist)
    && forall i :: 0 <= i < |k.savelist| && HoldsCont(k.savelist[i]) ==> TypedSaveList(k.savelist[i].item.cont.savelist)
  }

  /** Every continuation within reach of an instruction has a well-typed savelist. */
  predicate InReachTyped(core: Core) {
    && TypedSaveList(core.ctrls)
    && (forall i :: 0 <= i < |core.cc.stack| && core.cc.stack[i].ContItem? ==> DeeplyTyped(core.cc.stack[i].cont))
    && (forall i :: 0 <= i < |core.ctrls| && HoldsCont(core.ctrls[i]) ==>
          TypedSaveList(core.ctrls[i].item.cont.savelist))
  }

  predicate Typed(e: Engine)
    reads e
  {
    InReachTyped(e.State())
  }

  /** That is so in every state of every run. */
  lemma SoundIsTyped(core: Core)
    requires Sound(core)
    ensures InReachTyped(core)
  {
    forall i | 0 <= i < |core.cc.stack| && core.cc.stack[i].ContItem?
      ensures DeeplyTyped(core.cc.stack[i].cont)
    {
      assert TypedItem(core.cc.stack[i]);
      TypedParts(core.cc.stack[i].cont);
      SavedContsTyped(core.cc.stack[i].cont.savelist);
    }
    SavedContsTyped(core.ctrls);
  }

  /** Between instructions every run meets what the methods below ask of the engine. */
  lemma EngineIsReady(isa: Isa, code: Slice, stack: seq<StackItem>, context: seq<StackItem>, ctrls: SaveList, n: nat)
    requires KeepsTypes(isa) && TypedStack(stack) && TypedStack(context) && TypedRegisters(ctrls)
    ensures
      var r := Run(isa, Setup(code, stack, context, ctrls), n);
      r.Next? ==> AtBoundary(r.core) && InReachTyped(r.core)
  {
    hide KeepsTypes, Sound, Run, InReachTyped;
    SetupSound(code, stack, context, ctrls);
    RunAtBoundary(isa, Setup(code, stack, context, ctrls), n);
    SoundIsTyped(Run(isa, Setup(code, stack, context, ctrls), n).core);
  }

  lemma SavedContsTyped(s: SaveList)
    requires TypedRegisters(s)
    ensures forall i :: 0 <= i < |s| && HoldsCont(s[i]) ==> TypedSaveList(s[i].item.cont.savelist)
  {
    forall i | 0 <= i < |s| && HoldsCont(s[i])
      ensures TypedSaveList(s[i].item.cont.savelist)
    {
      RegisterTyped(s, i);
      TypedParts(s[i].item.cont);
    }
  }

  /** c0 moves into cc, the rest of cc into the loop, and the loop into the first block. */
  method LinkLoop(e: Engine, f: nat, typ: ContType)
    requires |e.ctrls| == NUMREGS && e.cc.savelist == EMPTY_SAVELIST && Storable(0, e.ctrls[0])
    requires f < |e.vars| && e.vars[f].ContItem? && |e.vars[f].cont.savelist| == NUMREGS
    modifies e
    ensures e.pargs == old(e.pargs)
    ensures e.State() == Detached(old(e.State()))
    ensures |e.vars| == |old(e.vars)| + 2
    ensures
      var loop := LoopCont(typ, AfterLoop(old(e.State())));
      var first := old(e.vars[f]).cont;
      e.vars[f] == ContItem(first.(savelist := Set(first.savelist, 0, SavedCont(loop))))
  {
    hide Exchange, Set;
    ghost var st := e.Here();
    var n := |e.vars|;
    e.vars := e.vars + [ContItem(WithType(typ))];
    MoveC0(e.Here());
    var r := e.Swap(CcSave(0), Ctrl(0));
    ghost var after := AfterLoop(Core(st.cc, st.ctrls));
    DetachedParts(st.cc, st.ctrls);
    e.CopyToVar(Cc);
    assert e.vars[n + 1] == ContItem(after);
    SaveIntoVar(e.Here(), n, n + 1);
    r := e.Swap(VarSave(n, 0), Var(n + 1));
    assert e.vars[n] == ContItem(LoopCont(typ, after));
    SaveIntoVar(e.Here(), f, n);
    r := e.Swap(VarSave(f, 0), Var(n));
  }

  /** The effect of saving one continuation variable as the c0 of another. */
  lemma SaveIntoVar(st: Store, owner: nat, v: nat)
    requires |st.ctrls| == NUMREGS && owner < |st.vars| && v < |st.vars| && owner != v
    requires st.vars[owner].ContItem? && |st.vars[owner].cont.savelist| == NUMREGS && st.vars[v].ContItem?
    ensures Swappable(st, VarSave(owner, 0), Var(v))
    ensures
      var k := st.vars[owner].cont;
      var k1 := k.(savelist := Set(k.savelist, 0, Saved(st.vars[v])));
      Exchange(st, VarSave(owner, 0), Var(v))
      == Some(st.(vars := st.vars[owner := ContItem(k1)][v := ItemOf(k.savelist[0])]))
  {}

  /** The effect of moving c0 into the empty savelist of cc. */
  lemma MoveC0(st: Store)
    requires |st.ctrls| == NUMREGS && st.cc.savelist == EMPTY_SAVELIST && Storable(0, st.ctrls[0])
    ensures Swappable(st, CcSave(0), Ctrl(0))
    ensures Exchange(st, CcSave(0), Ctrl(0)) ==
      Some(Store(Detached(Core(st.cc, st.ctrls)).cc, Detached(Core(st.cc, st.ctrls)).ctrls, st.vars))
  {}

  lemma DetachedParts(cc: Continuation, ctrls: SaveList)
    requires cc.savelist == EMPTY_SAVELIST
    ensures Detached(Core(cc, ctrls)).cc.(stack := []) == AfterLoop(Core(cc, ctrls))
  {}

  method EnterLoop(e: Engine, f: nat, typ: ContType) returns (r: Status)
    requires Idle(e) && Storable(0, e.ctrls[0])
    requires f < |e.vars| && e.vars[f].ContItem? && |e.vars[f].cont.savelist| == NUMREGS
    modifies e, e.gas
    ensures Settles(e, r, StartLoop(old(e.State()), old(e.vars[f]).cont, typ),
                    SiteToll(old(e.gas.State()), Pass(old(e.cc), old(e.vars[f]).cont)))
  {
    hide Jump, Detached, AfterLoop, LoopCont, SiteToll;
    LinkLoop(e, f, typ);
    DetachedRegisters(old(e.State()));
    TollBySize(e.gas.State(), e.cc, e.vars[f].cont, old(e.cc), old(e.vars[f]).cont);
    r := SwitchVar(e, f);
  }

  lemma DetachedRegisters(core: Core)
    ensures |Detached(core).ctrls| == NUMREGS && Detached(core).cc.stack == core.cc.stack
  {}

  /** REPEAT. */
  method ExecuteRepeat(e: Engine) returns (r: Status)
    requires Idle(e) && Typed(e) && e.vars == []
    modifies e, e.gas
    ensures Settles(e, r, ExecRepeat(old(e.State())), SiteToll(old(e.gas.State()), RepeatSite(old(e.State()))))
  {
    hide StartLoop, SiteToll;
    NoToll(e.gas.State());
    r := e.FetchStack(2);
    if r.IsFailure() {
      return;
    }
    if !e.vars[0].ContItem? {
      return Bad(TypeCheckError);
    }
    var body := e.vars[0].cont.code;
    if !e.vars[1].Integer? {
      return Bad(TypeCheckError);
    }
    if e.vars[1].data.NaN? || !(-0x80000000 <= e.vars[1].data.v <= 0x7FFFFFFF) {
      return Bad(RangeCheckError);
    }
    var counter := e.vars[1].data.v;
    if counter <= 0 {
      return Fine;
    }
    r := EnterLoop(e, 0, RepeatLoopBody(body, counter));
  }

  /** WHILE. */
  method ExecuteWhile(e: Engine) returns (r: Status)
    requires Idle(e) && Typed(e) && e.vars == []
    modifies e, e.gas
    ensures Settles(e, r, ExecWhile(old(e.State())), SiteToll(old(e.gas.State()), WhileSite(old(e.State()))))
  {
    hide StartLoop, SiteToll;
    NoToll(e.gas.State());
    r := e.FetchStack(2);
    if r.IsFailure() {
      return;
    }
    if !e.vars[0].ContItem? || !e.vars[1].ContItem? {
      return Bad(TypeCheckError);
    }
    r := EnterLoop(e, 1, WhileLoopCondition(e.vars[0].cont.code, e.vars[1].cont.code));
  }

  /** UNTIL. */
  method ExecuteUntil(e: Engine) returns (r: Status)
    requires Idle(e) && Typed(e) && e.vars == []
    modifies e, e.gas
    ensures Settles(e, r, ExecUntil(old(e.State())), SiteToll(old(e.gas.State()), TopSite(old(e.State()))))
  {
    hide StartLoop, SiteToll;
    NoToll(e.gas.State());
    r := e.FetchStack(1);
    if r.IsFailure() {
      return;
    }
    if !e.vars[0].ContItem? {
      return Bad(TypeCheckError);
    }
    r := EnterLoop(e, 0, UntilLoopCondition(e.vars[0].cont.code));
  }

  /** AGAIN. */
  method ExecuteAgain(e: Engine) returns (r: Status)
    requires Idle(e) && Typed(e) && e.vars == []
    modifies e, e.gas
    ensures Settles(e, r, ExecAgain(old(e.State())), SiteToll(old(e.gas.State()), TopSite(old(e.State()))))
  {
    hide StartLoop, SiteToll;
    NoToll(e.gas.State());
    r := e.FetchStack(1);
    if r.IsFailure() {
      return;
    }
    if !e.vars[0].ContItem? {
      return Bad(TypeCheckError);
    }
    r := EnterLoop(e, 0, AgainLoopBody(e.vars[0].cont.code));
  }

  // ----- TRY and TRYKEEP -----

  /** The effect of saving the handler in force in another continuation. */
  lemma HandlerIntoVar(st: Store)
    requires |st.ctrls| == NUMREGS && |st.vars| == 3 && st.vars[0].ContItem? && |st.vars[0].cont.savelist| == NUMREGS
    requires CanPut(2, st.vars[2])
    ensures Swappable(st, VarSave(0, 2), Var(2))
    ensures
      var k := st.vars[0].cont;
      var k1 := k.(savelist := SaveHandler(k.savelist, Saved(st.vars[2])));
      Exchange(st, VarSave(0, 2), Var(2))
      == Some(st.(vars := st.vars[0 := ContItem(k1)][2 := ItemOf(k.savelist[2])]))
  {
    var k := st.vars[0].cont;
    UpdateTwice(k.savelist, 2, Unset, Unset);
  }

  lemma HandlerIntoCc(st: Store)
    requires |st.ctrls| == NUMREGS && |st.vars| == 4 && |st.cc.savelist| == NUMREGS && CanPut(2, st.vars[3])
    ensures Swappable(st, CcSave(2), Var(3))
    ensures Exchange(st, CcSave(2), Var(3)) ==
      Some(st.(cc := st.cc.(savelist := SaveHandler(st.cc.savelist, Saved(st.vars[3]))),
          vars := st.vars[3 := ItemOf(st.cc.savelist[2])]))
  {
    UpdateTwice(st.cc.savelist, 2, Unset, Unset);
  }

  lemma HandlerIntoC2(st: Store)
    requires |st.ctrls| == NUMREGS && |st.vars| >= 2 && st.vars[1].ContItem?
    ensures Swappable(st, Ctrl(2), Var(1))
    ensures Exchange(st, Ctrl(2), Var(1))
         == Some(st.(ctrls := st.ctrls[2 := Saved(st.vars[1])], vars := st.vars[1 := ItemOf(st.ctrls[2])]))
  {}

  /** The handler in force goes into the new handler and into cc. */
  method SaveHandlers(e: Engine)
    requires |e.ctrls| == NUMREGS && |e.cc.savelist| == NUMREGS && Storable(2, e.ctrls[2])
    requires |e.vars| == 2 && e.vars[0].ContItem? && |e.vars[0].cont.savelist| == NUMREGS
    modifies e
    ensures e.pargs == old(e.pargs) && e.ctrls == old(e.ctrls) && |e.vars| >= 2
    ensures e.cc == old(e.cc).(savelist := SaveHandler(old(e.cc).savelist, old(e.ctrls)[2]))
    ensures
      var k := old(e.vars[0]).cont;
      e.vars[0] == ContItem(k.(savelist := SaveHandler(k.savelist, old(e.ctrls)[2])))
    ensures e.vars[1] == old(e.vars[1])
  {
    hide Exchange, SaveHandler;
    HandlerAbsent(e.cc.savelist);
    HandlerAbsent(e.vars[0].cont.savelist);
    if e.ctrls[2].Saved? {
      e.CopyToVar(Ctrl(2));
      HandlerIntoVar(e.Here());
      var r := e.Swap(VarSave(0, 2), Var(2));
      e.CopyToVar(Ctrl(2));
      HandlerIntoCc(e.Here());
      r := e.Swap(CcSave(2), Var(3));
    }
  }

  lemma HandlerAbsent(s: SaveList)
    ensures SaveHandler(s, Unset) == s
  {}

  /** Sets the stage for the guarded block: it is in variable 0 and its handler in c2. */
  method PrepareTry(e: Engine)
    requires Idle(e) && Storable(2, e.ctrls[2])
    requires |e.vars| == 2 && e.vars[0].ContItem? && e.vars[1].ContItem?
    requires |e.vars[0].cont.savelist| == |e.vars[1].cont.savelist| == NUMREGS
    modifies e
    ensures e.pargs == None && |e.vars| >= 2
    ensures
      var handler, body, prior := old(e.vars[0]).cont, old(e.vars[1]).cont, old(e.ctrls)[2];
      var h := handler.(typ := TryCatch, savelist := SaveHandler(handler.savelist, prior));
      && e.cc == old(e.cc).(savelist := SaveHandler(old(e.cc).savelist, prior))
      && e.ctrls == old(e.ctrls)[2 := SavedCont(h)]
      && e.vars[0] == ContItem(body.(savelist := Set(body.savelist, 0, Unset)))
  {
    hide Exchange, SaveHandler;
    var handler, body := e.vars[0].cont, e.vars[1].cont;
    e.vars := [ContItem(handler.(typ := TryCatch)), ContItem(body.(savelist := Set(body.savelist, 0, Unset)))];
    SaveHandlers(e);
    ghost var st := e.Here();
    e.vars := e.vars[0 := e.vars[1]][1 := e.vars[0]];
    HandlerIntoC2(e.Here());
    var r := e.Swap(Ctrl(2), Var(1));
  }

  /** The caller goes into the handler, and the handler of TRYKEEP into its envelope. */
  method FinishTry(e: Engine, keep: bool, depth: nat) returns (r: Status)
    requires |e.ctrls| == NUMREGS && HoldsCont(e.ctrls[0])
    requires HoldsCont(e.ctrls[2]) ==> |e.ctrls[2].item.cont.savelist| == NUMREGS
    modifies e
    ensures !HoldsCont(old(e.ctrls)[2]) ==> r == Bad(TypeCheckError) && e.State() == old(e.State())
    ensures HoldsCont(old(e.ctrls)[2]) ==>
      var current := old(e.ctrls)[2].item.cont;
      var k := current.(savelist := Set(current.savelist, 0, old(e.ctrls)[0]));
      && r == Fine && e.cc == old(e.cc)
      && e.ctrls == old(e.ctrls)[2 := SavedCont(if keep then Envelope(k, depth) else k)]
  {
    hide Exchange;
    e.CopyToVar(Ctrl(0));
    if !HoldsCont(e.ctrls[2]) {
      return Bad(TypeCheckError);
    }
    var length := |e.vars|;
    ghost var current := e.ctrls[2].item.cont;
    ghost var k := current.(savelist := Set(current.savelist, 0, e.ctrls[0]));
    ghost var ctrls := e.ctrls;
    CallerIntoHandler(e.Here(), length - 1);
    r := e.Swap(CtrlSave(2, 0), Var(length - 1));
    assert e.ctrls == ctrls[2 := SavedCont(k)];
    if keep {
      e.vars := e.vars + [ContItem(WithType(CatchRevert(depth)))];
      var n := |e.vars|;
      HandlerIntoEnvelope(e.Here(), n - 1, depth);
      r := e.Swap(VarSave(n - 1, 0), Ctrl(2));
      r := e.Swap(Ctrl(2), Var(n - 1));
      UpdateTwice(ctrls, 2, SavedCont(k), SavedCont(Envelope(k, depth)));
    }
  }

  lemma CallerIntoHandler(st: Store, v: nat)
    requires |st.ctrls| == NUMREGS && HoldsCont(st.ctrls[2]) && |st.ctrls[2].item.cont.savelist| == NUMREGS
    requires v < |st.vars| && st.vars[v].ContItem?
    ensures Swappable(st, CtrlSave(2, 0), Var(v))
    ensures
      var k := st.ctrls[2].item.cont;
      Exchange(st, CtrlSave(2, 0), Var(v)) ==
      Some(st.(ctrls := st.ctrls[2 := SavedCont(k.(savelist := Set(k.savelist, 0, Saved(st.vars[v]))))],
               vars := st.vars[v := ItemOf(k.savelist[0])]))
  {}

  lemma HandlerIntoEnvelope(st: Store, v: nat, depth: nat)
    requires |st.ctrls| == NUMREGS && HoldsCont(st.ctrls[2]) && v < |st.vars|
    requires st.vars[v] == ContItem(WithType(CatchRevert(depth)))
    ensures Swappable(st, VarSave(v, 0), Ctrl(2))
    ensures
      var k := st.ctrls[2].item.cont;
      var st1 := st.(ctrls := st.ctrls[2 := Unset], vars := st.vars[v := ContItem(Envelope(k, depth))]);
      && Exchange(st, VarSave(v, 0), Ctrl(2)) == Some(st1)
      && Swappable(st1, Ctrl(2), Var(v))
      && Exchange(st1, Ctrl(2), Var(v)) == Some(st.(ctrls := st.ctrls[2 := SavedCont(Envelope(k, depth))],
          vars := st.vars[v := Null]))
  {
    var k := st.ctrls[2].item.cont;
    UpdateTwice(st.ctrls, 2, Unset, SavedCont(Envelope(k, depth)));
    UpdateTwice(st.vars, v, ContItem(Envelope(k, depth)), Null);
  }

  /** After a call that succeeds, c0 is the caller and c2 still has a full savelist. */
  lemma CallLeaves(core: Core, k: Continuation)
    requires Call(core, k).Done? && |core.ctrls| == NUMREGS && |k.savelist| == NUMREGS
    ensures
      var after := Call(core, k).core;
      && |after.ctrls| == NUMREGS && HoldsCont(after.ctrls[0])
      && after.ctrls[2] == if k.savelist[2].Saved? then k.savelist[2] else core.ctrls[2]
  {
    hide PassStack;
    PassKeepsSavelist(k, core.cc);
  }

  /** TRY and TRYKEEP (`init_try_catch`). */
  method InitTryCatch(e: Engine, keep: bool) returns (r: Status)
    requires Idle(e) && Typed(e) && e.vars == []
    modifies e, e.gas
    ensures Settles(e, r, ExecTry(old(e.State()), keep), SiteToll(old(e.gas.State()), TrySite(old(e.State()))))
  {
    hide Call, SaveHandler, Envelope, SiteToll;
    NoToll(e.gas.State());
    r := e.FetchStack(2);
    if r.IsFailure() {
      return;
    }
    var depth := |e.cc.stack|;
    if !e.vars[1].ContItem? || !e.vars[0].ContItem? {
      return Bad(TypeCheckError);
    }
    ghost var handler := e.vars[0].cont;
    assert handler == Top(old(e.State()), 0).cont;
    PrepareTry(e);
    ghost var guarded, c := e.State(), e.vars[0].cont;
    HandlerSize(old(e.cc.savelist), old(e.ctrls)[2]);
    HandlerSize(handler.savelist, old(e.ctrls)[2]);
    TollBySize(e.gas.State(), e.cc, c, Pop(old(e.State()), 2).cc, Top(old(e.State()), 1).cont);
    r := CallX(e, 0);
    if r.IsFailure() {
      return;
    }
    CallLeaves(guarded, c);
    r := FinishTry(e, keep, depth);
  }

  lemma HandlerSize(s: SaveList, h: Slot)
    ensures |s| == NUMREGS ==> |SaveHandler(s, h)| == NUMREGS && SaveHandler(s, h)[0] == s[0]
  {}

  // ----- implicit steps -----

  /** `discharge_nargs`. */
  method DischargeNargs(e: Engine)
    requires e.cc.nargs == -1 || 0 <= e.cc.nargs <= |e.cc.stack|
    modifies e
    ensures e.cc == Discharged(old(e.cc)) && e.ctrls == old(e.ctrls) && e.vars == old(e.vars) && e.pargs == old(e.pargs)
    ensures
      var was := old(e.cc);
      e.cc == was.(nargs := -1, stack := if was.nargs == -1 then was.stack else was.stack[was.nargs..])
  {
    if e.cc.nargs != -1 {
      var depth := |e.cc.stack|;
      ghost var stack := e.cc.stack;
      assert stack[..0] + stack[e.cc.nargs..] == stack[e.cc.nargs..] && stack[0..] == stack;
      var dropped := e.DropRangeStraight(depth - e.cc.nargs, depth);
      e.cc := e.cc.(nargs := -1);
    }
  }

  /** Runs a block of a loop again: cc turns into the block and c0 is saved in the loop continuation. */
  method NextIteration(e: Engine, block: Slice, typ: ContType, viaCond: Option<Slice>) returns (r: Status)
    requires |e.ctrls| == NUMREGS && e.cc.savelist == EMPTY_SAVELIST
    requires e.cc.nargs == -1 || 0 <= e.cc.nargs <= |e.cc.stack|
    modifies e
    ensures
      var again := NextRound(old(e.State()), typ);
      var next := match viaCond
        case None => again
        case Some(cond) => WithCode(cond).(savelist := Set(EMPTY_SAVELIST, 0, SavedCont(again)));
      Settles(e, r, Loop(old(e.State()), block, next), Free(old(e.gas.State())))
  {
    DischargeNargs(e);
    var again := Continuation(e.cc.code, -1, EMPTY_SAVELIST, [], typ);
    e.cc := e.cc.(code := block, typ := Ordinary);
    if e.ctrls[0].Unset? {
      return Bad(RangeCheckError);
    }
    again := again.(savelist := again.savelist[0 := e.ctrls[0]]);
    var next := again;
    if viaCond.Some? {
      next := WithCode(viaCond.value);
      next := next.(savelist := next.savelist[0 := SavedCont(again)]);
    }
    e.ctrls := e.ctrls[0 := SavedCont(next)];
    return Fine;
  }

  /** `step_while_loop`. */
  method StepWhileLoop(e: Engine, body: Slice, cond: Slice) returns (r: Status)
    requires Idle(e) && Typed(e) && (e.cc.nargs == -1 || e.cc.nargs == 0) && e.cc.typ == WhileLoopCondition(body, cond)
    modifies e, e.gas
    ensures Settles(e, r, StepWhile(old(e.State()), body, cond),
                    SiteToll(old(e.gas.State()), WhileStepSite(old(e.State()))))
  {
    hide Return, Loop;
    if |e.cc.stack| < 1 || !e.cc.stack[|e.cc.stack| - 1].Integer? {
      r := Bad(if |e.cc.stack| < 1 then StackUnderflow else TypeCheckError);
      if |e.cc.stack| >= 1 {
        e.cc := e.cc.(stack := e.cc.stack[..|e.cc.stack| - 1]);
      }
      e.ctrls := e.ctrls[0 := SavedCont(WithType(Quit(0)))];
      return;
    }
    var x := e.cc.stack[|e.cc.stack| - 1];
    e.cc := e.cc.(stack := e.cc.stack[..|e.cc.stack| - 1]);
    if x != ZERO {
      r := NextIteration(e, body, WhileLoopCondition(body, cond), Some(cond));
    } else {
      r := SwitchC0(e);
    }
  }

  /** `step_until_loop`. */
  method StepUntilLoop(e: Engine, body: Slice) returns (r: Status)
    requires Idle(e) && Typed(e) && (e.cc.nargs == -1 || e.cc.nargs == 0) && e.cc.typ == UntilLoopCondition(body)
    modifies e, e.gas
    ensures Settles(e, r, StepUntil(old(e.State()), body), SiteToll(old(e.gas.State()), UntilStepSite(old(e.State()))))
  {
    hide Return, Loop;
    if |e.cc.stack| < 1 {
      return Bad(StackUnderflow);
    }
    var x := e.cc.stack[|e.cc.stack| - 1];
    e.cc := e.cc.(stack := e.cc.stack[..|e.cc.stack| - 1]);
    if !x.Integer? {
      return Bad(TypeCheckError);
    }
    if x == ZERO {
      r := NextIteration(e, body, UntilLoopCondition(body), None);
    } else {
      r := SwitchC0(e);
    }
  }

  /** `step_repeat_loop`. */
  method StepRepeatLoop(e: Engine, body: Slice, counter: int) returns (r: Status)
    requires Idle(e) && Typed(e) && e.cc.typ == RepeatLoopBody(body, counter)
    requires e.cc.nargs == -1 || 0 <= e.cc.nargs <= |e.cc.stack|
    modifies e, e.gas
    ensures Settles(e, r, StepRepeat(old(e.State()), body, counter),
            SiteToll(old(e.gas.State()), if counter > 1 then NoPass else ReturnSite(old(e.State()))))
  {
    hide Return, Loop;
    if counter > 1 {
      r := NextIteration(e, body, RepeatLoopBody(body, counter - 1), None);
    } else {
      r := SwitchC0(e);
    }
  }

  /** `step_catch_revert`: the exception pair is kept, everything above the guarded depth is not. */
  method StepRevert(e: Engine, depth: nat) returns (r: Status)
    requires Idle(e) && Typed(e)
    modifies e, e.gas
    ensures Settles(e, r, StepCatchRevert(old(e.State()), depth),
                    SiteToll(old(e.gas.State()), RevertSite(old(e.State()), depth)))
  {
    hide Return, SiteToll;
    NoToll(e.gas.State());
    ghost var start, stack := e.State(), e.cc.stack;
    assert |stack| >= 2 ==>
      stack[..|stack| - 2] + stack[|stack|..] == stack[..|stack| - 2] &&
      stack[|stack| - 2..|stack|] == [stack[|stack| - 2], stack[|stack| - 1]];
    var pair := e.DropRangeStraight(0, 2);
    if pair.Err? {
      return Bad(pair.code);
    }
    var current := |e.cc.stack|;
    if current < depth {
      return Bad(StackUnderflow);
    }
    e.cc := e.cc.(stack := e.cc.stack[..depth]);
    PushAll(e, pair.value);
    assert e.cc.stack == Pop(start, 2).cc.stack[..depth] + [Top(start, 1), Top(start, 0)];
    assert e.State() == start.(cc := start.cc.(stack := e.cc.stack));
    r := SwitchC0(e);
  }

  method PushAll(e: Engine, items: seq<StackItem>)
    modifies e
    ensures e.cc == old(e.cc).(stack := old(e.cc.stack) + items)
    ensures e.ctrls == old(e.ctrls) && e.vars == old(e.vars) && e.pargs == old(e.pargs)
  {
    var i := 0;
    while i < |items|
      invariant 0 <= i <= |items|
      invariant e.cc == old(e.cc).(stack := old(e.cc.stack) + items[..i])
      invariant e.ctrls == old(e.ctrls) && e.vars == old(e.vars) && e.pargs == old(e.pargs)
    {
      e.cc := e.cc.(stack := e.cc.stack + [items[i]]);
      i := i + 1;
    }
  }

  // ----- jumps and registers -----

  /** JMPX. */
  method ExecuteJmpX(e: Engine) returns (r: Status)
    requires Idle(e) && Typed(e) && e.vars == []
    modifies e, e.gas
    ensures Settles(e, r, ExecJmpX(old(e.State())), SiteToll(old(e.gas.State()), TopSite(old(e.State()))))
  {
    hide Jump, Set, SiteToll;
    NoToll(e.gas.State());
    r := e.FetchStack(1);
    if r.IsFailure() {
      return;
    }
    assert e.vars[0] == Top(old(e.State()), 0);
    r := JmpX(e);
  }

  /** `jmpx`: as `switch`, but what the target saved for c0 and c1 is dropped. */
  method JmpX(e: Engine) returns (r: Status)
    requires Idle(e) && |e.vars| == 1
    requires e.vars[0].ContItem? ==> |e.vars[0].cont.savelist| == NUMREGS
    modifies e, e.gas
    ensures !old(e.vars[0]).ContItem? ==> Settles(e, r, Fail(old(e.State()), TypeCheckError), Free(old(e.gas.State())))
    ensures old(e.vars[0]).ContItem? ==>
      var k := old(e.vars[0]).cont;
      Settles(e, r, Jump(old(e.State()), k.(savelist := Set(Set(k.savelist, 0, Unset), 1, Unset))),
              SiteToll(old(e.gas.State()), Pass(old(e.cc), k)))
  {
    hide PassStack, PassToll, Enter;
    ghost var st := e.Here();
    if e.vars[0].ContItem? {
      ghost var k := e.vars[0].cont;
      PassIgnoresSavelist(e.cc, k, Set(Set(k.savelist, 0, Unset), 1, Unset));
    }
    r := e.PopAll(Var(0));
    if r.IsFailure() {
      return;
    }
    r := e.Swap(Var(0), Cc);
    e.cc := e.cc.(savelist := e.cc.savelist[0 := Unset][1 := Unset]);
    ApplySavelist(e);
  }

  /** What is saved in a continuation has no influence on the stack it is passed. */
  lemma PassIgnoresSavelist(cc: Continuation, k: Continuation, saves: SaveList)
    ensures
      var t, s := PassStack(cc, k, None), PassStack(cc, k.(savelist := saves), None);
      match t
      case Moved(cc1, peer) => s == Moved(cc1, peer.(savelist := saves)) && peer.savelist == k.savelist
      case Refused(_, e) => s.Refused? && s.code == e && e != OutOfGas && e != Panic
  {}

  /** PUSHCTR. */
  method ExecutePushCtr(e: Engine, reg: nat)
    requires Idle(e) && e.vars == [] && IsRegister(reg)
    modifies e
    ensures Done(e.State()) == ExecPushCtr(old(e.State()), reg)
  {
    e.CopyToVar(Ctrl(reg));
    e.cc := e.cc.(stack := e.cc.stack + [e.vars[0]]);
  }

  /** POPCTR. */
  method ExecutePopCtr(e: Engine, reg: nat) returns (r: Status)
    requires Idle(e) && e.vars == [] && IsRegister(reg)
    modifies e
    ensures Settles(e, r, ExecPopCtr(old(e.State()), reg), Free(old(e.gas.State())))
  {
    r := e.FetchStack(1);
    if r.IsFailure() {
      return;
    }
    assert e.vars[0] == Top(old(e.State()), 0);
    ghost var slot := e.ctrls[Adjust(reg)];
    UpdateTwice(e.ctrls, Adjust(reg), slot, slot);
    r := e.SwapWithList(Ctrl(reg), 0);
  }

  /** SETCONTCTR. */
  method ExecuteSetContCtr(e: Engine, reg: nat) returns (r: Status)
    requires Idle(e) && Typed(e) && e.vars == [] && IsRegister(reg)
    modifies e
    ensures Settles(e, r, ExecSetContCtr(old(e.State()), reg), Free(old(e.gas.State())))
  {
    hide Exchange, Set, CanPut;
    r := e.FetchStack(2);
    if r.IsFailure() {
      return;
    }
    assert e.vars[0] == Top(old(e.State()), 0) && e.vars[1] == Top(old(e.State()), 1);
    if !e.vars[0].ContItem? {
      return Bad(TypeCheckError);
    }
    ValueIntoCont(e.Here(), reg);
    r := e.SwapWithList(VarSave(0, reg), 1);
    if r.IsFailure() {
      return;
    }
    e.cc := e.cc.(stack := e.cc.stack + [e.vars[0]]);
  }

  /** The effect of saving a value in a continuation. */
  lemma ValueIntoCont(st: Store, reg: nat)
    requires |st.ctrls| == NUMREGS && IsRegister(reg) && |st.vars| == 2
    requires st.vars[0].ContItem? && |st.vars[0].cont.savelist| == NUMREGS
    ensures Swappable(st, VarSave(0, reg), Var(1))
    ensures
      var k, x := st.vars[0].cont, st.vars[1];
      var slot := k.savelist[Adjust(reg)];
      if slot.Unset? && x.Null? then
        Exchange(st, VarSave(0, reg), Var(1)) == Some(st)
      else if CanPut(reg, x) then
        var k1 := k.(savelist := Set(k.savelist, Adjust(reg), Saved(x)));
        Exchange(st, VarSave(0, reg), Var(1)) == Some(st.(vars := st.vars[0 := ContItem(k1)][1 := ItemOf(slot)]))
      else Exchange(st, VarSave(0, reg), Var(1)) == None
  {
    WriteAgain(st, VarSave(0, reg), Unset, Unset);
    UpdateTwice(st.vars, 1, Null, Null);
  }

  /** The implicit end of a handler (`step_try_catch`). */
  method StepHandlerEnd(e: Engine) returns (r: Status)
    requires Idle(e) && Typed(e)
    modifies e, e.gas
    ensures Settles(e, r, StepTryCatch(old(e.State())),
            ThenSite(Tried(old(e.gas.State()), IMPLICIT_RET_PRICE), ReturnSite(old(e.State()))))
  {
    hide Return;
    var ok := e.gas.TryUseGas(IMPLICIT_RET_PRICE);
    if !ok {
      return Bad(OutOfGas);
    }
    e.ctrls := e.ctrls[2 := Unset];
    r := SwitchC0(e);
  }

  /** `step_again_loop`. */
  method StepAgainLoop(e: Engine, body: Slice)
    requires Idle(e) && (e.cc.nargs == -1 || e.cc.nargs == 0) && e.cc.typ == AgainLoopBody(body)
    modifies e
    ensures Done(e.State()) == StepAgain(old(e.State()), body)
  {
    DischargeNargs(e);
    var again := Continuation(e.cc.code, -1, EMPTY_SAVELIST, [], e.cc.typ);
    e.cc := e.cc.(code := body, typ := Ordinary);
    e.ctrls := e.ctrls[0 := SavedCont(again)];
  }

  // ----- exceptions -----

  datatype Delivery = Delivered | Ended(code: int) | NoGas

  method Deliver(e: Engine) returns (d: Delivery)
    requires |e.ctrls| == NUMREGS && e.pargs == None && |e.vars| == 1
    requires e.vars[0].ContItem? && |e.vars[0].cont.savelist| == NUMREGS
    modifies e, e.gas
    ensures
      var t := SiteToll(old(e.gas.State()), Pass(old(e.cc), old(e.vars[0]).cont));
      e.gas.State() == t.gas && (d.NoGas? <==> !t.paid)
    ensures d.Delivered? ==> Strict(Jump(old(e.State()), old(e.vars[0]).cont)) == Next(e.State())
    ensures d.Ended? ==> Strict(Jump(old(e.State()), old(e.vars[0]).cont)) == Failed(e.State(), d.code)
  {
    hide Jump;
    var r := SwitchVar(e, 0);
    match r
    case Fine => d := Delivered;
    case Bad(code) => d := if code == OutOfGas then NoGas else Ended(CodeNumber(code));
  }

  /** `raise_exception_bugfix0` for an exception other than out-of-gas. */
  method RaiseException(e: Engine, value: StackItem, code: int) returns (d: Delivery)
    requires Typed(e) && e.pargs == None && e.vars == []
    modifies e, e.gas
    ensures
      var t := RaiseToll(old(e.gas.State()), old(e.State()), value, code);
      e.gas.State() == t.gas && (d.NoGas? <==> !t.paid)
    ensures d.Delivered? ==> Raise(old(e.State()), value, code) == Next(e.State())
    ensures d.Ended? ==> Raise(old(e.State()), value, code) == Failed(e.State(), d.code)
  {
    hide Strict, Jump;
    var ok := e.gas.TryUseGas(EXCEPTION_PRICE);
    if !ok {
      return NoGas;
    }
    var c2 := e.ctrls[2];
    e.ctrls := e.ctrls[2 := Unset];
    if c2.Unset? {
      UpdateTwice(old(e.ctrls), 2, Unset, Unset);
      return Ended(code);
    }
    if c2.item.ContItem? && c2.item.cont.typ == ExcQuit {
      if code == 0 || code == 1 {
        e.vars := e.vars + [ContItem(WithType(Quit(code)))];
        e.cc := e.cc.(stack := e.cc.stack + [value]);
        e.vars := e.vars[0 := ContItem(e.vars[0].cont.(nargs := 1))];
        d := Deliver(e);
      } else {
        e.cc := e.cc.(stack := [value, Integer(Value(code))]);
        d := Ended(code);
      }
      return;
    }
    e.vars := e.vars + [c2.item];
    e.cc := e.cc.(stack := e.cc.stack + [value] + [Integer(Value(code))]);
    if !e.vars[0].ContItem? {
      return Ended(CodeNumber(TypeCheckError));
    }
    var target := e.vars[0].cont;
    if !target.typ.CatchRevert? {
      e.vars := e.vars[0 := ContItem(target.(nargs := 2))];
    }
    d := Deliver(e);
  }
}
