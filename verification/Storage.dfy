/**
 * The microcode under the instructions: addresses of continuations, registers, savelist slots
 * and instruction variables, and the moves between them, on an engine that updates in place.
 */
module Storage {
  import opened Outcomes
  import opened Values
  import opened Machine
  import opened GasMeter
  import opened Tolls
  import opened Commits

  datatype Status = Fine | Bad(code: ExceptionCode) {
    predicate IsFailure() {
      Bad?
    }

    function PropagateFailure(): Status
      requires Bad?
    {
      this
    }
  }

  datatype Address =
    | Cc
    | Ctrl(reg: nat)
    | Var(index: nat)
    | CcSave(reg: nat)
    | CtrlSave(owner: nat, reg: nat)
    | VarSave(owner: nat, reg: nat)

  /** The order in which `swap` sorts its operands. */
  function Tag(a: Address): nat {
    match a
    case Cc => 0x000
    case Ctrl(_) => 0x100
    case Var(_) => 0x300
    case CcSave(_) => 0x800
    case CtrlSave(_, _) => 0x900
    case VarSave(_, _) => 0xB00
  }

  /** Everything an address can point into. */
  datatype Store = Store(cc: Continuation, ctrls: SaveList, vars: seq<StackItem>)

  predicate IsSlot(a: Address) {
    a.Ctrl? || a.CcSave? || a.CtrlSave? || a.VarSave?
  }

  /** The register list an address points into, if there is one. */
  function ListAt(st: Store, a: Address): Option<SaveList> {
    match a
    case Ctrl(_) => Some(st.ctrls)
    case CcSave(_) => Some(st.cc.savelist)
    case CtrlSave(owner, _) =>
      var slot := At(st.ctrls, Adjust(owner));
      if IsRegister(owner) && HoldsCont(slot) then Some(slot.item.cont.savelist) else None
    case VarSave(owner, _) =>
      if owner < |st.vars| && st.vars[owner].ContItem? then Some(st.vars[owner].cont.savelist) else None
    case _ => None
  }

  /** The address names a slot of an existing list of seven. */
  predicate Resolves(st: Store, a: Address) {
    IsSlot(a) && IsRegister(a.reg) && ListAt(st, a).Some? && |ListAt(st, a).value| == NUMREGS
  }

  function SlotAt(st: Store, a: Address): Slot
    requires Resolves(st, a)
  {
    ListAt(st, a).value[Adjust(a.reg)]
  }

  /** The store with another list at an address. */
  function WithList(st: Store, a: Address, list: SaveList): (r: Store)
    requires ListAt(st, a).Some?
    ensures |r.vars| == |st.vars|
  {
    match a
    case Ctrl(_) => st.(ctrls := list)
    case CcSave(_) => st.(cc := st.cc.(savelist := list))
    case CtrlSave(owner, _) =>
      var k := At(st.ctrls, Adjust(owner)).item.cont;
      st.(ctrls := Set(st.ctrls, Adjust(owner), SavedCont(k.(savelist := list))))
    case VarSave(owner, _) => st.(vars := st.vars[owner := ContItem(st.vars[owner].cont.(savelist := list))])
  }

  function WithSlot(st: Store, a: Address, slot: Slot): (r: Store)
    requires Resolves(st, a)
    ensures |r.vars| == |st.vars|
  {
    WithList(st, a, ListAt(st, a).value[Adjust(a.reg) := slot])
  }

  /** The value an empty slot exchanges for. */
  function ItemOf(slot: Slot): StackItem {
    if slot.Saved? then slot.item else Null
  }

  /** Two different places, neither of which contains the other. */
  predicate Apart(a: Address, b: Address) {
    match (a, b)
    case (Ctrl(i), CtrlSave(owner, _)) => i != owner
    case (CtrlSave(owner, _), Ctrl(i)) => i != owner
    case (Var(i), VarSave(owner, _)) => i != owner
    case (VarSave(owner, _), Var(i)) => i != owner
    case _ => a != b
  }

  /** Writing one slot leaves every other slot and every other variable alone. */
  lemma WriteIsLocal(st: Store, a: Address, slot: Slot, b: Address)
    requires Resolves(st, a) && Apart(a, b) && |st.ctrls| == NUMREGS
    ensures Resolves(WithSlot(st, a, slot), a) && SlotAt(WithSlot(st, a, slot), a) == slot
    ensures Resolves(st, b) ==> Resolves(WithSlot(st, a, slot), b) && SlotAt(WithSlot(st, a, slot), b) == SlotAt(st, b)
    ensures b.Var? && b.index < |st.vars| ==> WithSlot(st, a, slot).vars[b.index] == st.vars[b.index]
  {}

  /** The continuation an address names as a whole. */
  function PeerAt(st: Store, a: Address): Option<Continuation> {
    match a
    case Var(i) => if i < |st.vars| && st.vars[i].ContItem? then Some(st.vars[i].cont) else None
    case Ctrl(i) =>
      if IsRegister(i) && HoldsCont(At(st.ctrls, Adjust(i))) then Some(At(st.ctrls, Adjust(i)).item.cont) else None
    case _ => None
  }

  function WithPeer(st: Store, a: Address, k: Continuation): Store
    requires PeerAt(st, a).Some?
  {
    match a
    case Var(i) => st.(vars := st.vars[i := ContItem(k)])
    case Ctrl(i) => st.(ctrls := Set(st.ctrls, Adjust(i), SavedCont(k)))
  }

  /** Operands that `swap` supports. */
  predicate Swappable(st: Store, x: Address, y: Address) {
    && |st.ctrls| == NUMREGS
    && Apart(x, y)
    && (IsSlot(x) && !x.Ctrl? ==> Resolves(st, x))
    && (IsSlot(y) && !y.Ctrl? ==> Resolves(st, y))
    && (x.Var? ==> x.index < |st.vars|) && (y.Var? ==> y.index < |st.vars|)
    && (x.Ctrl? ==> IsRegister(x.reg)) && (y.Ctrl? ==> IsRegister(y.reg))
    && (x.Cc? ==> y.Ctrl? || y.Var?) && (y.Cc? ==> x.Ctrl? || x.Var?)
  }

  /** What may be stored in a slot: an admissible value, or the absence of one. */
  predicate Storable(reg: nat, slot: Slot) {
    slot.Saved? ==> CanPut(reg, slot.item)
  }

  /** A variable holding null stands for an absent slot unless the slot has something to give. */
  function SlotFor(x: StackItem, slot: Slot): Slot {
    if slot.Unset? && x.Null? then Unset else Saved(x)
  }

  /**
   * The exchange of two places: both end up with what the other had, or nothing happens
   * because one of them does not admit it.
   */
  function Exchange(st: Store, x: Address, y: Address): Option<Store>
    requires Swappable(st, x, y)
  {
    if x.Cc? || y.Cc? then
      var peer := if x.Cc? then y else x;
      if PeerAt(st, peer).Some? then Some(WithPeer(st.(cc := PeerAt(st, peer).value), peer, st.cc)) else None
    else if IsSlot(x) && IsSlot(y) then
      var a, b := SlotAt(st, x), SlotAt(st, y);
      if Storable(x.reg, b) && Storable(y.reg, a) then
        WriteIsLocal(st, x, b, y);
        Some(WithSlot(WithSlot(st, x, b), y, a))
      else None
    else if x.Var? && y.Var? then
      Some(st.(vars := st.vars[x.index := st.vars[y.index]][y.index := st.vars[x.index]]))
    else
      var list, v := if IsSlot(x) then x else y, if IsSlot(x) then y.index else x.index;
      var slot, item := SlotAt(st, list), st.vars[v];
      if Storable(list.reg, SlotFor(item, slot)) then
        var st1 := WithSlot(st, list, SlotFor(item, slot));
        Some(st1.(vars := st1.vars[v := ItemOf(slot)]))
      else None
  }

  lemma UpdatesCommute<T>(s: seq<T>, i: nat, a: T, j: nat, b: T)
    requires i < |s| && j < |s| && i != j
    ensures s[i := a][j := b] == s[j := b][i := a]
  {}

  lemma UpdateTwice<T>(s: seq<T>, i: nat, a: T, b: T)
    requires i < |s|
    ensures s[i := a][i := b] == s[i := b] && s[i := s[i]] == s
  {}

  /** The last list written counts; writing back what is there changes nothing. */
  lemma ListTwice(st: Store, a: Address, l: SaveList, m: SaveList)
    requires ListAt(st, a).Some? && |st.ctrls| == NUMREGS && (IsSlot(a) && a.CtrlSave? ==> IsRegister(a.owner))
    ensures ListAt(WithList(st, a, l), a) == Some(l)
    ensures WithList(WithList(st, a, l), a, m) == WithList(st, a, m)
    ensures WithList(st, a, ListAt(st, a).value) == st
  {}

  /** After an exchange of two slots each holds what the other one did. */
  lemma ExchangeSwaps(st: Store, x: Address, y: Address)
    requires Swappable(st, x, y) && IsSlot(x) && IsSlot(y) && Resolves(st, x) && Resolves(st, y)
    requires Exchange(st, x, y).Some?
    ensures
      var after := Exchange(st, x, y).value;
      && Resolves(after, x) && Resolves(after, y)
      && SlotAt(after, x) == SlotAt(st, y) && SlotAt(after, y) == SlotAt(st, x)
  {
    hide WithSlot, SlotAt, Storable, PeerAt, WithPeer, Resolves;
    var a, b := SlotAt(st, x), SlotAt(st, y);
    WriteIsLocal(st, x, b, y);
    SizeStays(st, x, b);
    WriteIsLocal(WithSlot(st, x, b), y, a, x);
  }

  lemma SizeStays(st: Store, a: Address, slot: Slot)
    requires Resolves(st, a) && |st.ctrls| == NUMREGS
    ensures |WithSlot(st, a, slot).ctrls| == NUMREGS
  {}

  /** Writing back what is there changes nothing, and only the last write counts. */
  lemma WriteAgain(st: Store, a: Address, first: Slot, second: Slot)
    requires Resolves(st, a) && |st.ctrls| == NUMREGS
    ensures WithSlot(st, a, SlotAt(st, a)) == st
    ensures Resolves(WithSlot(st, a, first), a)
    ensures WithSlot(WithSlot(st, a, first), a, second) == WithSlot(st, a, second)
  {
    hide WithList;
    var list, r := ListAt(st, a).value, Adjust(a.reg);
    UpdateTwice(list, r, first, second);
    ListTwice(st, a, list[r := first], list[r := second]);
  }

  /** Two addresses of the same list. */
  predicate SameList(x: Address, y: Address) {
    match (x, y)
    case (Ctrl(_), Ctrl(_)) => true
    case (CcSave(_), CcSave(_)) => true
    case (CtrlSave(o, _), CtrlSave(q, _)) => o == q
    case (VarSave(o, _), VarSave(q, _)) => o == q
    case _ => false
  }

  lemma SameListWrites(st: Store, x: Address, a: Slot, y: Address, b: Slot)
    requires Resolves(st, x) && Resolves(st, y) && SameList(x, y) && x.reg != y.reg && |st.ctrls| == NUMREGS
    ensures Resolves(WithSlot(st, x, a), y)
    ensures WithSlot(WithSlot(st, x, a), y, b)
         == WithList(st, x, ListAt(st, x).value[Adjust(x.reg) := a][Adjust(y.reg) := b])
  {}

  lemma OtherListWrites(st: Store, x: Address, l: SaveList, y: Address, m: SaveList)
    requires ListAt(st, x).Some? && ListAt(st, y).Some? && |st.ctrls| == |l| == |m| == NUMREGS
    requires IsRegister(x.reg) && IsRegister(y.reg) && !SameList(x, y) && !x.Ctrl? && !y.Ctrl?
    ensures ListAt(WithList(st, x, l), y) == ListAt(st, y) && ListAt(WithList(st, y, m), x) == ListAt(st, x)
    ensures WithList(WithList(st, x, l), y, m) == WithList(WithList(st, y, m), x, l)
  {
    match (x, y)
    case (CtrlSave(o, _), CtrlSave(q, _)) =>
      var j, k := At(st.ctrls, Adjust(o)).item.cont, At(st.ctrls, Adjust(q)).item.cont;
      UpdatesCommute(st.ctrls, Adjust(o), SavedCont(j.(savelist := l)), Adjust(q), SavedCont(k.(savelist := m)));
    case (VarSave(o, _), VarSave(q, _)) =>
      UpdatesCommute(st.vars, o, ContItem(st.vars[o].cont.(savelist := l)), q,
          ContItem(st.vars[q].cont.(savelist := m)));
    case _ =>
  }

  /** A register and a slot inside another register's continuation. */
  lemma RegisterWrites(st: Store, i: nat, a: Slot, y: Address, b: Slot)
    requires Resolves(st, Ctrl(i)) && Resolves(st, y) && Apart(Ctrl(i), y) && !y.Ctrl? && |st.ctrls| == NUMREGS
    ensures Resolves(WithSlot(st, Ctrl(i), a), y) && Resolves(WithSlot(st, y, b), Ctrl(i))
    ensures WithSlot(WithSlot(st, Ctrl(i), a), y, b) == WithSlot(WithSlot(st, y, b), Ctrl(i), a)
  {}

  /** Writes to different slots commute. */
  lemma WritesCommute(st: Store, x: Address, a: Slot, y: Address, b: Slot)
    requires Resolves(st, x) && Resolves(st, y) && Apart(x, y) && |st.ctrls| == NUMREGS
    ensures Resolves(WithSlot(st, x, a), y) && Resolves(WithSlot(st, y, b), x)
    ensures WithSlot(WithSlot(st, x, a), y, b) == WithSlot(WithSlot(st, y, b), x, a)
  {
    hide WithList;
    WriteIsLocal(st, x, a, y);
    WriteIsLocal(st, y, b, x);
    if SameList(x, y) {
      SameListWrites(st, x, a, y, b);
      SameListWrites(st, y, b, x, a);
      UpdatesCommute(ListAt(st, x).value, Adjust(x.reg), a, Adjust(y.reg), b);
      OneList(st, x, y, ListAt(st, x).value[Adjust(x.reg) := a][Adjust(y.reg) := b]);
    } else if x.Ctrl? {
      RegisterWrites(st, x.reg, a, y, b);
    } else if y.Ctrl? {
      RegisterWrites(st, y.reg, b, x, a);
    } else {
      OtherListWrites(st, x, ListAt(st, x).value[Adjust(x.reg) := a], y, ListAt(st, y).value[Adjust(y.reg) := b]);
    }
  }

  lemma OneList(st: Store, x: Address, y: Address, list: SaveList)
    requires ListAt(st, x).Some? && SameList(x, y)
    ensures ListAt(st, x) == ListAt(st, y) && WithList(st, x, list) == WithList(st, y, list)
  {}

  /**
   * What a refused exchange leaves behind: nothing has changed, unless x could take what y had; then
   * y is empty and the value x had is gone.
   */
  function AfterRefusal(st: Store, x: Address, y: Address): Store
    requires Swappable(st, x, y)
  {
    if !IsSlot(x) || !IsSlot(y) then st else
      var b := SlotAt(st, y);
      if b.Saved? && CanPut(x.reg, b.item) then
        WriteIsLocal(st, x, b, y);
        WithSlot(WithSlot(st, x, b), y, Unset)
      else st
  }

  lemma ExchangeCommutes(st: Store, x: Address, y: Address)
    requires Swappable(st, x, y)
    ensures Swappable(st, y, x) && Exchange(st, y, x) == Exchange(st, x, y)
  {
    if IsSlot(x) && IsSlot(y) {
      WritesCommute(st, x, SlotAt(st, y), y, SlotAt(st, x));
    } else if x.Var? && y.Var? {
      UpdatesCommute(st.vars, x.index, st.vars[y.index], y.index, st.vars[x.index]);
    }
  }

  /** The same for operands that are sorted by tag first. */
  function SortedRefusal(st: Store, x: Address, y: Address): Store
    requires Swappable(st, x, y)
  {
    ExchangeCommutes(st, x, y);
    if Tag(x) > Tag(y) then AfterRefusal(st, y, x) else AfterRefusal(st, x, y)
  }

  /** Stack slots lo..hi counted from the top, moved onto the peer's stack. */
  function RangeMoved(cc: Continuation, peer: Continuation, lo: nat, hi: nat): Transfer
    requires lo <= hi
  {
    var n, depth := hi - lo, |cc.stack|;
    if peer.nargs >= 0 && n > peer.nargs then Refused(peer, StackOverflow) else
    var peer1 := if peer.nargs >= 0 then peer.(nargs := peer.nargs - n) else peer;
    if n == 0 && lo > 0 then Moved(cc, peer1)
    else if hi > depth then Refused(peer1, StackUnderflow)
    else Moved(cc.(stack := cc.stack[..depth - hi] + cc.stack[depth - lo..]),
               peer1.(stack := peer.stack + cc.stack[depth - hi..depth - lo]))
  }

  /** A peer that expects a fixed number of arguments expects fewer after a transfer. */
  function Expecting(peer: Continuation, n: nat): Continuation {
    if peer.nargs >= 0 then peer.(nargs := peer.nargs - n) else peer
  }

  lemma MoveRefused(cc: Continuation, peer: Continuation, lo: nat, hi: nat)
    requires lo <= hi
    ensures peer.nargs >= 0 && hi - lo > peer.nargs ==> RangeMoved(cc, peer, lo, hi) == Refused(peer, StackOverflow)
    ensures !(peer.nargs >= 0 && hi - lo > peer.nargs) && hi > |cc.stack| && (lo == 0 || lo < hi) ==>
      RangeMoved(cc, peer, lo, hi) == Refused(Expecting(peer, hi - lo), StackUnderflow)
  {}

  /** Handing over the whole stack to a peer without one is an exchange of stacks. */
  lemma MoveWhole(cc: Continuation, peer: Continuation)
    requires peer.stack == [] && (peer.nargs < 0 || |cc.stack| <= peer.nargs)
    ensures RangeMoved(cc, peer, 0, |cc.stack|)
         == Moved(cc.(stack := []), Expecting(peer, |cc.stack|).(stack := cc.stack))
  {}

  /** Handing over the top is a cut and an append. */
  lemma MoveTop(cc: Continuation, peer: Continuation, n: nat)
    requires n <= |cc.stack| && (peer.nargs < 0 || n <= peer.nargs)
    ensures RangeMoved(cc, peer, 0, n)
         == Moved(cc.(stack := cc.stack[..|cc.stack| - n]),
                  Expecting(peer, n).(stack := peer.stack + cc.stack[|cc.stack| - n..]))
  {}

  /** The top of a range move is what `pop_range` of the machine does. */
  lemma TopIsRange(cc: Continuation, peer: Continuation, k: nat)
    ensures k > 0 ==> RangeMoved(cc, peer, 0, k) == PassTop(cc, peer, k)
    ensures k == 0 ==> PassTop(cc, peer, k) == Moved(cc, peer)
  {}

  /** A transfer that is not refused at once moves, and pays for, the slots it asks for. */
  lemma PassByAsked(g: GasState, cc: Continuation, peer: Continuation, pargs: Option<nat>)
    ensures
      var n := Asked(cc, peer, pargs);
      if peer.nargs >= 0 && pargs.Some? && pargs.value < peer.nargs then
        PassStack(cc, peer, pargs) == Refused(peer, StackUnderflow) && PassToll(g, cc, peer, pargs) == Free(g)
      else
        && PassStack(cc, peer, pargs) == PassTop(cc, peer, n)
        && PassToll(g, cc, peer, pargs) == if n > 0 then TransferToll(g, cc, peer, n) else Free(g)
  {
    hide PassTop, TransferToll;
  }

  lemma PeerBack(st: Store, a: Address)
    requires PeerAt(st, a).Some? && |st.ctrls| == NUMREGS
    ensures WithPeer(st, a, PeerAt(st, a).value) == st
  {}

  lemma RegistersStay(st: Store, a: Address, k: Continuation)
    requires PeerAt(st, a).Some? && |st.ctrls| == NUMREGS
    ensures |WithPeer(st, a, k).ctrls| == NUMREGS && WithPeer(st, a, k).cc == st.cc
  {}

  lemma PeerAnyCc(st: Store, a: Address, cc: Continuation)
    ensures PeerAt(st.(cc := cc), a) == PeerAt(st, a)
  {}

  lemma PeerOnce(st: Store, a: Address, first: Continuation, cc: Continuation, second: Continuation)
    requires PeerAt(st, a).Some? && |st.ctrls| == NUMREGS
    ensures PeerAt(WithPeer(st, a, first), a) == Some(first)
    ensures WithPeer(WithPeer(st, a, first).(cc := cc), a, second) == WithPeer(st.(cc := cc), a, second)
  {}

  function Reverse(s: seq<StackItem>): (r: seq<StackItem>)
    ensures |r| == |s|
    ensures forall i :: 0 <= i < |s| ==> r[i] == s[|s| - 1 - i]
  {
    if s == [] then [] else Reverse(s[1..]) + [s[0]]
  }

  class Engine {
    var cc: Continuation
    var ctrls: SaveList
    var vars: seq<StackItem>
    var pargs: Option<nat>
    const gas: Gas
    const cstate: CommittedState

    constructor (cc: Continuation, ctrls: SaveList, gas: Gas)
      ensures Here() == Store(cc, ctrls, []) && pargs == None && this.gas == gas
      ensures fresh(cstate) && cstate.State() == Committed.Empty
    {
      this.cstate := new CommittedState();
      this.cc := cc;
      this.ctrls := ctrls;
      this.vars := [];
      this.pargs := None;
      this.gas := gas;
    }

    function Here(): Store
      reads this
    {
      Store(cc, ctrls, vars)
    }

    function State(): Core
      reads this
    {
      Core(cc, ctrls)
    }

    // ----- stack helpers -----

    /** `drop_range`: the removed slots come out top first. */
    method DropRange(lo: nat, hi: nat) returns (r: Result<seq<StackItem>>)
      requires lo <= hi
      modifies this
      ensures lo == hi ==> r == Ok([]) && unchanged(this)
      ensures lo < hi ==> (r.Err? <==> hi > |old(cc.stack)|)
      ensures r.Err? ==> r.code == StackUnderflow && unchanged(this)
      ensures r.Ok? && lo < hi ==> r.value == Reverse(old(cc.stack[|cc.stack| - hi..|cc.stack| - lo]))
      ensures r.Ok? && lo < hi ==>
        Here() == old(Here()).(cc := old(cc).(stack := old(cc.stack[..|cc.stack| - hi] + cc.stack[|cc.stack| - lo..])))
      ensures pargs == old(pargs)
    {
      if lo == hi {
        return Ok([]);
      }
      var depth := |cc.stack|;
      if hi > depth {
        return Err(StackUnderflow);
      }
      var drained := cc.stack[depth - hi..depth - lo];
      cc := cc.(stack := cc.stack[..depth - hi] + cc.stack[depth - lo..]);
      return Ok(Reverse(drained));
    }

    /** `drop_range_straight`: the removed slots keep their order; taking the bottom of the stack is its own path. */
    method DropRangeStraight(lo: nat, hi: nat) returns (r: Result<seq<StackItem>>)
      requires lo <= hi
      modifies this
      ensures lo == hi ==> r == Ok([]) && unchanged(this)
      ensures lo < hi ==> (r.Err? <==> hi > |old(cc.stack)|)
      ensures r.Err? ==> r.code == StackUnderflow && unchanged(this)
      ensures r.Ok? && lo < hi ==> r.value == old(cc.stack[|cc.stack| - hi..|cc.stack| - lo])
      ensures r.Ok? && lo < hi ==>
        Here() == old(Here()).(cc := old(cc).(stack := old(cc.stack[..|cc.stack| - hi] + cc.stack[|cc.stack| - lo..])))
      ensures pargs == old(pargs)
    {
      if lo == hi {
        return Ok([]);
      }
      var depth := |cc.stack|;
      if hi > depth {
        return Err(StackUnderflow);
      } else if hi == depth {
        var rem := cc.stack[depth - lo..];
        var storage := cc.stack[..depth - lo];
        assert rem == cc.stack[..depth - hi] + cc.stack[depth - lo..];
        cc := cc.(stack := rem);
        return Ok(storage);
      } else {
        var drained := cc.stack[depth - hi..depth - lo];
        cc := cc.(stack := cc.stack[..depth - hi] + cc.stack[depth - lo..]);
        return Ok(drained);
      }
    }

    // ----- passing the stack -----

    method SetPeer(a: Address, k: Continuation)
      requires PeerAt(Here(), a).Some? && |ctrls| == NUMREGS
      modifies this
      ensures Here() == WithPeer(old(Here()), a, k) && pargs == old(pargs)
    {
      match a
      case Var(i) => vars := vars[i := ContItem(k)];
      case Ctrl(i) => ctrls := ctrls[Adjust(i) := SavedCont(k)];
    }

    /** `move_stack_from_cc`: three ways to move slots, one effect. */
    method MoveStackFromCc(dst: Address, lo: nat, hi: nat) returns (r: Status)
      requires lo <= hi && PeerAt(Here(), dst).Some? && |ctrls| == NUMREGS
      modifies this
      ensures pargs == old(pargs)
      ensures
        var t := RangeMoved(old(cc), PeerAt(old(Here()), dst).value, lo, hi);
        match t
        case Moved(cc1, peer) => r == Fine && Here() == WithPeer(old(Here()).(cc := cc1), dst, peer)
        case Refused(peer, e) => r == Bad(e) && Here() == WithPeer(old(Here()), dst, peer)
    {
      hide RangeMoved, WithPeer;
      var save := hi - lo;
      var peer := PeerAt(Here(), dst).value;
      ghost var start := Here();
      PeerBack(start, dst);
      MoveRefused(cc, peer, lo, hi);
      if peer.nargs >= 0 && save > peer.nargs {
        return Bad(StackOverflow);
      }
      PeerOnce(start, dst, Expecting(peer, save), cc, Expecting(peer, save));
      SetPeer(dst, Expecting(peer, save));
      assert Here() == WithPeer(start, dst, Expecting(peer, save));
      RegistersStay(start, dst, Expecting(peer, save));
      var depth := |cc.stack|;
      if lo > 0 {
        r := MoveInner(dst, lo, hi, start);
        return;
      }
      if depth < hi {
        return Bad(StackUnderflow);
      }
      var stack;
      if peer.stack == [] && hi == depth {
        MoveWhole(cc, peer);
        stack := cc.stack;
        cc := cc.(stack := []);
      } else {
        MoveTop(cc, peer, hi);
        stack := peer.stack + cc.stack[depth - hi..];
        cc := cc.(stack := cc.stack[..depth - hi]);
      }
      PeerOnce(start, dst, Expecting(peer, save), cc, Expecting(peer, save).(stack := stack));
      PeerAnyCc(WithPeer(start, dst, Expecting(peer, save)), dst, cc);
      SetPeer(dst, Expecting(peer, save).(stack := stack));
      return Fine;
    }

    /** The general path: a range that does not start at the top. */
    method MoveInner(dst: Address, lo: nat, hi: nat, ghost start: Store) returns (r: Status)
      requires 0 < lo <= hi && |ctrls| == NUMREGS && start.cc == cc && |start.ctrls| == NUMREGS
      requires PeerAt(start, dst).Some?
      requires Here() == WithPeer(start, dst, Expecting(PeerAt(start, dst).value, hi - lo))
      requires PeerAt(start, dst).value.nargs >= 0 ==> hi - lo <= PeerAt(start, dst).value.nargs
      modifies this
      ensures pargs == old(pargs)
      ensures
        var t := RangeMoved(start.cc, PeerAt(start, dst).value, lo, hi);
        match t
        case Moved(cc1, peer) => r == Fine && Here() == WithPeer(start.(cc := cc1), dst, peer)
        case Refused(peer, e) => r == Bad(e) && Here() == WithPeer(start, dst, peer)
    {
      ghost var was := PeerAt(start, dst).value;
      PeerOnce(start, dst, Expecting(was, hi - lo), cc, Expecting(was, hi - lo));
      MoveRefused(cc, was, lo, hi);
      var peer := PeerAt(Here(), dst).value;
      var popped := DropRangeStraight(lo, hi);
      if popped.Err? {
        return Bad(popped.code);
      }
      assert peer.stack + [] == peer.stack;
      PeerOnce(start, dst, Expecting(was, hi - lo), cc, peer.(stack := peer.stack + popped.value));
      SetPeer(dst, peer.(stack := peer.stack + popped.value));
      return Fine;
    }

    /** `pop_range`: pays for the split and the join, then moves; without the gas nothing moves. */
    method PopRange(dst: Address, lo: nat, hi: nat) returns (r: Status)
      requires lo <= hi && (dst.Var? || dst.Ctrl?) && |ctrls| == NUMREGS
      modifies this, gas
      ensures pargs == old(pargs)
      ensures r == Bad(OutOfGas) ==> Here() == old(Here())
      ensures PeerAt(old(Here()), dst).None? ==>
        var n := hi - lo;
        var t := if |old(cc.stack)| > n then Tried(old(gas.State()), StackPrice(n)) else Free(old(gas.State()));
        gas.State() == t.gas && r == Bad(if t.paid then TypeCheckError else OutOfGas) && Here() == old(Here())
      ensures PeerAt(old(Here()), dst).Some? ==>
        var t := TransferToll(old(gas.State()), old(cc), PeerAt(old(Here()), dst).value, hi - lo);
        gas.State() == t.gas && (r == Bad(OutOfGas) <==> !t.paid)
      ensures PeerAt(old(Here()), dst).Some? && r != Bad(OutOfGas) ==>
        var t := RangeMoved(old(cc), PeerAt(old(Here()), dst).value, lo, hi);
        match t
        case Moved(cc1, peer) => r == Fine && Here() == WithPeer(old(Here()).(cc := cc1), dst, peer)
        case Refused(peer, e) => r == Bad(e) && Here() == WithPeer(old(Here()), dst, peer)
    {
      var save := hi - lo;
      if |cc.stack| > save {
        var ok := gas.TryUseGas(StackPrice(save));
        if !ok {
          return Bad(OutOfGas);
        }
      }
      if PeerAt(Here(), dst).None? {
        return Bad(TypeCheckError);
      }
      var depth := |PeerAt(Here(), dst).value.stack|;
      if depth != 0 && save != 0 {
        var ok := gas.TryUseGas(StackPrice(save + depth));
        if !ok {
          return Bad(OutOfGas);
        }
      }
      r := MoveStackFromCc(dst, lo, hi);
    }

    /** `pop_all`: hands over as many slots as the destination and the instruction ask for. */
    method PopAll(dst: Address) returns (r: Status)
      requires (dst.Var? || dst.Ctrl?) && |ctrls| == NUMREGS
      modifies this, gas
      ensures pargs == old(pargs)
      ensures PeerAt(old(Here()), dst).None? ==>
        r == Bad(TypeCheckError) && Here() == old(Here()) && gas.State() == old(gas.State())
      ensures r == Bad(OutOfGas) ==> Here() == old(Here())
      ensures PeerAt(old(Here()), dst).Some? ==>
        var t := PassToll(old(gas.State()), old(cc), PeerAt(old(Here()), dst).value, pargs);
        gas.State() == t.gas && (r == Bad(OutOfGas) <==> !t.paid)
      ensures r != Bad(OutOfGas) && PeerAt(old(Here()), dst).Some? ==>
        var t := PassStack(old(cc), PeerAt(old(Here()), dst).value, pargs);
        match t
        case Moved(cc1, peer) => r == Fine && Here() == WithPeer(old(Here()).(cc := cc1), dst, peer)
        case Refused(peer, e) => r == Bad(e) && Here() == WithPeer(old(Here()), dst, peer)
    {
      hide PeerAt, WithPeer, RangeMoved, PassTop, PassStack, PassToll, TransferToll;
      if PeerAt(Here(), dst).None? {
        return Bad(TypeCheckError);
      }
      var peer := PeerAt(Here(), dst).value;
      PeerBack(Here(), dst);
      PassByAsked(gas.State(), cc, peer, pargs);
      var nargs, depth := peer.nargs, |cc.stack|;
      var drop: nat;
      if nargs < 0 {
        drop := if pargs.Some? then pargs.value else depth;
      } else if pargs.Some? {
        if pargs.value < nargs {
          return Bad(StackUnderflow);
        }
        drop := pargs.value;
      } else {
        drop := nargs;
      }
      TopIsRange(cc, peer, drop);
      if drop > 0 {
        r := PopRange(dst, 0, drop);
      } else {
        r := Fine;
      }
    }

    // ----- moving values around -----

    /** `fetch_stack`: the top slots become variables, the topmost first. */
    method FetchStack(depth: nat) returns (r: Status)
      modifies this
      ensures pargs == old(pargs)
      ensures r == (if |old(cc.stack)| < depth then Bad(StackUnderflow) else Fine)
      ensures r.Bad? ==> Here() == old(Here())
      ensures r.Fine? ==>
        var below := |old(cc.stack)| - depth;
        && cc == old(cc).(stack := old(cc.stack)[..below]) && ctrls == old(ctrls)
        && vars == old(vars) + Reverse(old(cc.stack)[below..])
    {
      if |cc.stack| < depth {
        return Bad(StackUnderflow);
      }
      ghost var stack := cc.stack;
      assert stack[..|stack| - depth] + stack[|stack|..] == stack[..|stack| - depth];
      assert stack[|stack| - depth..] == stack[|stack| - depth..|stack|];
      assert stack[..|stack|] == stack && vars + [] == vars;
      var dropped := DropRange(0, depth);
      vars := vars + dropped.value;
      return Fine;
    }

    /** `copy_to_var`: a copy of cc goes without its stack, an absent register as null. */
    method CopyToVar(src: Address)
      requires src.Cc? || (src.Ctrl? && IsRegister(src.reg)) || (src.Var? && src.index < |vars|)
      modifies this
      ensures pargs == old(pargs) && cc == old(cc) && ctrls == old(ctrls)
      ensures vars == old(vars) + [match src
                                   case Cc => ContItem(old(cc).(stack := []))
                                   case Ctrl(i) => ItemOf(At(old(ctrls), Adjust(i)))
                                   case Var(i) => old(vars)[i]]
    {
      match src
      case Cc => vars := vars + [ContItem(cc.(stack := []))];
      case Ctrl(i) => vars := vars + [ItemOf(At(ctrls, Adjust(i)))];
      case Var(i) => vars := vars + [vars[i]];
    }

    method PutSlot(a: Address, slot: Slot)
      requires Resolves(Here(), a) && |ctrls| == NUMREGS
      modifies this
      ensures Here() == WithSlot(old(Here()), a, slot) && pargs == old(pargs) && |ctrls| == NUMREGS
    {
      var st := WithSlot(Here(), a, slot);
      cc, ctrls, vars := st.cc, st.ctrls, st.vars;
    }

    /** `swap_with_list`. */
    method SwapWithList(x: Address, v: nat) returns (r: Status)
      requires IsSlot(x) && Swappable(Here(), x, Var(v))
      modifies this
      ensures pargs == old(pargs)
      ensures
        match Exchange(old(Here()), x, Var(v))
        case Some(st) => r == Fine && Here() == st
        case None => r == Bad(TypeCheckError) && Here() == old(Here())
    {
      var slot, item := SlotAt(Here(), x), vars[v];
      if slot.Saved? || !item.Null? {
        if !CanPut(x.reg, item) {
          return Bad(TypeCheckError);
        }
        WriteIsLocal(Here(), x, Saved(item), Var(v));
        PutSlot(x, Saved(item));
        vars := vars[v := ItemOf(slot)];
      } else {
        WriteAgain(Here(), x, Unset, Unset);
        assert vars[v := Null] == vars;
      }
      return Fine;
    }

    /** `swap_between_lists`: it moves from y when y has something, from x otherwise. */
    method SwapBetweenLists(x: Address, y: Address) returns (r: Status)
      requires IsSlot(x) && IsSlot(y) && Swappable(Here(), x, y)
      modifies this
      ensures pargs == old(pargs)
      ensures
        match Exchange(old(Here()), x, y)
        case Some(st) => r == Fine && Here() == st
        case None => r == Bad(TypeCheckError) && Here() == AfterRefusal(old(Here()), x, y)
    {
      hide WithSlot, SlotAt, CanPut, PeerAt, WithPeer;
      var a, b := SlotAt(Here(), x), SlotAt(Here(), y);
      ghost var st := Here();
      WritesCommute(st, x, b, y, Unset);
      WritesCommute(st, x, b, y, a);
      SizeStays(st, x, b);
      WriteAgain(WithSlot(st, x, b), y, Unset, a);
      if b.Saved? {
        if !CanPut(x.reg, b.item) {
          return Bad(TypeCheckError);
        }
        PutSlot(y, Unset);
        PutSlot(x, b);
        if a.Saved? {
          if !CanPut(y.reg, a.item) {
            return Bad(TypeCheckError);
          }
          PutSlot(y, a);
        }
      } else if a.Saved? {
        if !CanPut(y.reg, a.item) {
          return Bad(TypeCheckError);
        }
        PutSlot(x, Unset);
        PutSlot(y, a);
      } else {
        WriteAgain(st, x, Unset, Unset);
        WriteAgain(st, y, Unset, Unset);
      }
      return Fine;
    }

    /** The exchange of cc with a register or a variable. */
    method SwapCc(y: Address) returns (r: Status)
      requires Swappable(Here(), Cc, y)
      modifies this
      ensures pargs == old(pargs)
      ensures
        match Exchange(old(Here()), Cc, y)
        case Some(st) => r == Fine && Here() == st
        case None => r == Bad(TypeCheckError) && Here() == old(Here())
    {
      if PeerAt(Here(), y).None? {
        return Bad(TypeCheckError);
      }
      var k := PeerAt(Here(), y).value;
      SetPeer(y, cc);
      cc := k;
      return Fine;
    }

    /** `swap`: sorts its operands by tag and exchanges them, whatever kinds they are. */
    method Swap(x: Address, y: Address) returns (r: Status)
      requires Swappable(Here(), x, y)
      modifies this
      ensures pargs == old(pargs)
      ensures
        match Exchange(old(Here()), x, y)
        case Some(st) => r == Fine && Here() == st
        case None => r == Bad(TypeCheckError) && Here() == SortedRefusal(old(Here()), x, y)
    {
      var a, b := x, y;
      if Tag(a) > Tag(b) {
        a, b := b, a;
        ExchangeCommutes(Here(), x, y);
      }
      match a
      case Cc => r := SwapCc(b);
      case Var(i) =>
        if b.Var? {
          vars := vars[i := vars[b.index]][b.index := vars[i]];
          r := Fine;
        } else {
          ExchangeCommutes(Here(), a, b);
          r := SwapWithList(b, i);
        }
      case Ctrl(_) =>
        if b.Var? {
          r := SwapWithList(a, b.index);
        } else {
          r := SwapBetweenLists(a, b);
        }
      case _ => r := SwapBetweenLists(a, b);
    }
  }
}
