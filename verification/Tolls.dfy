/** What handing over the stack costs, and exactly when and where gas runs out on the way. */
module Tolls {
  import opened Outcomes
  import opened Values
  import opened Machine
  import opened GasMeter

  /** The counter after a series of checked charges, and whether all of them were paid. */
  datatype Toll = Toll(gas: GasState, paid: bool)

  function Free(g: GasState): Toll {
    Toll(g, true)
  }

  /** `try_use_gas`. */
  function Tried(g: GasState, amount: nat): Toll {
    Toll(Charged(g, amount), Charged(g, amount).remaining >= 0)
  }

  // ----- one transfer -----

  /** The price of cutting n slots off a stack that keeps some. */
  function SplitPrice(cc: Continuation, n: nat): nat {
    if |cc.stack| > n then StackPrice(n) else 0
  }

  /** The price of putting n slots on a stack that has some. */
  function JoinPrice(peer: Continuation, n: nat): nat {
    if |peer.stack| != 0 && n != 0 then StackPrice(n + |peer.stack|) else 0
  }

  function TransferPrice(cc: Continuation, peer: Continuation, n: nat): nat {
    SplitPrice(cc, n) + JoinPrice(peer, n)
  }

  /** The split is tried only when something stays, the join only when something is there. */
  function TransferToll(g: GasState, cc: Continuation, peer: Continuation, n: nat): Toll {
    var split := if |cc.stack| > n then Tried(g, StackPrice(n)) else Free(g);
    if !split.paid then split
    else if |peer.stack| != 0 && n != 0 then Tried(split.gas, StackPrice(n + |peer.stack|))
    else split
  }

  /** How many slots `pop_all` hands over. */
  function Asked(cc: Continuation, peer: Continuation, pargs: Option<nat>): nat {
    if pargs.Some? then pargs.value else if peer.nargs < 0 then |cc.stack| else peer.nargs
  }

  /** `pop_all` pays nothing when it hands over nothing or refuses at once. */
  predicate Paying(cc: Continuation, peer: Continuation, pargs: Option<nat>) {
    Asked(cc, peer, pargs) > 0 && !(peer.nargs >= 0 && pargs.Some? && pargs.value < peer.nargs)
  }

  function PassToll(g: GasState, cc: Continuation, peer: Continuation, pargs: Option<nat>): Toll {
    if Paying(cc, peer, pargs) then TransferToll(g, cc, peer, Asked(cc, peer, pargs)) else Free(g)
  }

  function PassPrice(cc: Continuation, peer: Continuation): nat {
    if Paying(cc, peer, None) then TransferPrice(cc, peer, Asked(cc, peer, None)) else 0
  }

  // ----- where an operation hands over the stack -----

  /** The one transfer of an operation, if it comes to that. */
  datatype Site = NoPass | Pass(cc: Continuation, peer: Continuation)

  function SiteToll(g: GasState, site: Site): Toll {
    match site
    case NoPass => Free(g)
    case Pass(cc, peer) => PassToll(g, cc, peer, None)
  }

  /** A transfer after other charges. */
  function ThenSite(t: Toll, site: Site): Toll {
    if t.paid then SiteToll(t.gas, site) else t
  }

  function SitePrice(site: Site): nat {
    match site
    case NoPass => 0
    case Pass(cc, peer) => PassPrice(cc, peer)
  }

  /** A toll that is paid is the price; one that is not leaves less than nothing, and so would the price. */
  lemma TollIsPrice(g: GasState, site: Site)
    ensures
      var t, p := SiteToll(g, site), SitePrice(site);
      && (t.paid ==> t.gas == Charged(g, p) && (g.remaining >= 0 ==> t.gas.remaining >= 0))
      && (!t.paid ==> t.gas.remaining < 0 && Charged(g, p).remaining < 0)
  {}

  lemma NoToll(g: GasState)
    ensures SiteToll(g, NoPass) == Free(g)
  {}

  /** Only the stacks and the expected number of arguments matter. */
  lemma TollBySize(g: GasState, cc: Continuation, k: Continuation, cc1: Continuation, k1: Continuation)
    requires cc.stack == cc1.stack && k.stack == k1.stack && k.nargs == k1.nargs
    ensures SiteToll(g, Pass(cc, k)) == SiteToll(g, Pass(cc1, k1))
  {}

  function RegisterSite(core: Core, i: nat): Site {
    if HoldsCont(At(core.ctrls, i)) then Pass(core.cc, At(core.ctrls, i).item.cont) else NoPass
  }

  function ReturnSite(core: Core): Site {
    RegisterSite(core, 0)
  }

  function ReturnAltSite(core: Core): Site {
    RegisterSite(core, 1)
  }

  function TrySite(core: Core): Site {
    if |core.cc.stack| >= 2 && Top(core, 0).ContItem? && Top(core, 1).ContItem?
    then Pass(Pop(core, 2).cc, Top(core, 1).cont) else NoPass
  }

  function RepeatSite(core: Core): Site {
    if |core.cc.stack| >= 2 && Top(core, 0).ContItem? && Top(core, 1).Integer? && Top(core, 1).data.Value?
       && 0 < Top(core, 1).data.v <= 0x7FFFFFFF
    then Pass(Pop(core, 2).cc, Top(core, 0).cont) else NoPass
  }

  function WhileSite(core: Core): Site {
    TrySite(core)
  }

  /** UNTIL, AGAIN, CALLX and JMPX pass the stack to the continuation on top of it. */
  function TopSite(core: Core): Site {
    if |core.cc.stack| >= 1 && Top(core, 0).ContItem? then Pass(Pop(core, 1).cc, Top(core, 0).cont) else NoPass
  }

  function ExecuteSite(core: Core, instr: Instr): Site {
    match instr
    case Try => TrySite(core)
    case TryKeep => TrySite(core)
    case Repeat => RepeatSite(core)
    case While => WhileSite(core)
    case Until => TopSite(core)
    case Again => TopSite(core)
    case CallX => TopSite(core)
    case JmpX => TopSite(core)
    case Ret => ReturnSite(core)
    case RetAlt => ReturnAltSite(core)
    case _ => NoPass
  }

  function WhileStepSite(core: Core): Site {
    if |core.cc.stack| >= 1 && Top(core, 0) == ZERO then ReturnSite(Pop(core, 1)) else NoPass
  }

  function UntilStepSite(core: Core): Site {
    if |core.cc.stack| >= 1 && Top(core, 0).Integer? && Top(core, 0) != ZERO then ReturnSite(Pop(core, 1)) else NoPass
  }

  function RevertSite(core: Core, depth: nat): Site {
    if |core.cc.stack| >= 2 && |core.cc.stack| - 2 >= depth then
      ReturnSite(core.(cc := core.cc.(stack := Pop(core, 2).cc.stack[..depth] + [Top(core, 1), Top(core, 0)])))
    else NoPass
  }

  function SpecialSite(core: Core): Site {
    match core.cc.typ
    case PushInt(n) => ReturnSite(Push(core, Integer(Value(n))))
    case TryCatch => ReturnSite(core)
    case CatchRevert(depth) => RevertSite(core, depth)
    case WhileLoopCondition(_, _) => WhileStepSite(core)
    case RepeatLoopBody(_, counter) => if counter > 1 then NoPass else ReturnSite(core)
    case UntilLoopCondition(_) => UntilStepSite(core)
    case _ => NoPass
  }

  /** Delivering an exception passes the stack to the handler, or the value to a quit. */
  function RaiseSite(core: Core, value: StackItem, code: int): Site {
    var c2 := At(core.ctrls, 2);
    if !HoldsCont(c2) then NoPass
    else if c2.item.cont.typ == ExcQuit then
      if code == 0 || code == 1 then Pass(Push(core, value).cc, WithType(Quit(code)).(nargs := 1)) else NoPass
    else
      Pass(Push(Push(core, value), Integer(Value(code))).cc,
           if c2.item.cont.typ.CatchRevert? then c2.item.cont else c2.item.cont.(nargs := 2))
  }

  /** The exception itself is paid for first. */
  function RaiseToll(g: GasState, core: Core, value: StackItem, code: int): Toll {
    ThenSite(Tried(g, EXCEPTION_PRICE), RaiseSite(core, value, code))
  }

  function RaisePrice(core: Core, value: StackItem, code: int): nat {
    EXCEPTION_PRICE + SitePrice(RaiseSite(core, value, code))
  }
}
