/**
 * Loading cells through the engine's caches: resolving library references and Merkle cells,
 * remembering the outcome, and charging 100 for a first load and 25 for a repeat.
 */
module CellCache {
  import opened Outcomes
  import opened GasMeter

  datatype Item =
    | Ordinary(payload: nat)
    | LibraryReference(target: nat)
    | MerkleProof(claimed: nat, child: Item)
    | MerkleUpdate(oldClaimed: nat, oldChild: Item, newClaimed: nat, newChild: Item)
    | Pruned(payload: nat)

  /** The representation hash, the libraries and the enabled capabilities. */
  datatype World = World(hash: Item -> nat, libraries: seq<map<nat, Item>>, setLibCode: bool, resolveMerkle: bool)

  const LOAD_PRICE: nat := 100
  const RELOAD_PRICE: nat := 25

  /** Different cells have different hashes. */
  ghost predicate Injective(w: World) {
    forall a: Item, b: Item :: w.hash(a) == w.hash(b) ==> a == b
  }

  // ----- resolution without caches -----

  function Lookup(libraries: seq<map<nat, Item>>, h: nat): Option<Item> {
    if libraries == [] then None
    else if h in libraries[0] then Some(libraries[0][h])
    else Lookup(libraries[1..], h)
  }

  /** The cell an exotic cell stands for. */
  function Hop(w: World, c: Item): Result<Item> {
    match c
    case LibraryReference(h) =>
      if !w.setLibCode then Err(InvalidOpcode) else
        (match Lookup(w.libraries, h)
         case None => Err(CellUnderflow)
         case Some(lib) => if w.hash(lib) != h then Err(DictionaryError) else Ok(lib))
    case MerkleProof(claimed, child) =>
      if !w.resolveMerkle || w.hash(child) != claimed then Err(CellUnderflow) else Ok(child)
    case MerkleUpdate(oldClaimed, oldChild, newClaimed, newChild) =>
      if !w.resolveMerkle || w.hash(oldChild) != oldClaimed || w.hash(newChild) != newClaimed then Err(CellUnderflow)
      else Ok(newChild)
    case _ => Err(CellUnderflow)
  }

  datatype Resolution = Found(cell: Item) | Broken(code: ExceptionCode) | Pending

  /** Hops until an ordinary cell, at most n of them. */
  function Resolve(w: World, c: Item, n: nat): Resolution
    decreases n
  {
    if c.Ordinary? then Found(c)
    else if n == 0 then Pending
    else
      match Hop(w, c)
      case Err(e) => Broken(e)
      case Ok(d) => Resolve(w, d, n - 1)
  }

  /** Resolution of c comes to an end with r. */
  ghost predicate Ends(w: World, c: Item, r: Resolution) {
    !r.Pending? && exists n: nat :: Resolve(w, c, n) == r
  }

  lemma {:induction false} ResolveStays(w: World, c: Item, m: nat, n: nat)
    requires m <= n && !Resolve(w, c, m).Pending?
    ensures Resolve(w, c, n) == Resolve(w, c, m)
    decreases m
  {
    if !c.Ordinary? && Hop(w, c).Ok? {
      ResolveStays(w, Hop(w, c).value, m - 1, n - 1);
    }
  }

  /** A cell resolves in one way only. */
  lemma EndsOnce(w: World, c: Item, r: Resolution, s: Resolution)
    requires Ends(w, c, r) && Ends(w, c, s)
    ensures r == s
  {
    var m: nat :| Resolve(w, c, m) == r;
    var n: nat :| Resolve(w, c, n) == s;
    if m <= n {
      ResolveStays(w, c, m, n);
    } else {
      ResolveStays(w, c, n, m);
    }
  }

  lemma EndsAfterHop(w: World, c: Item, d: Item, r: Resolution)
    requires !c.Ordinary? && Hop(w, c) == Ok(d) && Ends(w, d, r)
    ensures Ends(w, c, r)
  {
    var n: nat :| Resolve(w, d, n) == r;
    assert Resolve(w, c, n + 1) == r;
  }

  lemma EndsAtOnce(w: World, c: Item)
    ensures c.Ordinary? ==> Ends(w, c, Found(c))
    ensures !c.Ordinary? && Hop(w, c).Err? ==> Ends(w, c, Broken(Hop(w, c).code))
  {
    if c.Ordinary? {
      assert Resolve(w, c, 0) == Found(c);
    } else if Hop(w, c).Err? {
      assert Resolve(w, c, 1) == Broken(Hop(w, c).code);
    }
  }

  // ----- what an exotic cell stands for, kind by kind -----

  /** The first library that knows the hash gives this cell. */
  ghost predicate FirstLibraryGives(libraries: seq<map<nat, Item>>, h: nat, d: Item) {
    exists i ::
      && 0 <= i < |libraries| && h in libraries[i] && libraries[i][h] == d
      && forall k :: 0 <= k < i ==> h !in libraries[k]
  }

  ghost predicate NoLibraryGives(libraries: seq<map<nat, Item>>, h: nat) {
    forall i :: 0 <= i < |libraries| ==> h !in libraries[i]
  }

  /** The cell stands for d: the child of a proof, the new child of an update, the library of a reference. */
  ghost predicate StandsFor(w: World, c: Item, d: Item) {
    match c
    case MerkleProof(claimed, child) => w.resolveMerkle && w.hash(child) == claimed && d == child
    case MerkleUpdate(oldClaimed, oldChild, newClaimed, newChild) =>
      w.resolveMerkle && w.hash(oldChild) == oldClaimed && w.hash(newChild) == newClaimed && d == newChild
    case LibraryReference(h) => w.setLibCode && FirstLibraryGives(w.libraries, h, d) && w.hash(d) == h
    case _ => false
  }

  /** The cell stands for nothing, and this is the error. */
  ghost predicate StandsForNothing(w: World, c: Item, e: ExceptionCode) {
    match c
    case MerkleProof(claimed, child) => e == CellUnderflow && (w.resolveMerkle ==> w.hash(child) != claimed)
    case MerkleUpdate(oldClaimed, oldChild, newClaimed, newChild) =>
      e == CellUnderflow
      && (w.resolveMerkle ==> w.hash(oldChild) != oldClaimed || w.hash(newChild) != newClaimed)
    case LibraryReference(h) =>
      if !w.setLibCode then e == InvalidOpcode
      else if NoLibraryGives(w.libraries, h) then e == CellUnderflow
      else e == DictionaryError && exists d :: FirstLibraryGives(w.libraries, h, d) && w.hash(d) != h
    case Pruned(_) => e == CellUnderflow
    case Ordinary(_) => false
  }

  lemma {:induction false} LookupIsFirst(libraries: seq<map<nat, Item>>, h: nat)
    ensures Lookup(libraries, h).None? <==> NoLibraryGives(libraries, h)
    ensures forall d :: Lookup(libraries, h) == Some(d) <==> FirstLibraryGives(libraries, h, d)
    decreases |libraries|
  {
    if libraries != [] {
      var rest := libraries[1..];
      LookupIsFirst(rest, h);
      assert forall i :: 0 <= i < |rest| ==> rest[i] == libraries[i + 1];
      if h in libraries[0] {
        assert FirstLibraryGives(libraries, h, libraries[0][h]);
      } else {
        forall d ensures FirstLibraryGives(libraries, h, d) <==> FirstLibraryGives(rest, h, d) {
          LaterLibrary(libraries, h, d);
        }
      }
    }
  }

  lemma LaterLibrary(libraries: seq<map<nat, Item>>, h: nat, d: Item)
    requires libraries != [] && h !in libraries[0]
    ensures FirstLibraryGives(libraries, h, d) <==> FirstLibraryGives(libraries[1..], h, d)
  {
    var rest := libraries[1..];
    assert forall i :: 0 <= i < |rest| ==> rest[i] == libraries[i + 1];
    if FirstLibraryGives(rest, h, d) {
      var i :| 0 <= i < |rest| && h in rest[i] && rest[i][h] == d && forall k :: 0 <= k < i ==> h !in rest[k];
      assert libraries[i + 1][h] == d;
      assert forall k :: 0 <= k < i + 1 ==> h !in libraries[k];
    }
    if FirstLibraryGives(libraries, h, d) {
      var i :| 0 <= i < |libraries| && h in libraries[i] && libraries[i][h] == d
               && forall k :: 0 <= k < i ==> h !in libraries[k];
      assert rest[i - 1][h] == d;
      assert forall k :: 0 <= k < i - 1 ==> h !in rest[k];
    }
  }

  /** A hop leads exactly where the kind of the cell says. */
  lemma HopIsKind(w: World, c: Item)
    requires !c.Ordinary?
    ensures forall d :: Hop(w, c) == Ok(d) <==> StandsFor(w, c, d)
    ensures forall e :: Hop(w, c) == Err(e) <==> StandsForNothing(w, c, e)
  {
    hide FirstLibraryGives, NoLibraryGives;
    if c.LibraryReference? {
      LookupIsFirst(w.libraries, c.target);
    }
  }

  /** Without caches every cell reads as itself, as the cell it stands for, or not at all. */
  lemma EndsByKind(w: World, c: Item, r: Resolution)
    ensures c.Ordinary? ==> (Ends(w, c, r) <==> r == Found(c))
    ensures forall d :: StandsFor(w, c, d) ==> (Ends(w, c, r) <==> Ends(w, d, r))
    ensures forall e :: StandsForNothing(w, c, e) ==> (Ends(w, c, r) <==> r == Broken(e))
    ensures c.Ordinary? || (exists d :: StandsFor(w, c, d)) || (exists e :: StandsForNothing(w, c, e))
  {
    hide Hop, StandsFor, StandsForNothing, Ends;
    NothingOrdinary(w, c);
    EndsAtOnce(w, c);
    if c.Ordinary? {
      if Ends(w, c, r) {
        EndsOnce(w, c, r, Found(c));
      }
    } else {
      HopIsKind(w, c);
      if Hop(w, c).Err? {
        if Ends(w, c, r) {
          EndsOnce(w, c, r, Broken(Hop(w, c).code));
        }
      } else {
        var d := Hop(w, c).value;
        if Ends(w, d, r) {
          EndsAfterHop(w, c, d, r);
        }
        if Ends(w, c, r) {
          EndsBeforeHop(w, c, d, r);
        }
      }
    }
  }

  lemma NothingOrdinary(w: World, c: Item)
    ensures c.Ordinary? ==> forall d :: !StandsFor(w, c, d)
    ensures c.Ordinary? ==> forall e :: !StandsForNothing(w, c, e)
  {}

  lemma EndsBeforeHop(w: World, c: Item, d: Item, r: Resolution)
    requires !c.Ordinary? && Hop(w, c) == Ok(d) && Ends(w, c, r)
    ensures Ends(w, d, r)
  {
    var n: nat :| Resolve(w, c, n) == r;
    assert Resolve(w, d, n - 1) == r;
  }

  /** What comes after position i of a trail. */
  function Following(trail: seq<Item>, end: Item, i: nat): Item {
    if i + 1 < |trail| then trail[i + 1] else end
  }

  /** A chain of exotic cells, each hopping to the next and the last one to `end`. */
  predicate Trail(w: World, trail: seq<Item>, end: Item) {
    forall i :: 0 <= i < |trail| ==> !trail[i].Ordinary? && Hop(w, trail[i]) == Ok(Following(trail, end, i))
  }

  lemma {:induction false} TrailEnds(w: World, trail: seq<Item>, end: Item, i: nat, r: Resolution)
    requires Trail(w, trail, end) && i < |trail| && Ends(w, end, r)
    ensures Ends(w, trail[i], r)
    decreases |trail| - i
  {
    if i + 1 < |trail| {
      TrailEnds(w, trail, end, i + 1, r);
      EndsAfterHop(w, trail[i], trail[i + 1], r);
    } else {
      EndsAfterHop(w, trail[i], end, r);
    }
  }

  // ----- the caches -----

  /** Every remembered hash belongs to a cell that resolves to the remembered one. */
  ghost predicate Coherent(w: World, exotic: map<nat, Item>) {
    forall c: Item :: !c.Ordinary? && w.hash(c) in exotic ==> Ends(w, c, Found(exotic[w.hash(c)]))
  }

  /** A load ends where it starts, or at the first ordinary cell. */
  predicate Plain(resolveSpecial: bool, c: Item) {
    !resolveSpecial || c.Ordinary?
  }

  /** The way from a cell to where its load stops: exotic cells that are resolved, none of them cached. */
  predicate Walk(w: World, exotic: map<nat, Item>, resolveSpecial: bool, cell: Item, trail: seq<Item>, end: Item) {
    && Trail(w, trail, end)
    && (if trail == [] then end == cell else resolveSpecial && trail[0] == cell)
    && forall i :: 0 <= i < |trail| ==> w.hash(trail[i]) !in exotic
  }

  /** What a hop costs: a cell type that cannot be resolved fails for free. */
  function HopPrice(w: World, c: Item): nat {
    if c.LibraryReference? || ((c.MerkleProof? || c.MerkleUpdate?) && w.resolveMerkle) then LOAD_PRICE else 0
  }

  /** What the last cell of a load costs. */
  function LastPrice(w: World, visited: set<nat>, exotic: map<nat, Item>, resolveSpecial: bool, end: Item): nat {
    if Plain(resolveSpecial, end) then (if w.hash(end) in visited then RELOAD_PRICE else LOAD_PRICE)
    else if w.hash(end) in exotic then RELOAD_PRICE
    else HopPrice(w, end)
  }

  /** What the last cell of a load gives. */
  function Verdict(w: World, exotic: map<nat, Item>, resolveSpecial: bool, end: Item): Result<Item> {
    if Plain(resolveSpecial, end) then Ok(end)
    else if w.hash(end) in exotic then Ok(exotic[w.hash(end)])
    else Hop(w, end)
  }

  /** The cache with an outcome for every cell of a trail. */
  function Noted(w: World, exotic: map<nat, Item>, trail: seq<Item>, cell: Item): map<nat, Item> {
    if trail == [] then exotic
    else Noted(w, exotic, trail[..|trail| - 1], cell)[w.hash(trail[|trail| - 1]) := cell]
  }

  lemma {:induction false} NotedHolds(w: World, exotic: map<nat, Item>, trail: seq<Item>, cell: Item, i: nat)
    requires i < |trail|
    ensures w.hash(trail[i]) in Noted(w, exotic, trail, cell)
    ensures Noted(w, exotic, trail, cell)[w.hash(trail[i])] == cell
  {
    if i < |trail| - 1 {
      NotedHolds(w, exotic, trail[..|trail| - 1], cell, i);
    }
  }

  lemma EmptyTrail(w: World, exotic: map<nat, Item>, c: Item)
    ensures Trail(w, [], c) && Noted(w, exotic, [], c) == exotic
  {}

  lemma ExtendTrail(w: World, trail: seq<Item>, current: Item, next: Item)
    requires Trail(w, trail, current) && !current.Ordinary? && Hop(w, current) == Ok(next)
    ensures Trail(w, trail + [current], next)
  {}

  lemma CachedEnds(w: World, exotic: map<nat, Item>, c: Item)
    requires Coherent(w, exotic) && !c.Ordinary? && w.hash(c) in exotic
    ensures Ends(w, c, Found(exotic[w.hash(c)]))
  {}

  /** A cell resolves as the end of its walk does. */
  lemma WalkEnds(w: World, exotic: map<nat, Item>, cell: Item, trail: seq<Item>, end: Item, r: Resolution)
    requires Walk(w, exotic, true, cell, trail, end) && Ends(w, end, r)
    ensures Ends(w, cell, r)
  {
    hide Trail, Ends;
    if trail != [] {
      TrailEnds(w, trail, end, 0, r);
    }
  }

  class Loader {
    const world: World
    const gas: Gas
    var visited: set<nat>
    var exotic: map<nat, Item>

    constructor (world: World, gas: Gas)
      ensures this.world == world && this.gas == gas && visited == {} && exotic == map[]
      ensures Coherent(world, exotic)
    {
      this.world := world;
      this.gas := gas;
      visited := {};
      exotic := map[];
    }

    /** An ordinary load: 100 the first time, 25 after that. */
    method LoadPlain(cell: Item) returns (r: Result<Item>)
      modifies this, gas
      ensures exotic == old(exotic)
      ensures
        var price := if world.hash(cell) in old(visited) then RELOAD_PRICE else LOAD_PRICE;
        && gas.State() == Charged(old(gas.State()), price)
        && r == (if gas.remaining >= 0 then Ok(cell) else Err(OutOfGas))
      ensures visited == if r.Ok? then old(visited) + {world.hash(cell)} else old(visited)
    {
      var hash := world.hash(cell);
      if hash in visited {
        var ok := gas.TryUseGas(RELOAD_PRICE);
        if !ok {
          return Err(OutOfGas);
        }
      } else {
        var ok := gas.TryUseGas(LOAD_PRICE);
        if !ok {
          return Err(OutOfGas);
        }
        visited := visited + {hash};
      }
      return Ok(cell);
    }

    /** Remembers the outcome for every cell on the way. */
    method Remember(hashes: seq<nat>, cell: Item, ghost trail: seq<Item>, ghost end: Item)
      requires Injective(world) && Coherent(world, exotic)
      requires |hashes| == |trail| && forall i :: 0 <= i < |trail| ==> hashes[i] == world.hash(trail[i])
      requires Trail(world, trail, end) && Ends(world, end, Found(cell))
      modifies this
      ensures Coherent(world, exotic) && visited == old(visited)
      ensures exotic == Noted(world, old(exotic), trail, cell)
    {
      hide Ends, Trail;
      var i := 0;
      while i < |hashes|
        invariant 0 <= i <= |hashes| && visited == old(visited)
        invariant Coherent(world, exotic) && exotic == Noted(world, old(exotic), trail[..i], cell)
      {
        TrailEnds(world, trail, end, i, Found(cell));
        assert trail[..i + 1][..i] == trail[..i];
        exotic := exotic[hashes[i] := cell];
        i := i + 1;
      }
      assert trail[..i] == trail;
    }

    /**
     * `load_hashed_cell`. The load passes the exotic cells of `trail`, none of them cached, and
     * stops at `end`. Whatever the caches hold, the result is the uncached resolution, or its
     * failure, unless gas runs out. The price, the verdict and both caches are exact.
     */
    method LoadHashedCell(cell: Item, resolveSpecial: bool)
      returns (r: Result<Item>, ghost trail: seq<Item>, ghost end: Item)
      requires Injective(world) && Coherent(world, exotic)
      modifies this, gas
      ensures Coherent(world, exotic)
      ensures resolveSpecial && r.Ok? ==> Ends(world, cell, Found(r.value))
      ensures resolveSpecial && r.Err? && r.code != OutOfGas ==> Ends(world, cell, Broken(r.code))
      ensures Walk(world, old(exotic), resolveSpecial, cell, trail, end)
      ensures trail != [] ==> LOAD_PRICE * |trail| <= old(gas.remaining)
      ensures r.Ok? ==> Plain(resolveSpecial, end) || world.hash(end) in old(exotic)
      ensures
        var last := LastPrice(world, old(visited), old(exotic), resolveSpecial, end);
        && gas.State() == Charged(old(gas.State()), LOAD_PRICE * |trail| + last)
        && r == if last > 0 && gas.remaining < 0 then Err(OutOfGas)
                else Verdict(world, old(exotic), resolveSpecial, end)
      ensures visited ==
        if r.Ok? && Plain(resolveSpecial, end) then old(visited) + {world.hash(end)} else old(visited)
      ensures exotic == if r.Ok? then Noted(world, old(exotic), trail, r.value) else old(exotic)
    {
      hide Resolve, Hop, HopPrice, Ends, Trail, Coherent, Injective, Noted;
      trail, end := [], cell;
      EmptyTrail(world, exotic, cell);
      if !resolveSpecial || cell.Ordinary? {
        EndsAtOnce(world, cell);
        r := LoadPlain(cell);
        return;
      }
      var current := cell;
      var previous: seq<nat> := [];
      while !current.Ordinary?
        invariant Walk(world, exotic, resolveSpecial, cell, trail, end) && end == current
        invariant |previous| == |trail| && forall i :: 0 <= i < |trail| ==> previous[i] == world.hash(trail[i])
        invariant gas.State() == Charged(old(gas.State()), LOAD_PRICE * |trail|)
        invariant trail != [] ==> gas.remaining >= 0
        invariant unchanged(this)
        decreases if trail == [] then 1 else 0, gas.remaining
      {
        var hash := world.hash(current);
        if hash in exotic {
          var slice := exotic[hash];
          CachedEnds(world, exotic, current);
          WalkEnds(world, exotic, cell, trail, end, Found(slice));
          var ok := gas.TryUseGas(RELOAD_PRICE);
          if !ok {
            return Err(OutOfGas), trail, end;
          }
          Remember(previous, slice, trail, current);
          return Ok(slice), trail, end;
        }
        EndsAtOnce(world, current);
        r := Step(current);
        if r.Err? {
          if r.code != OutOfGas {
            WalkEnds(world, exotic, cell, trail, end, Broken(r.code));
          }
          return;
        }
        previous := previous + [hash];
        ExtendTrail(world, trail, current, r.value);
        trail, end := trail + [current], r.value;
        current := r.value;
      }
      EndsAtOnce(world, current);
      WalkEnds(world, exotic, cell, trail, end, Found(current));
      r := LoadPlain(current);
      if r.Ok? {
        Remember(previous, current, trail, current);
      }
    }

    /** One hop: a cell type that can be resolved is paid for before it is checked. */
    method Step(c: Item) returns (r: Result<Item>)
      requires !c.Ordinary?
      modifies gas
      ensures gas.State() == Charged(old(gas.State()), HopPrice(world, c))
      ensures r == if HopPrice(world, c) > 0 && gas.remaining < 0 then Err(OutOfGas) else Hop(world, c)
      ensures r.Ok? ==> HopPrice(world, c) == LOAD_PRICE
      ensures Hop(world, c) != Err(OutOfGas)
    {
      if c.LibraryReference? || ((c.MerkleProof? || c.MerkleUpdate?) && world.resolveMerkle) {
        var ok := gas.TryUseGas(LOAD_PRICE);
        if !ok {
          return Err(OutOfGas);
        }
      }
      return Hop(world, c);
    }

    /** A cell that has been loaded loads again for 25 and with the same result, unless gas runs out. */
    method LoadTwice(cell: Item, resolveSpecial: bool)
      returns (first: Result<Item>, second: Result<Item>, ghost between: GasState)
      requires Injective(world) && Coherent(world, exotic)
      modifies this, gas
      ensures Coherent(world, exotic)
      ensures first.Ok? ==>
        && gas.State() == Charged(between, RELOAD_PRICE)
        && second == if gas.remaining < 0 then Err(OutOfGas) else first
    {
      hide Ends, Hop, Coherent, Injective;
      ghost var trail, end;
      first, trail, end := LoadHashedCell(cell, resolveSpecial);
      if first.Ok? && trail != [] {
        NotedHolds(world, old(exotic), trail, first.value, 0);
      }
      between := gas.State();
      second, trail, end := LoadHashedCell(cell, resolveSpecial);
    }
  }

  // ----- what a sequence of loads comes to -----

  datatype Request = Request(cell: Item, resolveSpecial: bool)

  /** Where a load stops: at a cell that is read as it is, is cached, or cannot be resolved. */
  predicate Stops(w: World, exotic: map<nat, Item>, resolveSpecial: bool, c: Item) {
    Plain(resolveSpecial, c) || w.hash(c) in exotic || Hop(w, c).Err?
  }

  datatype Way = Endless | Way(trail: seq<Item>, end: Item)

  function Behind(c: Item, way: Way): Way {
    if way.Endless? then Endless else Way([c] + way.trail, way.end)
  }

  /** The exotic cells a load passes and the cell it stops at, if that takes at most n hops; no gas involved. */
  function Route(w: World, exotic: map<nat, Item>, resolveSpecial: bool, c: Item, n: nat): Way
    decreases n
  {
    if Stops(w, exotic, resolveSpecial, c) then Way([], c)
    else if n == 0 then Endless
    else Behind(c, Route(w, exotic, resolveSpecial, Hop(w, c).value, n - 1))
  }

  /** The price of a load that goes this way. */
  function WayPrice(w: World, visited: set<nat>, exotic: map<nat, Item>, resolveSpecial: bool, way: Way): nat
    requires way.Way?
  {
    LOAD_PRICE * |way.trail| + LastPrice(w, visited, exotic, resolveSpecial, way.end)
  }

  function NowVisited(w: World, visited: set<nat>, resolveSpecial: bool, end: Item): set<nat> {
    if Plain(resolveSpecial, end) then visited + {w.hash(end)} else visited
  }

  datatype Bill = Open | Bill(price: nat, verdict: Result<seq<Item>>)

  /** A load of one item before the rest. */
  function Atop(price: nat, item: Item, rest: Bill): Bill {
    if rest.Open? then Open
    else Bill(price + rest.price, if rest.verdict.Ok? then Ok([item] + rest.verdict.value) else rest.verdict)
  }

  /**
   * What a sequence of loads comes to if it is paid: the total price and either all items or the
   * first failure. It is open if some load takes more than n hops. Gas does not enter into it.
   */
  function BillOf(w: World, visited: set<nat>, exotic: map<nat, Item>, requests: seq<Request>, n: nat): Bill
    decreases |requests|
  {
    if requests == [] then Bill(0, Ok([])) else
      var Request(cell, resolveSpecial) := requests[0];
      var way := Route(w, exotic, resolveSpecial, cell, n);
      if way.Endless? then Open else
        var price := WayPrice(w, visited, exotic, resolveSpecial, way);
        match Verdict(w, exotic, resolveSpecial, way.end)
        case Err(code) => Bill(price, Err(code))
        case Ok(item) =>
          Atop(price, item, BillOf(w, NowVisited(w, visited, resolveSpecial, way.end),
                                   Noted(w, exotic, way.trail, item), requests[1..], n))
  }

  function Past(trail: seq<Item>, way: Way): Way {
    if way.Endless? then Endless else Way(trail + way.trail, way.end)
  }

  /** Along a walk the route stays the route. */
  lemma {:induction false} RouteAlong(w: World, exotic: map<nat, Item>, resolveSpecial: bool, cell: Item,
      trail: seq<Item>, end: Item, n: nat)
    requires Walk(w, exotic, resolveSpecial, cell, trail, end) && |trail| <= n
    ensures Route(w, exotic, resolveSpecial, cell, n)
         == Past(trail, Route(w, exotic, resolveSpecial, end, n - |trail|))
    decreases |trail|
  {
    hide Hop, Trail, Past, Behind;
    var rest := Route(w, exotic, resolveSpecial, end, n - |trail|);
    PastTrail(trail, rest);
    if trail != [] {
      WalkOn(w, exotic, cell, trail, end);
      RouteAlong(w, exotic, resolveSpecial, Following(trail, end, 0), trail[1..], end, n - 1);
    }
  }

  lemma PastTrail(trail: seq<Item>, way: Way)
    ensures trail == [] ==> Past(trail, way) == way
    ensures trail != [] ==> Past(trail, way) == Behind(trail[0], Past(trail[1..], way))
  {
    if way.Way? {
      assert trail == [] ==> trail + way.trail == way.trail;
      assert trail != [] ==> trail + way.trail == [trail[0]] + (trail[1..] + way.trail);
    }
  }

  lemma WalkOn(w: World, exotic: map<nat, Item>, cell: Item, trail: seq<Item>, end: Item)
    requires Walk(w, exotic, true, cell, trail, end) && trail != []
    ensures !Stops(w, exotic, true, cell) && Hop(w, cell) == Ok(Following(trail, end, 0))
    ensures Walk(w, exotic, true, Following(trail, end, 0), trail[1..], end)
  {
    hide Hop;
    forall i | 0 <= i < |trail[1..]|
      ensures !trail[1..][i].Ordinary? && Hop(w, trail[1..][i]) == Ok(Following(trail[1..], end, i))
    {
      assert trail[1..][i] == trail[i + 1];
      assert Following(trail[1..], end, i) == Following(trail, end, i + 1);
    }
  }

  /** A load whose walk stops has gone its route. */
  lemma WalkIsRoute(w: World, exotic: map<nat, Item>, resolveSpecial: bool, cell: Item, trail: seq<Item>, end: Item,
      n: nat)
    requires Walk(w, exotic, resolveSpecial, cell, trail, end) && |trail| <= n
    requires Stops(w, exotic, resolveSpecial, end)
    ensures Route(w, exotic, resolveSpecial, cell, n) == Way(trail, end)
  {
    hide Hop, Trail;
    RouteAlong(w, exotic, resolveSpecial, cell, trail, end, n);
    assert trail + [] == trail;
  }

  /** A walk that has not come to its stop has not cost more than the whole route. */
  lemma RouteCostsMore(w: World, visited: set<nat>, exotic: map<nat, Item>, resolveSpecial: bool, cell: Item,
      trail: seq<Item>, end: Item, n: nat)
    requires Walk(w, exotic, resolveSpecial, cell, trail, end)
    ensures
      var way := Route(w, exotic, resolveSpecial, cell, n);
      way.Way? ==> LOAD_PRICE * |trail| + LastPrice(w, visited, exotic, resolveSpecial, end)
                   <= WayPrice(w, visited, exotic, resolveSpecial, way)
  {
    hide Hop, Trail;
    var way := Route(w, exotic, resolveSpecial, cell, n);
    if way.Way? {
      if |trail| <= n {
        RouteAlong(w, exotic, resolveSpecial, cell, trail, end, n);
      } else {
        RouteTooShort(w, exotic, resolveSpecial, cell, trail, end, n);
      }
    }
  }

  lemma {:induction false} RouteTooShort(w: World, exotic: map<nat, Item>, resolveSpecial: bool, cell: Item,
      trail: seq<Item>, end: Item, n: nat)
    requires Walk(w, exotic, resolveSpecial, cell, trail, end) && |trail| > n
    ensures Route(w, exotic, resolveSpecial, cell, n).Endless?
    decreases n
  {
    hide Hop, Trail;
    WalkOn(w, exotic, cell, trail, end);
    if n > 0 {
      RouteTooShort(w, exotic, resolveSpecial, Following(trail, end, 0), trail[1..], end, n - 1);
    }
  }

  // ----- loads without resolution -----

  /** The price of loading cells one after the other as they are. */
  function TotalPrice(w: World, visited: set<nat>, cells: seq<Item>): nat
    decreases |cells|
  {
    if cells == [] then 0
    else
      var h := w.hash(cells[0]);
      (if h in visited then RELOAD_PRICE else LOAD_PRICE) + TotalPrice(w, visited + {h}, cells[1..])
  }

  function Hashes(w: World, cells: seq<Item>): set<nat> {
    set i | 0 <= i < |cells| :: w.hash(cells[i])
  }

  function AsTheyAre(cells: seq<Item>): seq<Request> {
    seq(|cells|, i requires 0 <= i < |cells| => Request(cells[i], false))
  }

  /** Such loads all succeed, for the price of the cells whatever is cached. */
  lemma {:induction false} PlainBill(w: World, visited: set<nat>, exotic: map<nat, Item>, cells: seq<Item>, n: nat)
    ensures BillOf(w, visited, exotic, AsTheyAre(cells), n) == Bill(TotalPrice(w, visited, cells), Ok(cells))
    decreases |cells|
  {
    hide Hop;
    if cells != [] {
      PlainBill(w, visited + {w.hash(cells[0])}, exotic, cells[1..], n);
      assert AsTheyAre(cells)[1..] == AsTheyAre(cells[1..]);
      assert [cells[0]] + cells[1..] == cells;
    }
  }

  /** That is 100 for each distinct new cell and 25 for each of the others. */
  lemma {:induction false} TotalPriceCounts(w: World, visited: set<nat>, cells: seq<Item>)
    ensures
      var distinct := |Hashes(w, cells) - visited|;
      TotalPrice(w, visited, cells) == LOAD_PRICE * distinct + RELOAD_PRICE * (|cells| - distinct)
    decreases |cells|
  {
    if cells == [] {
      assert Hashes(w, cells) - visited == {};
    } else {
      var h := w.hash(cells[0]);
      TotalPriceCounts(w, visited + {h}, cells[1..]);
      HashesFirst(w, cells);
      var rest := Hashes(w, cells[1..]) - (visited + {h});
      assert Hashes(w, cells) - visited == if h in visited then rest else {h} + rest;
    }
  }

  lemma HashesFirst(w: World, cells: seq<Item>)
    requires cells != []
    ensures Hashes(w, cells) == {w.hash(cells[0])} + Hashes(w, cells[1..])
  {
    assert forall i :: 1 <= i < |cells| ==> cells[i] == cells[1..][i - 1];
  }

  // ----- a sequence of loads -----

  /** Paying a bill: its price is there, or nothing is asked. */
  predicate Payable(bill: Bill, gas: GasState)
    requires bill.Bill?
  {
    bill.price == 0 || bill.price <= gas.remaining
  }

  /** What a sequence of loads gives on a counter, its bill being known. */
  predicate Paid(bill: Bill, before: GasState, after: GasState, r: Result<seq<Item>>, n: nat) {
    match bill
    case Bill(price, verdict) =>
      if Payable(bill, before) then r == verdict && after == Charged(before, price)
      else r == Err(OutOfGas) && after.remaining < 0
    case Open => LOAD_PRICE * n >= before.remaining ==> r == Err(OutOfGas) && after.remaining < 0
  }

  /** The item of a request is the cell itself, or what it resolves to without any cache. */
  ghost predicate Answers(w: World, q: Request, item: Item) {
    if q.resolveSpecial then Ends(w, q.cell, Found(item)) else item == q.cell
  }

  /** One load: the way it went, its charge and its result. */
  predicate Loaded(w: World, visited: set<nat>, exotic: map<nat, Item>, q: Request, before: GasState, after: GasState,
      r: Result<Item>, trail: seq<Item>, end: Item) {
    && Walk(w, exotic, q.resolveSpecial, q.cell, trail, end)
    && (trail != [] ==> LOAD_PRICE * |trail| <= before.remaining)
    && (r.Ok? ==> Plain(q.resolveSpecial, end) || w.hash(end) in exotic)
    && var last := LastPrice(w, visited, exotic, q.resolveSpecial, end);
    && after == Charged(before, LOAD_PRICE * |trail| + last)
    && r == if last > 0 && after.remaining < 0 then Err(OutOfGas) else Verdict(w, exotic, q.resolveSpecial, end)
  }

  /** A load that fails settles the whole bill. */
  lemma FailureSettles(w: World, visited: set<nat>, exotic: map<nat, Item>, requests: seq<Request>, n: nat,
      before: GasState, after: GasState, r: Result<Item>, trail: seq<Item>, end: Item)
    requires requests != [] && Loaded(w, visited, exotic, requests[0], before, after, r, trail, end) && r.Err?
    ensures Paid(BillOf(w, visited, exotic, requests, n), before, after, Err(r.code), n)
  {
    hide Hop, Trail, Walk, Stops, BillOf, LastPrice;
    var Request(cell, special) := requests[0];
    if |trail| > n {
      RouteTooShort(w, exotic, special, cell, trail, end, n);
      EndlessIsOpen(w, visited, exotic, requests, n);
    } else {
      CostsSomething(w, visited, exotic, requests[0], end);
      if Stops(w, exotic, special, end) {
        WalkIsRoute(w, exotic, special, cell, trail, end, n);
        FailureIsBill(w, visited, exotic, requests, n);
      }
      if BillOf(w, visited, exotic, requests, n).Bill? {
        RouteCostsMore(w, visited, exotic, special, cell, trail, end, n);
        BillCostsFirst(w, visited, exotic, requests, n);
      }
    }
  }

  lemma EndlessIsOpen(w: World, visited: set<nat>, exotic: map<nat, Item>, requests: seq<Request>, n: nat)
    requires requests != [] && Route(w, exotic, requests[0].resolveSpecial, requests[0].cell, n).Endless?
    ensures BillOf(w, visited, exotic, requests, n).Open?
  {
    hide Route;
  }

  lemma FailureIsBill(w: World, visited: set<nat>, exotic: map<nat, Item>, requests: seq<Request>, n: nat)
    requires requests != []
    requires Route(w, exotic, requests[0].resolveSpecial, requests[0].cell, n).Way?
    ensures
      var way := Route(w, exotic, requests[0].resolveSpecial, requests[0].cell, n);
      var v := Verdict(w, exotic, requests[0].resolveSpecial, way.end);
      v.Err? ==> BillOf(w, visited, exotic, requests, n)
                 == Bill(WayPrice(w, visited, exotic, requests[0].resolveSpecial, way), Err(v.code))
  {
    hide Route, Verdict, LastPrice;
  }

  /** Only a cell that cannot be resolved is free, and no cell gives an answer for free. */
  lemma CostsSomething(w: World, visited: set<nat>, exotic: map<nat, Item>, q: Request, end: Item)
    ensures
      LastPrice(w, visited, exotic, q.resolveSpecial, end) == 0 ==>
        Stops(w, exotic, q.resolveSpecial, end) && Verdict(w, exotic, q.resolveSpecial, end).Err?
    ensures !Stops(w, exotic, q.resolveSpecial, end) ==> Verdict(w, exotic, q.resolveSpecial, end).Ok?
    ensures Stops(w, exotic, q.resolveSpecial, end) && Verdict(w, exotic, q.resolveSpecial, end).Ok? ==>
      Plain(q.resolveSpecial, end) || w.hash(end) in exotic
  {}

  /** A bill covers its first load. */
  lemma BillCostsFirst(w: World, visited: set<nat>, exotic: map<nat, Item>, requests: seq<Request>, n: nat)
    requires requests != [] && BillOf(w, visited, exotic, requests, n).Bill?
    ensures
      var way := Route(w, exotic, requests[0].resolveSpecial, requests[0].cell, n);
      && way.Way?
      && WayPrice(w, visited, exotic, requests[0].resolveSpecial, way) <= BillOf(w, visited, exotic, requests, n).price
  {
    hide Hop, Route, Noted, LastPrice;
  }

  /** After a load that succeeds, settling the rest of the bill settles the whole. */
  lemma RestSettles(w: World, visited: set<nat>, exotic: map<nat, Item>, requests: seq<Request>, n: nat,
      before: GasState, between: GasState, after: GasState, item: Item, trail: seq<Item>, end: Item,
      rest: Result<seq<Item>>)
    requires requests != [] && Loaded(w, visited, exotic, requests[0], before, between, Ok(item), trail, end)
    requires
      var special := requests[0].resolveSpecial;
      Paid(BillOf(w, NowVisited(w, visited, special, end), Noted(w, exotic, trail, item), requests[1..], n),
           between, after, rest, n)
    ensures
      Paid(BillOf(w, visited, exotic, requests, n), before, after,
           if rest.Ok? then Ok([item] + rest.value) else rest, n)
  {
    hide Hop, Trail, Noted;
    var Request(cell, special) := requests[0];
    if |trail| > n {
      RouteTooShort(w, exotic, special, cell, trail, end, n);
    } else {
      WalkIsRoute(w, exotic, special, cell, trail, end, n);
    }
  }

  /**
   * A sequence of loads, with and without resolution, gives what its bill says if and only if the
   * price of the bill is there, and is out of gas otherwise; every item is the uncached answer.
   */
  method LoadAll(loader: Loader, requests: seq<Request>, ghost n: nat) returns (r: Result<seq<Item>>)
    requires Injective(loader.world) && Coherent(loader.world, loader.exotic)
    modifies loader, loader.gas
    ensures Paid(BillOf(loader.world, old(loader.visited), old(loader.exotic), requests, n),
                 old(loader.gas.State()), loader.gas.State(), r, n)
    ensures r.Ok? ==> |r.value| == |requests| && forall i :: 0 <= i < |requests| ==>
      Answers(loader.world, requests[i], r.value[i])
    ensures Coherent(loader.world, loader.exotic)
    decreases |requests|
  {
    hide Coherent, Injective, Trail, Hop, Ends, Noted;
    if requests == [] {
      return Ok([]);
    }
    ghost var visited, exotic, before := loader.visited, loader.exotic, loader.gas.State();
    var first, trail, end := loader.LoadHashedCell(requests[0].cell, requests[0].resolveSpecial);
    ghost var between := loader.gas.State();
    assert Loaded(loader.world, visited, exotic, requests[0], before, between, first, trail, end);
    if first.Err? {
      FailureSettles(loader.world, visited, exotic, requests, n, before, between, first, trail, end);
      return Err(first.code);
    }
    var rest := LoadAll(loader, requests[1..], n);
    RestSettles(loader.world, visited, exotic, requests, n, before, between, loader.gas.State(), first.value, trail,
                end, rest);
    r := if rest.Ok? then Ok([first.value] + rest.value) else rest;
  }

  // ----- one load, kind by kind -----

  function Single(r: Result<Item>): Result<seq<Item>> {
    if r.Ok? then Ok([r.value]) else Err(r.code)
  }

  /** One load is a sequence of one. */
  lemma LoadIsPaid(w: World, visited: set<nat>, exotic: map<nat, Item>, q: Request, n: nat,
      before: GasState, after: GasState, r: Result<Item>, trail: seq<Item>, end: Item)
    requires Loaded(w, visited, exotic, q, before, after, r, trail, end)
    ensures Paid(BillOf(w, visited, exotic, [q], n), before, after, Single(r), n)
  {
    hide Loaded, Paid, BillOf, Noted;
    if r.Err? {
      FailureSettles(w, visited, exotic, [q], n, before, after, r, trail, end);
    } else {
      assert [q][1..] == [];
      NothingToPay(w, NowVisited(w, visited, q.resolveSpecial, end), Noted(w, exotic, trail, r.value), after, n);
      RestSettles(w, visited, exotic, [q], n, before, after, after, r.value, trail, end, Ok([]));
      assert [r.value] + [] == [r.value];
    }
  }

  lemma NothingToPay(w: World, visited: set<nat>, exotic: map<nat, Item>, gas: GasState, n: nat)
    ensures Paid(BillOf(w, visited, exotic, [], n), gas, gas, Ok([]), n)
  {}

  /** One hop more costs 100 more and ends the same. */
  lemma BillAfterHop(w: World, visited: set<nat>, exotic: map<nat, Item>, c: Item, d: Item, n: nat)
    requires !c.Ordinary? && w.hash(c) !in exotic && Hop(w, c) == Ok(d)
    ensures
      var bill := BillOf(w, visited, exotic, [Request(c, true)], n + 1);
      var rest := BillOf(w, visited, exotic, [Request(d, true)], n);
      if rest.Open? then bill.Open? else bill == Bill(rest.price + 100, rest.verdict)
  {
    hide Hop, Noted;
    assert [Request(c, true)][1..] == [] && [Request(d, true)][1..] == [];
  }

  /**
   * A cell that is not cached and stands for another one loads what that one loads on a counter
   * with 100 less.
   */
  method LoadAsStood(a: Loader, b: Loader, c: Item, d: Item) returns (ra: Result<Item>, rb: Result<Item>)
    requires a != b && a.gas != b.gas && a.world == b.world && Injective(a.world)
    requires a.visited == b.visited && a.exotic == b.exotic && Coherent(a.world, a.exotic)
    requires StandsFor(a.world, c, d) && a.world.hash(c) !in a.exotic
    requires b.gas.remaining >= 0 && b.gas.State() == Charged(a.gas.State(), 100)
    modifies a, b, a.gas, b.gas
    ensures ra == rb
    ensures ra != Err(OutOfGas) ==> a.gas.State() == b.gas.State()
  {
    hide Injective, Coherent, Hop, Ends, Trail, Noted, BillOf, StandsFor;
    ghost var w, visited, exotic := a.world, a.visited, a.exotic;
    ghost var ga, gb := a.gas.State(), b.gas.State();
    ghost var n: nat := gb.remaining + 1;
    StandsForIsHop(w, c, d);
    BillAfterHop(w, visited, exotic, c, d, n);
    ghost var ta, ea, tb, eb;
    ra, ta, ea := a.LoadHashedCell(c, true);
    rb, tb, eb := b.LoadHashedCell(d, true);
    assert Loaded(w, visited, exotic, Request(c, true), ga, a.gas.State(), ra, ta, ea);
    LoadIsPaid(w, visited, exotic, Request(c, true), n + 1, ga, a.gas.State(), ra, ta, ea);
    LoadIsPaid(w, visited, exotic, Request(d, true), n, gb, b.gas.State(), rb, tb, eb);
  }

  /**
   * The other cells: an ordinary one is itself, for 100 or again for 25; a remembered one is what is
   * remembered, for 25; one that stands for nothing fails with its error, for 100 if its kind could
   * have been resolved and for nothing otherwise.
   */
  method LoadByKind(loader: Loader, c: Item) returns (r: Result<Item>)
    requires Injective(loader.world) && Coherent(loader.world, loader.exotic)
    modifies loader, loader.gas
    ensures c.Ordinary? ==>
      && loader.gas.State()
         == Charged(old(loader.gas.State()), if loader.world.hash(c) in old(loader.visited) then 25 else 100)
      && r == if loader.gas.remaining < 0 then Err(OutOfGas) else Ok(c)
    ensures !c.Ordinary? && loader.world.hash(c) in old(loader.exotic) ==>
      && loader.gas.State() == Charged(old(loader.gas.State()), 25)
      && r == if loader.gas.remaining < 0 then Err(OutOfGas) else Ok(old(loader.exotic)[loader.world.hash(c)])
    ensures forall e :: StandsForNothing(loader.world, c, e) && loader.world.hash(c) !in old(loader.exotic) ==>
      var paid := c.LibraryReference? || (!c.Pruned? && loader.world.resolveMerkle);
      && loader.gas.State() == Charged(old(loader.gas.State()), if paid then 100 else 0)
      && r == if paid && loader.gas.remaining < 0 then Err(OutOfGas) else Err(e)
    ensures r.Err? ==> loader.visited == old(loader.visited) && loader.exotic == old(loader.exotic)
  {
    hide Injective, Coherent, Hop, Ends, Noted, StandsForNothing;
    ghost var trail, end;
    NothingOrdinary(loader.world, c);
    if !c.Ordinary? {
      HopIsKind(loader.world, c);
    }
    r, trail, end := loader.LoadHashedCell(c, true);
  }

  lemma StandsForIsHop(w: World, c: Item, d: Item)
    requires StandsFor(w, c, d)
    ensures !c.Ordinary? && Hop(w, c) == Ok(d)
  {
    hide Hop;
    HopIsKind(w, c);
  }
}
