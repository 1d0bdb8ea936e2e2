/**
 * The iterative serializer: one work stack instead of recursion, with explicit stacks for the
 * chains and savelist dictionaries under construction.
 */
module Serializer {
  import opened Outcomes
  import opened Bits
  import opened Cells
  import opened Values
  import opened Encoder
  import opened Layout

  /** `SerializeItem`: what is left to do. The last element of a work sequence is its top. */
  datatype Work =
    | Pending(item: StackItem)
    | CloseTuple(header: Builder)
    | CloseCont(header: Builder, cont: Continuation, appendCell: bool)
    | OpenSaveList
    | StoreRegister(index: nat)

  datatype State = State(
    items: seq<Work>,
    list: Option<Builder>,
    listStack: seq<Builder>,
    savelist: Option<Dictionary>,
    savelistStack: seq<Dictionary>)

  function Start(work: seq<Work>): State {
    State(work, Some(EMPTY_BUILDER), [], None, [])
  }

  // ----- what is pushed -----

  function Pendings(xs: seq<StackItem>): seq<Work> {
    if xs == [] then [] else Pendings(xs[..|xs| - 1]) + [Pending(xs[|xs| - 1])]
  }

  /** `prepare_savelist_serialize_vars`, for the registers below position n. */
  function SaveWork(s: SaveList, n: nat): seq<Work>
    requires n <= |s|
  {
    if n == 0 then [] else
      SaveWork(s, n - 1) +
      (match s[n - 1] case Unset => [] case Saved(x) => [StoreRegister(RegisterAt(n - 1)), Pending(x)])
  }

  /** `prepare_cont_serialize_vars`. */
  function ContWork(k: Continuation, header: Builder, appendCell: bool): seq<Work> {
    [CloseCont(header, k, appendCell)] + Pendings(k.stack) + SaveWork(k.savelist, |k.savelist|) + [OpenSaveList]
  }

  /** The work that replaces a tuple or a continuation. */
  function Expansion(x: StackItem): seq<Work>
    requires x.Tuple? || x.ContItem?
  {
    match x
    case Tuple(xs) => [CloseTuple(TupleHeader(|xs|))] + Pendings(xs)
    case ContItem(k) => ContWork(k, CONT_HEADER, true)
  }

  // ----- total size of the pending values -----

  function ItemSize(x: StackItem): (n: nat)
    ensures n >= 1
    decreases x, 0
  {
    match x
    case Tuple(items) => 2 + AllSize(items)
    case ContItem(k) => 1 + ContSize(k)
    case _ => 1
  }

  function AllSize(xs: seq<StackItem>): nat
    decreases xs, 0
  {
    if xs == [] then 0 else AllSize(xs[..|xs| - 1]) + ItemSize(xs[|xs| - 1])
  }

  function ContSize(k: Continuation): nat
    decreases k, 0
  {
    2 + AllSize(k.stack) + SavesSize(k.savelist, |k.savelist|)
  }

  function SavesSize(s: SaveList, n: nat): nat
    requires n <= |s|
    decreases s, n
  {
    if n == 0 then 0 else
      SavesSize(s, n - 1) +
      match s[n - 1]
      case Unset => 0
      case Saved(x) => assert s decreases to s[n - 1]; 1 + ItemSize(x)
  }

  function WorkSize(w: Work): (n: nat)
    ensures n >= 1
  {
    if w.Pending? then ItemSize(w.item) else 1
  }

  function TotalSize(ws: seq<Work>): nat {
    if ws == [] then 0 else TotalSize(ws[..|ws| - 1]) + WorkSize(ws[|ws| - 1])
  }

  lemma {:induction false} TotalSizeConcat(a: seq<Work>, b: seq<Work>)
    ensures TotalSize(a + b) == TotalSize(a) + TotalSize(b)
  {
    if b == [] {
      assert a + b == a;
    } else {
      assert (a + b)[..|a + b| - 1] == a + b[..|b| - 1];
      TotalSizeConcat(a, b[..|b| - 1]);
    }
  }

  lemma {:induction false} PendingsSize(xs: seq<StackItem>)
    ensures TotalSize(Pendings(xs)) == AllSize(xs)
  {
    if xs != [] {
      PendingsSize(xs[..|xs| - 1]);
      TotalSizeConcat(Pendings(xs[..|xs| - 1]), [Pending(xs[|xs| - 1])]);
    }
  }

  lemma {:induction false} SaveWorkSize(s: SaveList, n: nat)
    requires n <= |s|
    ensures TotalSize(SaveWork(s, n)) == SavesSize(s, n)
  {
    if n > 0 {
      SaveWorkSize(s, n - 1);
      match s[n - 1]
      case Unset => assert SaveWork(s, n) == SaveWork(s, n - 1);
      case Saved(x) =>
        var last := [StoreRegister(RegisterAt(n - 1)), Pending(x)];
        assert last[..1] == [StoreRegister(RegisterAt(n - 1))] && last[..1][..0] == [];
        assert TotalSize(last[..1]) == 1;
        assert TotalSize(last) == 1 + ItemSize(x);
        TotalSizeConcat(SaveWork(s, n - 1), last);
    }
  }

  lemma {:induction false} ContWorkSize(k: Continuation, header: Builder, appendCell: bool)
    ensures TotalSize(ContWork(k, header, appendCell)) == ContSize(k)
  {
    var close := [CloseCont(header, k, appendCell)];
    var saves := SaveWork(k.savelist, |k.savelist|);
    assert TotalSize(close) == 1 by { assert close[..0] == []; }
    assert TotalSize([OpenSaveList]) == 1 by { assert [OpenSaveList][..0] == []; }
    PendingsSize(k.stack);
    SaveWorkSize(k.savelist, |k.savelist|);
    TotalSizeConcat(close, Pendings(k.stack));
    TotalSizeConcat(close + Pendings(k.stack), saves);
    TotalSizeConcat(close + Pendings(k.stack) + saves, [OpenSaveList]);
  }

  // ----- one round of the loop -----

  /** The finished node becomes the head of the current chain. */
  function Attach(st: State, node: Builder, accepts: Builder -> bool): (r: Result<State>)
    ensures r.Ok? ==> r.value.items == st.items
  {
    match st.list
    case None => Ok(st.(list := Some(node)))
    case Some(list) =>
      var linked :- Link(node, list, accepts);
      Ok(st.(list := Some(linked)))
  }

  function PushList(st: State): State {
    st.(listStack := if st.list.Some? then st.listStack + [st.list.value] else st.listStack,
        list := Some(EMPTY_BUILDER))
  }

  function PopList(st: State): State {
    if st.listStack == [] then st.(list := None)
    else st.(list := Some(st.listStack[|st.listStack| - 1]), listStack := st.listStack[..|st.listStack| - 1])
  }

  function PushSaveList(st: State): State {
    st.(savelistStack := if st.savelist.Some? then st.savelistStack + [st.savelist.value] else st.savelistStack,
        savelist := Some(EMPTY_DICT))
  }

  function PopSaveList(st: State): State {
    if st.savelistStack == [] then st.(savelist := None)
    else st.(savelist := Some(st.savelistStack[|st.savelistStack| - 1]),
             savelistStack := st.savelistStack[..|st.savelistStack| - 1])
  }

  function Step(st: State, accepts: Builder -> bool): Result<State>
    requires st.items != []
  {
    var st1 := st.(items := st.items[..|st.items| - 1]);
    match st.items[|st.items| - 1]
    case Pending(x) =>
      if x.Tuple? || x.ContItem? then Ok(PushList(st1).(items := st1.items + Expansion(x))) else
        var node :- SimpleNode(x, accepts);
        Attach(st1, node, accepts)
    case CloseTuple(header) =>
      var node :- if st.list.Some? then Link(header, st.list.value, accepts) else Ok(header);
      Attach(PopList(st1), node, accepts)
    case CloseCont(header, k, appendCell) =>
      var cons :- ContBuilder(k,
        if st.list.Some? then st.list.value else EMPTY_BUILDER,
        if st.savelist.Some? then st.savelist.value else EMPTY_DICT, accepts);
      var node :- if appendCell then Link(header, cons, accepts) else AppendBuilder(header, cons);
      Attach(PopSaveList(PopList(st1)), node, accepts)
    case StoreRegister(index) =>
      if st.list.None? || st.savelist.None? then Err(Panic) else
        var dict :- SetBuilder(st.savelist.value, index, st.list.value);
        Ok(st1.(list := Some(EMPTY_BUILDER), savelist := Some(dict)))
    case OpenSaveList =>
      Ok(PushSaveList(st1))
  }

  lemma StepPops(st: State, accepts: Builder -> bool)
    requires st.items != [] && Step(st, accepts).Ok?
    requires var top := st.items[|st.items| - 1]; top.Pending? ==> !top.item.Tuple? && !top.item.ContItem?
    ensures Step(st, accepts).value.items == st.items[..|st.items| - 1]
  {
    hide SimpleNode, ContBuilder, Link, SetBuilder;
  }

  lemma {:induction false} ExpansionSize(rest: seq<Work>, x: StackItem)
    requires x.Tuple? || x.ContItem?
    ensures TotalSize(rest + Expansion(x)) == TotalSize(rest) + ItemSize(x) - 1
  {
    TotalSizeConcat(rest, Expansion(x));
    match x
    case Tuple(xs) =>
      var close := [CloseTuple(TupleHeader(|xs|))];
      assert TotalSize(close) == 1 by { assert close[..0] == []; }
      PendingsSize(xs);
      TotalSizeConcat(close, Pendings(xs));
    case ContItem(k) =>
      ContWorkSize(k, CONT_HEADER, true);
  }

  lemma {:induction false} StepShrinks(st: State, accepts: Builder -> bool)
    requires st.items != [] && Step(st, accepts).Ok?
    ensures TotalSize(Step(st, accepts).value.items) < TotalSize(st.items)
  {
    var rest, top := st.items[..|st.items| - 1], st.items[|st.items| - 1];
    assert TotalSize(st.items) == TotalSize(rest) + WorkSize(top);
    if top.Pending? && (top.item.Tuple? || top.item.ContItem?) {
      ExpansionSize(rest, top.item);
    } else {
      StepPops(st, accepts);
    }
  }

  /** What the loop returns when started in state st. */
  function Run(st: State, accepts: Builder -> bool): Result<Builder>
    decreases TotalSize(st.items)
  {
    if st.items == [] then
      if st.list.Some? then Ok(st.list.value) else Err(FatalError)
    else
      var st' :- Step(st, accepts);
      StepShrinks(st, accepts);
      Run(st', accepts)
  }

  // ----- the loop does what the recursive encoder does -----

  /** The loop goes on with `r` as its current chain, or stops with the error. */
  function Continue(st: State, r: Result<Builder>, accepts: Builder -> bool): Result<Builder> {
    match r
    case Err(code) => Err(code)
    case Ok(list) => Run(st.(list := Some(list)), accepts)
  }

  /** A chain is under construction, and only the outermost dictionary may be missing. */
  predicate Consistent(st: State) {
    st.list.Some? && (st.savelist.Some? || st.savelistStack == [])
  }

  function Pushed(st: State, work: seq<Work>): State {
    st.(items := st.items + work)
  }

  lemma RunPushed(st: State, w: Work, accepts: Builder -> bool)
    ensures Run(Pushed(st, [w]), accepts) ==
      match Step(Pushed(st, [w]), accepts)
      case Err(code) => Err(code)
      case Ok(st') => Run(st', accepts)
  {}

  lemma {:induction false} LoopEncodesItem(st: State, x: StackItem, accepts: Builder -> bool)
    requires Consistent(st)
    ensures Run(Pushed(st, [Pending(x)]), accepts) == Continue(st, EncodeItem(x, st.list.value, accepts), accepts)
    decreases x, 1
  {
    hide Run, SimpleNode, Link, EncodeAll, EncodeCont;
    var full := Pushed(st, [Pending(x)]);
    assert full.items[..|full.items| - 1] == st.items;
    RunPushed(st, Pending(x), accepts);
    match x
    case Tuple(xs) => LoopEncodesTuple(st, xs, accepts);
    case ContItem(k) => LoopEncodesContItem(st, k, accepts);
    case _ =>
  }

  lemma {:induction false} LoopEncodesTuple(st: State, xs: seq<StackItem>, accepts: Builder -> bool)
    requires Consistent(st)
    ensures Run(Pushed(PushList(st), Expansion(Tuple(xs))), accepts)
         == Continue(st, EncodeItem(Tuple(xs), st.list.value, accepts), accepts)
    decreases xs, 1
  {
    hide Run, EncodeAll, Link, TupleHeader, Pendings;
    var close := CloseTuple(TupleHeader(|xs|));
    var st1 := Pushed(PushList(st), [close]);
    assert Pushed(PushList(st), Expansion(Tuple(xs))) == Pushed(st1, Pendings(xs)) by {
      assert st.items + ([close] + Pendings(xs)) == st.items + [close] + Pendings(xs);
    }
    LoopEncodesAll(st1, xs, accepts);
    var r := EncodeAll(xs, EMPTY_BUILDER, accepts);
    if r.Ok? {
      var st2 := PushList(st).(list := Some(r.value));
      assert st1.(list := Some(r.value)) == Pushed(st2, [close]);
      RunPushed(st2, close, accepts);
      assert Pushed(st2, [close]).items[..|st2.items|] == st.items;
      assert PopList(st2) == st;
    }
  }

  lemma {:induction false} LoopEncodesAll(st: State, xs: seq<StackItem>, accepts: Builder -> bool)
    requires Consistent(st)
    ensures Run(Pushed(st, Pendings(xs)), accepts) == Continue(st, EncodeAll(xs, st.list.value, accepts), accepts)
    decreases xs, 0
  {
    hide Run, EncodeItem;
    if xs == [] {
      assert Pushed(st, Pendings(xs)) == st == st.(list := Some(st.list.value));
    } else {
      var init, last := xs[..|xs| - 1], xs[|xs| - 1];
      var st1 := Pushed(st, Pendings(init));
      assert Pushed(st, Pendings(xs)) == Pushed(st1, [Pending(last)]) by {
        assert st.items + (Pendings(init) + [Pending(last)]) == st.items + Pendings(init) + [Pending(last)];
      }
      LoopEncodesItem(st1, last, accepts);
      var r := EncodeItem(last, st.list.value, accepts);
      if r.Ok? {
        var st2 := st.(list := Some(r.value));
        LoopEncodesAll(st2, init, accepts);
        assert st1.(list := Some(r.value)) == Pushed(st2, Pendings(init));
      }
    }
  }

  /** One saved register: its item is encoded as a chain of its own and entered in the dictionary. */
  function StoreItem(dict: Dictionary, index: nat, x: StackItem, accepts: Builder -> bool): Result<Dictionary> {
    var value :- EncodeItem(x, EMPTY_BUILDER, accepts);
    SetBuilder(dict, index, value)
  }

  function ContinueSaves(st: State, r: Result<Dictionary>, accepts: Builder -> bool): Result<Builder> {
    match r
    case Err(code) => Err(code)
    case Ok(dict) => Run(st.(savelist := Some(dict)), accepts)
  }

  lemma {:induction false} LoopStoresRegister(st: State, index: nat, x: StackItem, accepts: Builder -> bool)
    requires st.list == Some(EMPTY_BUILDER) && st.savelist.Some?
    ensures Run(Pushed(st, [StoreRegister(index), Pending(x)]), accepts)
         == ContinueSaves(st, StoreItem(st.savelist.value, index, x, accepts), accepts)
    decreases x, 2
  {
    hide Run, EncodeItem;
    var store := StoreRegister(index);
    var st1 := Pushed(st, [store]);
    assert Pushed(st, [store, Pending(x)]) == Pushed(st1, [Pending(x)]);
    LoopEncodesItem(st1, x, accepts);
    var r := EncodeItem(x, EMPTY_BUILDER, accepts);
    if r.Ok? {
      var st2 := st.(list := Some(r.value));
      assert st1.(list := Some(r.value)) == Pushed(st2, [store]);
      RunPushed(st2, store, accepts);
      assert Pushed(st2, [store]).items[..|st.items|] == st.items;
    }
  }

  lemma {:induction false} LoopEncodesSaves(st: State, s: SaveList, n: nat, accepts: Builder -> bool)
    requires n <= |s| && st.list == Some(EMPTY_BUILDER) && st.savelist.Some?
    ensures Run(Pushed(st, SaveWork(s, n)), accepts)
         == ContinueSaves(st, EncodeSaves(s, n, st.savelist.value, accepts), accepts)
    decreases s, n
  {
    hide Run, EncodeItem, SetBuilder, RegisterAt;
    if n == 0 {
      assert Pushed(st, SaveWork(s, n)) == st == st.(savelist := Some(st.savelist.value));
    } else {
      var st1 := Pushed(st, SaveWork(s, n - 1));
      match s[n - 1]
      case Unset =>
        assert SaveWork(s, n) == SaveWork(s, n - 1);
        LoopEncodesSaves(st, s, n - 1, accepts);
      case Saved(x) =>
        assert s decreases to s[n - 1];
        var last := [StoreRegister(RegisterAt(n - 1)), Pending(x)];
        assert Pushed(st, SaveWork(s, n)) == Pushed(st1, last) by {
          assert st.items + (SaveWork(s, n - 1) + last) == st.items + SaveWork(s, n - 1) + last;
        }
        LoopStoresRegister(st1, RegisterAt(n - 1), x, accepts);
        var d := StoreItem(st.savelist.value, RegisterAt(n - 1), x, accepts);
        if d.Ok? {
          var st2 := st.(savelist := Some(d.value));
          assert st1.(savelist := Some(d.value)) == Pushed(st2, SaveWork(s, n - 1));
          LoopEncodesSaves(st2, s, n - 1, accepts);
        }
    }
  }

  function CloseWith(st: State, header: Builder, cons: Builder, appendCell: bool,
      accepts: Builder -> bool): Result<State> {
    var node :- if appendCell then Link(header, cons, accepts) else AppendBuilder(header, cons);
    Attach(PopList(st), node, accepts)
  }

  function RunAfter(r: Result<State>, accepts: Builder -> bool): Result<Builder> {
    match r
    case Err(code) => Err(code)
    case Ok(st) => Run(st, accepts)
  }

  lemma {:induction false} LoopEncodesCont(
      st: State, k: Continuation, header: Builder, appendCell: bool, accepts: Builder -> bool)
    requires Consistent(st) && st.list == Some(EMPTY_BUILDER)
    ensures Run(Pushed(st, ContWork(k, header, appendCell)), accepts) ==
      match EncodeCont(k, accepts)
      case Err(code) => Err(code)
      case Ok(cons) => RunAfter(CloseWith(st, header, cons, appendCell, accepts), accepts)
    decreases k, 1
  {
    hide Run, ContBuilder, CloseWith, EncodeAll, EncodeSaves;
    var close := CloseCont(header, k, appendCell);
    var saves := SaveWork(k.savelist, |k.savelist|);
    var st1 := Pushed(st, [close]);
    var st2 := Pushed(st1, Pendings(k.stack));
    var st3 := Pushed(st2, saves);
    assert Pushed(st, ContWork(k, header, appendCell)) == Pushed(st3, [OpenSaveList]) by {
      assert st.items + ([close] + Pendings(k.stack) + saves + [OpenSaveList])
          == st.items + [close] + Pendings(k.stack) + saves + [OpenSaveList];
    }
    RunPushed(st3, OpenSaveList, accepts);
    assert Pushed(st3, [OpenSaveList]).items[..|st3.items|] == st3.items;
    assert PushSaveList(st3) == Pushed(PushSaveList(st2), saves);
    LoopEncodesSaves(PushSaveList(st2), k.savelist, |k.savelist|, accepts);
    var d := EncodeSaves(k.savelist, |k.savelist|, EMPTY_DICT, accepts);
    if d.Ok? {
      var st4 := PushSaveList(st1).(savelist := Some(d.value));
      assert PushSaveList(st2).(savelist := Some(d.value)) == Pushed(st4, Pendings(k.stack));
      LoopEncodesAll(st4, k.stack, accepts);
      var r := EncodeAll(k.stack, EMPTY_BUILDER, accepts);
      if r.Ok? {
        LoopClosesCont(st, k, header, appendCell, d.value, r.value, accepts);
      }
    }
  }

  lemma {:induction false} LoopClosesCont(
      st: State, k: Continuation, header: Builder, appendCell: bool, dict: Dictionary, list: Builder,
      accepts: Builder -> bool)
    requires Consistent(st)
    ensures
      Run(PushSaveList(Pushed(st, [CloseCont(header, k, appendCell)])).(savelist := Some(dict), list := Some(list)),
          accepts) ==
      match ContBuilder(k, list, dict, accepts)
      case Err(code) => Err(code)
      case Ok(cons) => RunAfter(CloseWith(st, header, cons, appendCell, accepts), accepts)
  {
    hide Run, ContBuilder, Link;
    var close := CloseCont(header, k, appendCell);
    var st1 := PushSaveList(st).(savelist := Some(dict), list := Some(list));
    assert PushSaveList(Pushed(st, [close])).(savelist := Some(dict), list := Some(list)) == Pushed(st1, [close]);
    RunPushed(st1, close, accepts);
    assert Pushed(st1, [close]).items[..|st.items|] == st.items;
    assert PopSaveList(PopList(st1)) == PopList(st);
  }

  lemma {:induction false} LoopEncodesContItem(st: State, k: Continuation, accepts: Builder -> bool)
    requires Consistent(st)
    ensures Run(Pushed(PushList(st), Expansion(ContItem(k))), accepts)
         == Continue(st, EncodeItem(ContItem(k), st.list.value, accepts), accepts)
    decreases k, 2
  {
    hide Run, EncodeCont, ContWork;
    LoopEncodesCont(PushList(st), k, CONT_HEADER, true, accepts);
    assert PopList(PushList(st)) == st;
  }

  // ----- the loop itself -----

  function Node(r: Result<Builder>): Result<Option<Builder>> {
    match r
    case Err(code) => Err(code)
    case Ok(node) => Ok(Some(node))
  }

  /** `StackItem::serialize_internal`: a finished node, or nothing and more work. */
  method SerializeInternal(x: StackItem, items: seq<Work>, accepts: Builder -> bool)
    returns (r: Result<Option<Builder>>, items': seq<Work>)
    ensures x.Tuple? || x.ContItem? ==> r == Ok(None) && items' == items + Expansion(x)
    ensures !x.Tuple? && !x.ContItem? ==> items' == items && r == Node(SimpleNode(x, accepts))
  {
    items' := items;
    if x.Tuple? {
      items' := items' + [CloseTuple(TupleHeader(|x.items|))];
      items' := items' + Pendings(x.items);
      assert items' == items + Expansion(x);
      r := Ok(None);
    } else if x.ContItem? {
      items' := items' + ContWork(x.cont, CONT_HEADER, true);
      r := Ok(None);
    } else {
      r := Node(SimpleNode(x, accepts));
    }
  }

  /** The stack of a continuation: a flag, and for a stack that is not empty its depth and chain. */
  method AppendStack(b: Builder, stack: seq<StackItem>, list: Builder, accepts: Builder -> bool)
    returns (r: Result<Builder>)
    requires |b.bits| <= 900 && |b.refs| < MAX_REFERENCES_COUNT
    ensures stack == [] ==> r == Ok(Builder(b.bits + [false], b.refs + []))
    ensures stack != [] && !accepts(list) ==> r == Err(CellOverflow)
    ensures stack != [] && accepts(list) ==> r == Ok(Builder(b.bits + ([true] + ToBits(|stack|, 24)),
        b.refs + [CellOf(list)]))
  {
    hide ToBits;
    if stack == [] {
      assert b.refs + [] == b.refs;
      r := AppendBits(b, [false]);
    } else {
      var builder := AppendBits(b, [true]).value;
      builder := AppendBits(builder, ToBits(|stack|, 24)).value;
      var cell := FinalizeCell(list, accepts);
      if cell.Err? { return Err(cell.code); }
      builder := AppendReference(builder, cell.value).value;
      assert b.bits + [true] + ToBits(|stack|, 24) == b.bits + ([true] + ToBits(|stack|, 24));
      r := Ok(builder);
    }
  }

  /** `write_hashmap_data`: a flag, and for a dictionary that is not empty its root. */
  method AppendDictionary(b: Builder, dict: Dictionary) returns (r: Builder)
    requires |b.bits| <= 950 && |b.refs| < MAX_REFERENCES_COUNT
    ensures r == Builder(b.bits + [dict != EMPTY_DICT], b.refs + if dict == EMPTY_DICT then [] else [DictRoot(dict)])
  {
    r := AppendBits(b, [dict != EMPTY_DICT]).value;
    if dict != EMPTY_DICT {
      r := AppendReference(r, DictRoot(dict)).value;
    }
  }

  /** `ContinuationData::serialize_internal`, appending field by field; no field can overflow the cell. */
  method BuildContinuation(k: Continuation, list: Builder, dict: Dictionary, accepts: Builder -> bool)
    returns (r: Result<Builder>)
    ensures r == ContBuilder(k, list, dict, accepts)
    ensures r.Ok? && (dict != EMPTY_DICT <==> AnySaved(k.savelist)) ==> ContBits(r.value.bits, k)
  {
    hide ToBits, TypeBuilder, ContBits, AnySaved, TypeAt;
    var head := TypeBuilder(k.typ, accepts);
    if head.Err? { return Err(head.code); }
    TypeBuilderSize(k.typ, accepts);
    var builder := AppendBits(head.value, ToBits(k.nargs, 22)).value;
    var withStack := AppendStack(builder, k.stack, list, accepts);
    if withStack.Err? { return Err(withStack.code); }
    builder := AppendDictionary(withStack.value, dict);
    builder := AppendBits(builder, ToBits(0, 16)).value;
    var code := SliceBuilder(k.code);
    builder := AppendBuilder(builder, code).value;
    r := Ok(builder);
    ghost var h := head.value;
    ghost var stackBits := if k.stack == [] then [false] else [true] + ToBits(|k.stack|, 24);
    ghost var stackCell := if k.stack == [] then [] else [CellOf(list)];
    ghost var dictCell := if dict == EMPTY_DICT then [] else [DictRoot(dict)];
    FieldsInOrder(h.bits, ToBits(k.nargs, 22), stackBits, [dict != EMPTY_DICT], ToBits(0, 16), code.bits);
    FieldsInOrder(h.refs, stackCell, dictCell, code.refs, [], []);
    assert h.refs + stackCell + dictCell + code.refs + [] + [] == h.refs + stackCell + dictCell + code.refs;
    if dict != EMPTY_DICT <==> AnySaved(k.savelist) {
      TypeLaid(k.typ, h, accepts, r.value.bits[|h.bits|..]);
      assert h.bits + r.value.bits[|h.bits|..] == r.value.bits;
      BodyLaid(h.bits, k, dict != EMPTY_DICT, r.value.bits);
    }
  }

  lemma FieldsInOrder<T>(h: seq<T>, a: seq<T>, b: seq<T>, c: seq<T>, d: seq<T>, e: seq<T>)
    ensures h + a + b + c + d + e == h + (a + (b + (c + (d + e))))
    ensures d == [] && e == [] ==> c + (d + e) == c
  {}

  lemma TypeBuilderSize(typ: ContType, accepts: Builder -> bool)
    requires TypeBuilder(typ, accepts).Ok?
    ensures |TypeBuilder(typ, accepts).value.bits| <= 36 && |TypeBuilder(typ, accepts).value.refs| <= 1
  {}

  /** One pass through the body of the loop. */
  method Round(st: State, accepts: Builder -> bool) returns (r: Result<State>)
    requires st.items != []
    ensures r == Step(st, accepts)
  {
    hide SimpleNode, ContBuilder, Link, SetBuilder, Expansion;
    var State(items, list, listStack, savelist, savelistStack) := st;
    var item := items[|items| - 1];
    items := items[..|items| - 1];
    var builder: Builder;
    match item {
      case Pending(x) =>
        var s: Result<Option<Builder>>;
        s, items := SerializeInternal(x, items, accepts);
        if s.Err? {
          return Err(s.code);
        } else if s.value.None? {
          if list.Some? {
            listStack := listStack + [list.value];
          }
          list := Some(EMPTY_BUILDER);
          return Ok(State(items, list, listStack, savelist, savelistStack));
        }
        builder := s.value.value;
      case CloseTuple(header) =>
        builder := header;
        if list.Some? {
          var linked := Link(header, list.value, accepts);
          if linked.Err? { return Err(linked.code); }
          builder := linked.value;
        }
        list, listStack := Pop(listStack);
      case CloseCont(header, k, appendCell) =>
        var cons := BuildContinuation(k,
          if list.Some? then list.value else EMPTY_BUILDER,
          if savelist.Some? then savelist.value else EMPTY_DICT, accepts);
        if cons.Err? { return Err(cons.code); }
        var node := if appendCell then Link(header, cons.value, accepts) else AppendBuilder(header, cons.value);
        if node.Err? { return Err(node.code); }
        builder := node.value;
        list, listStack := Pop(listStack);
        savelist, savelistStack := Pop(savelistStack);
      case StoreRegister(index) =>
        if list.None? || savelist.None? { return Err(Panic); }
        var dict := SetBuilder(savelist.value, index, list.value);
        if dict.Err? { return Err(dict.code); }
        list, savelist := Some(EMPTY_BUILDER), Some(dict.value);
        return Ok(State(items, list, listStack, savelist, savelistStack));
      case OpenSaveList =>
        if savelist.Some? {
          savelistStack := savelistStack + [savelist.value];
        }
        savelist := Some(EMPTY_DICT);
        return Ok(State(items, list, listStack, savelist, savelistStack));
    }
    if list.Some? {
      var linked := Link(builder, list.value, accepts);
      if linked.Err? { return Err(linked.code); }
      builder := linked.value;
    }
    list := Some(builder);
    r := Ok(State(items, list, listStack, savelist, savelistStack));
  }

  /** `items_serialize`. */
  method ItemsSerialize(work: seq<Work>, accepts: Builder -> bool) returns (r: Result<Builder>)
    ensures r == Run(Start(work), accepts)
  {
    var st := Start(work);
    while st.items != []
      invariant Run(st, accepts) == Run(Start(work), accepts)
      decreases TotalSize(st.items)
    {
      var next := Round(st, accepts);
      if next.Err? { return Err(next.code); }
      StepShrinks(st, accepts);
      st := next.value;
    }
    r := if st.list.Some? then Ok(st.list.value) else Err(FatalError);
  }

  method Pop<T>(stack: seq<T>) returns (top: Option<T>, rest: seq<T>)
    ensures stack == [] ==> top == None && rest == []
    ensures stack != [] ==> top.Some? && stack == rest + [top.value]
  {
    if stack == [] {
      top, rest := None, [];
    } else {
      top, rest := Some(stack[|stack| - 1]), stack[..|stack| - 1];
    }
  }

  /** `StackItem::serialize` produces the one-item chain of the recursive encoder, or its error. */
  method SerializeItem(x: StackItem, accepts: Builder -> bool) returns (r: Result<Builder>)
    ensures r == EncodeItem(x, EMPTY_BUILDER, accepts)
    ensures r.Ok? ==> ItemAt(r.value, x, Builder([], []))
  {
    hide ItemAt;
    r := ItemsSerialize([Pending(x)], accepts);
    assert Pushed(Start([]), [Pending(x)]) == Start([Pending(x)]);
    LoopEncodesItem(Start([]), x, accepts);
    if r.Ok? {
      ItemLaid(x, EMPTY_BUILDER, accepts);
    }
  }

  /** `ContinuationData::serialize` produces the recursive encoding, or its error. */
  method SerializeContinuation(k: Continuation, accepts: Builder -> bool) returns (r: Result<Builder>)
    ensures r == EncodeCont(k, accepts)
    ensures r.Ok? ==> ContAt(r.value, k)
  {
    hide ContAt;
    r := ItemsSerialize(ContWork(k, EMPTY_BUILDER, false), accepts);
    var work := ContWork(k, EMPTY_BUILDER, false);
    assert Pushed(Start([]), work) == Start(work);
    LoopEncodesCont(Start([]), k, EMPTY_BUILDER, false, accepts);
    var cons := EncodeCont(k, accepts);
    if cons.Ok? {
      EncodedContFits(k, accepts);
      assert EMPTY_BUILDER.bits + cons.value.bits == cons.value.bits;
      assert EMPTY_BUILDER.refs + cons.value.refs == cons.value.refs;
      ContLaid(k, accepts);
    }
  }

  lemma EncodedContFits(k: Continuation, accepts: Builder -> bool)
    requires EncodeCont(k, accepts).Ok?
    ensures FitsCell(EncodeCont(k, accepts).value)
  {}
}
