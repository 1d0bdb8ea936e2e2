/**
 * Deserializing what was serialized: for every value it gives the value with its out-of-range
 * fields truncated, so it gives the value itself exactly when all fields are in range.
 */
module RoundTrip {
  import opened Outcomes
  import opened Bits
  import opened Cells
  import opened Values
  import opened Encoder
  import opened Deserializer

  // ----- data invariants of the host types -----

  ghost predicate ValidType(t: ContType) {
    match t
    case AgainLoopBody(body) => body.Valid()
    case UntilLoopCondition(body) => body.Valid()
    case RepeatLoopBody(body, _) => body.Valid()
    case WhileLoopCondition(body, cond) => body.Valid() && cond.Valid()
    case _ => true
  }

  /** Slices lie inside their cells, and savelists are well typed, at every depth. */
  ghost predicate ValidItem(x: StackItem)
    decreases x
  {
    match x
    case SliceItem(s) => s.Valid()
    case Tuple(items) => forall i :: 0 <= i < |items| ==> ValidItem(items[i])
    case ContItem(k) => ValidCont(k)
    case _ => true
  }

  ghost predicate ValidCont(k: Continuation)
    decreases k
  {
    && k.code.Valid()
    && ValidType(k.typ)
    && TypedSaveList(k.savelist)
    && (forall i :: 0 <= i < |k.stack| ==> ValidItem(k.stack[i]))
    && (forall i :: 0 <= i < |k.savelist| ==> ValidSlot(k.savelist[i]))
  }

  ghost predicate ValidSlot(s: Slot)
    decreases s
  {
    s.Saved? ==> ValidItem(s.item)
  }

  // ----- what survives the round trip -----

  function WrapInt32(n: int): int {
    ToInt32(n % Pow2(32))
  }

  function TruncateType(t: ContType): ContType {
    match t
    case CatchRevert(depth) => CatchRevert(depth % Pow2(32))
    case Quit(exitCode) => Quit(WrapInt32(exitCode))
    case PushInt(pushed) => PushInt(WrapInt32(pushed))
    case RepeatLoopBody(body, counter) => RepeatLoopBody(body, counter % Pow2(32))
    case _ => t
  }

  /** How many of n elements are kept when their number is stored in `width` bits. */
  function Kept(n: nat, width: nat): (m: nat)
    ensures m <= n
    ensures m == n <==> n < Pow2(width)
  {
    var p := Pow2(width);
    assert n % p <= n && (n < p ==> n % p == n) by {
      if n < p { DivModUnique(n, p, 0, n); }
    }
    n % p
  }

  function Truncate(x: StackItem): StackItem
    decreases x, 0
  {
    match x
    case Tuple(items) => Tuple(TruncateFirst(items, Kept(|items|, 8)))
    case ContItem(k) => ContItem(TruncateCont(k))
    case _ => x
  }

  function TruncateFirst(xs: seq<StackItem>, n: nat): (r: seq<StackItem>)
    requires n <= |xs|
    ensures |r| == n
    decreases xs, 0
  {
    if n == 0 then [] else [Truncate(xs[0])] + TruncateFirst(xs[1..], n - 1)
  }

  function TruncateCont(k: Continuation): Continuation
    decreases k, 0
  {
    Continuation(
      k.code,
      ReadNargs(k.nargs % Pow2(22)),
      TruncateSaves(k.savelist),
      TruncateFirst(k.stack, Kept(|k.stack|, 24)),
      TruncateType(k.typ))
  }

  function TruncateSaves(s: SaveList): (r: SaveList)
    ensures |r| == |s|
    decreases s, 0
  {
    if s == [] then [] else [TruncateSlot(s[0])] + TruncateSaves(s[1..])
  }

  function TruncateSlot(s: Slot): Slot
    decreases s, 0
  {
    match s
    case Unset => Unset
    case Saved(x) => Saved(Truncate(x))
  }

  // ----- reading fields -----

  function CursorOf(b: Builder): Cursor {
    Cursor(b.bits, b.refs)
  }

  lemma ReadField(n: int, width: nat, rest: seq<bool>, refs: seq<Cell>)
    ensures NextInt(Cursor(ToBits(n, width) + rest, refs), width) == Ok((n % Pow2(width), Cursor(rest, refs)))
  {
    FromToBits(n, width);
    assert (ToBits(n, width) + rest)[..width] == ToBits(n, width);
    assert (ToBits(n, width) + rest)[width..] == rest;
  }

  lemma ReadFieldExact(n: nat, width: nat, rest: seq<bool>, refs: seq<Cell>)
    requires n < Pow2(width)
    ensures NextInt(Cursor(ToBits(n, width) + rest, refs), width) == Ok((n, Cursor(rest, refs)))
  {
    ReadField(n, width, rest, refs);
    DivModUnique(n, Pow2(width), 0, n);
  }

  lemma ReadFlag(flag: bool, rest: seq<bool>, refs: seq<Cell>)
    ensures NextInt(Cursor([flag] + rest, refs), 1) == Ok((BitValue(flag), Cursor(rest, refs)))
  {
    assert ([flag] + rest)[..1] == [flag];
    assert ([flag] + rest)[1..] == rest;
    assert [flag][..0] == [];
    assert FromBits([flag]) == BitValue(flag);
  }

  lemma ReadRef(bits: seq<bool>, cell: Cell, refs: seq<Cell>)
    ensures NextReference(Cursor(bits, [cell] + refs)) == Ok((cell, Cursor(bits, refs)))
  {}

  lemma SliceReadBack(s: Slice, bits: seq<bool>, refs: seq<Cell>)
    requires s.Valid()
    ensures ReadSlice(Cursor(SliceBuilder(s).bits + bits, SliceBuilder(s).refs + refs)) == Ok((s, Cursor(bits, refs)))
  {
    assert Pow2(10) == 1024 && Pow2(3) == 8;
    var d1, d2, r1, r2 := ToBits(s.dataStart, 10), ToBits(s.dataEnd, 10), ToBits(s.refStart, 3), ToBits(s.refEnd, 3);
    assert d1 + d2 + r1 + r2 + bits == d1 + (d2 + (r1 + (r2 + bits)));
    ReadRef(d1 + (d2 + (r1 + (r2 + bits))), s.cell, refs);
    ReadFieldExact(s.dataStart, 10, d2 + (r1 + (r2 + bits)), refs);
    ReadFieldExact(s.dataEnd, 10, r1 + (r2 + bits), refs);
    ReadFieldExact(s.refStart, 3, r2 + bits, refs);
    ReadFieldExact(s.refEnd, 3, bits, refs);
  }

  lemma ChildSliceReadBack(s: Slice, bits: seq<bool>, refs: seq<Cell>)
    requires s.Valid()
    ensures ReadChildSlice(Cursor(bits, [CellOf(SliceBuilder(s))] + refs)) == Ok((s, Cursor(bits, refs)))
  {
    ReadRef(bits, CellOf(SliceBuilder(s)), refs);
    SliceReadBack(s, [], []);
    assert SliceBuilder(s).bits + [] == SliceBuilder(s).bits;
    assert SliceBuilder(s).refs + [] == SliceBuilder(s).refs;
  }

  /** A four-bit type code is read as two fields of two bits. */
  lemma ReadTypeCode(code: nat, bits: seq<bool>, refs: seq<Cell>)
    requires code < 16
    ensures NextInt(Cursor(ToBits(code, 4) + bits, refs), 2) == Ok((code / 4, Cursor(ToBits(code, 2) + bits, refs)))
    ensures NextInt(Cursor(ToBits(code, 2) + bits, refs), 2) == Ok((code % 4, Cursor(bits, refs)))
  {
    assert Pow2(2) == 4;
    ToBitsSplit(code, 2, 2);
    assert ToBits(code / 4, 2) + ToBits(code, 2) + bits == ToBits(code / 4, 2) + (ToBits(code, 2) + bits);
    ReadFieldExact(code / 4, 2, ToBits(code, 2) + bits, refs);
    ReadField(code, 2, bits, refs);
  }

  /** Types that store a 32-bit number. */
  lemma NumberedTypeReadBack(code: nat, n: int, child: seq<Cell>, bits: seq<bool>, refs: seq<Cell>)
    requires code < 16
    ensures
      var whole := Cursor(ToBits(code, 4) + ToBits(n, 32) + bits, child + refs);
      && NextInt(whole, 2) == Ok((code / 4, Cursor(ToBits(code, 2) + (ToBits(n, 32) + bits), child + refs)))
      && NextInt(Cursor(ToBits(code, 2) + (ToBits(n, 32) + bits), child + refs), 2)
         == Ok((code % 4, Cursor(ToBits(n, 32) + bits, child + refs)))
    ensures NextInt(Cursor(ToBits(n, 32) + bits, refs), 32) == Ok((n % Pow2(32), Cursor(bits, refs)))
  {
    assert ToBits(code, 4) + ToBits(n, 32) + bits == ToBits(code, 4) + (ToBits(n, 32) + bits);
    ReadTypeCode(code, ToBits(n, 32) + bits, child + refs);
    ReadField(n, 32, bits, refs);
  }

  lemma WhileReadBack(body: Slice, cond: Slice, bits: seq<bool>, refs: seq<Cell>)
    requires body.Valid() && cond.Valid()
    ensures
      var c, b := SliceBuilder(cond), SliceBuilder(body);
      var both := Builder(c.bits + b.bits, c.refs + b.refs);
      ReadWhile(Cursor(bits, [CellOf(both)] + refs)) == Ok((WhileLoopCondition(body, cond), Cursor(bits, refs)))
  {
    var c, b := SliceBuilder(cond), SliceBuilder(body);
    var both := Builder(c.bits + b.bits, c.refs + b.refs);
    ReadRef(bits, CellOf(both), refs);
    SliceReadBack(cond, SliceBuilder(body).bits, SliceBuilder(body).refs);
    SliceReadBack(body, [], []);
    assert SliceBuilder(body).bits + [] == SliceBuilder(body).bits;
    assert SliceBuilder(body).refs + [] == SliceBuilder(body).refs;
  }

  /** Types that store nothing but their code. */
  lemma BareTypeReadBack(code: nat, typ: ContType, bits: seq<bool>, refs: seq<Cell>)
    requires (code, typ) in {(0x9, TryCatch), (0xb, ExcQuit)}
    ensures ReadType(Cursor(ToBits(code, 4) + bits, refs)) == Ok((typ, Cursor(bits, refs)))
  {
    hide ToBits;
    ReadTypeCode(code, bits, refs);
  }

  lemma NumberTypeReadBack(t: ContType, b: Builder, accepts: Builder -> bool, bits: seq<bool>, refs: seq<Cell>)
    requires t.CatchRevert? || t.Quit? || t.PushInt?
    requires TypeBuilder(t, accepts) == Ok(b)
    ensures ReadType(Cursor(b.bits + bits, b.refs + refs)) == Ok((TruncateType(t), Cursor(bits, refs)))
  {
    hide ToBits, NextInt, Pow2, ToInt32;
    assert [] + refs == refs;
    match t
    case CatchRevert(depth) => NumberedTypeReadBack(0x7, depth, [], bits, refs);
    case Quit(exitCode) => NumberedTypeReadBack(0x8, exitCode, [], bits, refs);
    case PushInt(pushed) => NumberedTypeReadBack(0xf, pushed, [], bits, refs);
  }

  lemma LoopTypeReadBack(t: ContType, b: Builder, accepts: Builder -> bool, bits: seq<bool>, refs: seq<Cell>)
    requires t.UntilLoopCondition? || t.AgainLoopBody? || t.RepeatLoopBody? || t.WhileLoopCondition?
    requires ValidType(t) && TypeBuilder(t, accepts) == Ok(b)
    ensures ReadType(Cursor(b.bits + bits, b.refs + refs)) == Ok((TruncateType(t), Cursor(bits, refs)))
  {
    hide ToBits, SliceBuilder, ReadChildSlice, ReadWhile, NextInt, Pow2, CellOf;
    match t
    case UntilLoopCondition(body) =>
      ReadTypeCode(0xa, bits, b.refs + refs);
      ChildSliceReadBack(body, bits, refs);
    case WhileLoopCondition(body, cond) =>
      ReadTypeCode(0xc, bits, b.refs + refs);
      WhileReadBack(body, cond, bits, refs);
    case AgainLoopBody(body) =>
      ReadTypeCode(0xd, bits, b.refs + refs);
      ChildSliceReadBack(body, bits, refs);
    case RepeatLoopBody(body, counter) =>
      NumberedTypeReadBack(0xe, counter, b.refs, bits, refs);
      ChildSliceReadBack(body, ToBits(counter, 32) + bits, refs);
  }

  lemma TypeReadBack(t: ContType, b: Builder, accepts: Builder -> bool, bits: seq<bool>, refs: seq<Cell>)
    requires ValidType(t) && TypeBuilder(t, accepts) == Ok(b)
    ensures ReadType(Cursor(b.bits + bits, b.refs + refs)) == Ok((TruncateType(t), Cursor(bits, refs)))
  {
    assert [] + refs == refs;
    if t.Ordinary? {
      ReadFieldExact(0, 2, bits, refs);
    } else if t.TryCatch? {
      BareTypeReadBack(0x9, t, bits, refs);
    } else if t.ExcQuit? {
      BareTypeReadBack(0xb, t, bits, refs);
    } else if t.CatchRevert? || t.Quit? || t.PushInt? {
      NumberTypeReadBack(t, b, accepts, bits, refs);
    } else {
      LoopTypeReadBack(t, b, accepts, bits, refs);
    }
  }

  // ----- reading the head of a continuation -----

  function StackTask(k: Continuation, list: Builder): Task {
    if k.stack == [] then ReadItems(0, EMPTY_CURSOR) else ReadItems(Kept(|k.stack|, 24), CursorOf(list))
  }

  function EmptyShell(k: Continuation): Continuation {
    Continuation(k.code, ReadNargs(k.nargs % Pow2(22)), EMPTY_SAVELIST, [], TruncateType(k.typ))
  }

  function ContTasks(k: Continuation, list: Builder, dict: Dictionary, order: Dictionary -> seq<nat>): seq<Task> {
    [BuildCont(EmptyShell(k))]
    + (if dict == EMPTY_DICT then [] else SaveTasks(dict, order(dict)))
    + [NewSaveList] + [StackTask(k, list)]
  }

  lemma StackReadBack(k: Continuation, list: Builder, bits: seq<bool>, refs: seq<Cell>)
    ensures
      var stackBits := if k.stack == [] then [false] else [true] + ToBits(|k.stack|, 24);
      var stackCell := if k.stack == [] then [] else [CellOf(list)];
      ReadStack(Cursor(stackBits + bits, stackCell + refs)) == Ok((StackTask(k, list), Cursor(bits, refs)))
  {
    if k.stack == [] {
      ReadFlag(false, bits, refs);
      assert [] + refs == refs;
    } else {
      assert [true] + ToBits(|k.stack|, 24) + bits == [true] + (ToBits(|k.stack|, 24) + bits);
      ReadFlag(true, ToBits(|k.stack|, 24) + bits, [CellOf(list)] + refs);
      ReadField(|k.stack|, 24, bits, [CellOf(list)] + refs);
      ReadRef(bits, CellOf(list), refs);
    }
  }

  lemma SavesReadBack(dict: Dictionary, order: Dictionary -> seq<nat>, bits: seq<bool>, refs: seq<Cell>)
    ensures
      var dictCell := if dict == EMPTY_DICT then [] else [DictRoot(dict)];
      ReadSaves(Cursor([dict != EMPTY_DICT] + bits, dictCell + refs), order)
      == Ok((if dict == EMPTY_DICT then [] else SaveTasks(dict, order(dict)), Cursor(bits, refs)))
  {
    if dict == EMPTY_DICT {
      ReadFlag(false, bits, refs);
      assert [] + refs == refs;
    } else {
      ReadFlag(true, bits, [DictRoot(dict)] + refs);
      ReadRef(bits, DictRoot(dict), refs);
    }
  }

  lemma ConcatRight3<T>(a: seq<T>, b: seq<T>, c: seq<T>, rest: seq<T>)
    ensures a + (b + c) + rest == a + (b + (c + rest))
  {}

  lemma ConcatRight5<T>(a: seq<T>, b: seq<T>, c: seq<T>, d: seq<T>, e: seq<T>, rest: seq<T>)
    ensures a + (b + (c + (d + e))) + rest == a + (b + (c + (d + (e + rest))))
  {}

  /** The body is read field by field; the codepage is read and ignored. */
  lemma ReadBodyParts(
      typ: ContType, c: Cursor, order: Dictionary -> seq<nat>,
      nargs: nat, c1: Cursor, stack: Task, c2: Cursor, saves: seq<Task>, c3: Cursor, codepage: nat, c4: Cursor,
      code: Slice, c5: Cursor)
    requires NextInt(c, 22) == Ok((nargs, c1))
    requires ReadStack(c1) == Ok((stack, c2))
    requires ReadSaves(c2, order) == Ok((saves, c3))
    requires NextInt(c3, 16) == Ok((codepage, c4))
    requires ReadSlice(c4) == Ok((code, c5))
    ensures ReadBody(typ, c, order) == Ok((
      [BuildCont(Continuation(code, ReadNargs(nargs), EMPTY_SAVELIST, [], typ))] + saves + [NewSaveList] + [stack], c5))
  {}

  lemma BodyReadBack(
      k: Continuation, list: Builder, dict: Dictionary, b: Builder, accepts: Builder -> bool,
      order: Dictionary -> seq<nat>, bits: seq<bool>, refs: seq<Cell>)
    requires k.code.Valid() && BodyBuilder(k, list, dict, accepts) == Ok(b)
    ensures ReadBody(TruncateType(k.typ), Cursor(b.bits + bits, b.refs + refs), order)
         == Ok((ContTasks(k, list, dict, order), Cursor(bits, refs)))
  {
    var code := SliceBuilder(k.code);
    var stackBits := if k.stack == [] then [false] else [true] + ToBits(|k.stack|, 24);
    var stackCell := if k.stack == [] then [] else [CellOf(list)];
    var dictCell := if dict == EMPTY_DICT then [] else [DictRoot(dict)];
    var c4 := Cursor(code.bits + bits, code.refs + refs);
    var c3 := Cursor(ToBits(0, 16) + c4.bits, c4.refs);
    var c2 := Cursor([dict != EMPTY_DICT] + c3.bits, dictCell + c3.refs);
    var c1 := Cursor(stackBits + c2.bits, stackCell + c2.refs);
    var c0 := Cursor(b.bits + bits, b.refs + refs);
    assert c0 == Cursor(ToBits(k.nargs, 22) + c1.bits, c1.refs) by {
      ConcatRight5(ToBits(k.nargs, 22), stackBits, [dict != EMPTY_DICT], ToBits(0, 16), code.bits, bits);
      ConcatRight3(stackCell, dictCell, code.refs, refs);
    }
    assert NextInt(c0, 22) == Ok((k.nargs % Pow2(22), c1)) by { ReadField(k.nargs, 22, c1.bits, c1.refs); }
    assert ReadStack(c1) == Ok((StackTask(k, list), c2)) by { StackReadBack(k, list, c2.bits, c2.refs); }
    var saves := if dict == EMPTY_DICT then [] else SaveTasks(dict, order(dict));
    assert ReadSaves(c2, order) == Ok((saves, c3)) by { SavesReadBack(dict, order, c3.bits, c3.refs); }
    assert NextInt(c3, 16) == Ok((0, c4)) by { ReadFieldExact(0, 16, c4.bits, c4.refs); }
    assert ReadSlice(c4) == Ok((k.code, Cursor(bits, refs))) by { SliceReadBack(k.code, bits, refs); }
    ReadBodyParts(TruncateType(k.typ), c0, order, k.nargs % Pow2(22), c1, StackTask(k, list), c2, saves, c3, 0, c4,
                  k.code, Cursor(bits, refs));
  }

  lemma ContReadBack(
      k: Continuation, list: Builder, dict: Dictionary, b: Builder, accepts: Builder -> bool,
      order: Dictionary -> seq<nat>, bits: seq<bool>, refs: seq<Cell>)
    requires k.code.Valid() && ValidType(k.typ) && ContBuilder(k, list, dict, accepts) == Ok(b)
    ensures ReadContinuation(Cursor(b.bits + bits, b.refs + refs), order)
         == Ok((ContTasks(k, list, dict, order), Cursor(bits, refs)))
  {
    var head := TypeBuilder(k.typ, accepts).value;
    var body := BodyBuilder(k, list, dict, accepts).value;
    assert b.bits + bits == head.bits + (body.bits + bits);
    assert b.refs + refs == head.refs + (body.refs + refs);
    TypeReadBack(k.typ, head, accepts, body.bits + bits, body.refs + refs);
    BodyReadBack(k, list, dict, body, accepts, order, bits, refs);
  }

  // ----- reading one node of a chain -----

  lemma IntegerReadBack(v: int, refs: seq<Cell>)
    requires Fits257(v)
    ensures ReadElement(Cursor(ToBits(0x02, 8) + ToBits(0x00, 7) + ToBits(v, 257), refs), _ => [])
         == Ok((Done(Integer(Value(v))), Cursor([], refs)))
  {
    hide ToBits, NextInt, Pow2, FromBits, FromBitsSigned;
    SmallPowers();
    var bits := ToBits(v, 257);
    assert ToBits(0x02, 8) + ToBits(0x00, 7) + bits == ToBits(0x02, 8) + (ToBits(0x00, 7) + bits);
    ReadFieldExact(0x02, 8, ToBits(0x00, 7) + bits, refs);
    ReadFieldExact(0x00, 7, bits, refs);
    SignedFromToBits(v, 257);
    assert bits[..257] == bits && bits[257..] == [];
  }

  lemma SmallPowers()
    ensures Pow2(1) == 2 && Pow2(7) == 128 && Pow2(8) == 256
  {}

  lemma NanReadBack(refs: seq<Cell>)
    ensures ReadElement(Cursor(ToBits(0x02ff, 16), refs), _ => []) == Ok((Done(Integer(NaN)), Cursor([], refs)))
  {
    hide ToBits, NextInt, Pow2;
    SmallPowers();
    ToBitsSplit(0x02ff, 8, 8);
    ToBitsSplit(0x02ff, 7, 1);
    var low := ToBits(0x02ff / 2, 7) + ToBits(0x02ff, 1);
    ReadFieldExact(0x02, 8, low, refs);
    ReadField(0x02ff / 2, 7, ToBits(0x02ff, 1), refs);
    ReadField(0x02ff, 1, [], refs);
    assert ToBits(0x02ff, 1) + [] == ToBits(0x02ff, 1);
  }

  /** The first element of a cursor does not depend on the iteration order unless it is a continuation. */
  lemma PlainReadBack(x: StackItem, node: Builder, accepts: Builder -> bool, cell: Cell, order: Dictionary -> seq<nat>)
    requires !x.Tuple? && !x.ContItem? && ValidItem(x) && SimpleNode(x, accepts) == Ok(node)
    ensures ReadElement(Cursor(node.bits, node.refs + [cell]), order) == Ok((Done(x), Cursor([], [cell])))
  {
    hide ToBits, NextInt, Pow2, ReadSlice, SliceBuilder, Fits257;
    assert [] + [cell] == [cell];
    match x
    case Null =>
      ReadTag(0x00, [], [cell]);
    case Integer(NaN) => NanReadBack([cell]);
    case Integer(Value(v)) => IntegerReadBack(v, [cell]);
    case CellItem(c) =>
      ReadTag(0x03, [], [c] + [cell]);
      ReadRef([], c, [cell]);
    case BuilderItem(b) =>
      ReadTag(0x05, [], [CellOf(b)] + [cell]);
      ReadRef([], CellOf(b), [cell]);
    case SliceItem(s) =>
      ReadTag(0x04, SliceBuilder(s).bits, node.refs + [cell]);
      SliceReadBack(s, [], [cell]);
      assert SliceBuilder(s).bits + [] == SliceBuilder(s).bits;
  }

  lemma ReadTag(tag: nat, bits: seq<bool>, refs: seq<Cell>)
    requires tag < 256
    ensures NextInt(Cursor(ToBits(tag, 8) + bits, refs), 8) == Ok((tag, Cursor(bits, refs)))
    ensures NextInt(Cursor(ToBits(tag, 8), refs), 8) == Ok((tag, Cursor([], refs)))
  {
    assert Pow2(8) == 256;
    ReadFieldExact(tag, 8, bits, refs);
    ReadFieldExact(tag, 8, [], refs);
    assert ToBits(tag, 8) + [] == ToBits(tag, 8);
  }

  lemma TupleReadBack(length: nat, inner: Builder, cell: Cell, order: Dictionary -> seq<nat>)
    ensures
      var node := TupleHeader(length);
      ReadElement(Cursor(node.bits, [CellOf(inner)] + [cell]), order)
      == Ok((Open([BuildTuple(Kept(length, 8)), ReadItems(Kept(length, 8), CursorOf(inner))]), Cursor([], [cell])))
  {
    ReadTag(0x07, ToBits(length, 8), [CellOf(inner)] + [cell]);
    ReadField(length, 8, [], [CellOf(inner)] + [cell]);
    assert ToBits(length, 8) + [] == ToBits(length, 8);
    ReadRef([], CellOf(inner), [cell]);
  }

  lemma ContItemReadBack(
      k: Continuation, list: Builder, dict: Dictionary, cons: Builder, accepts: Builder -> bool, cell: Cell,
      order: Dictionary -> seq<nat>)
    requires k.code.Valid() && ValidType(k.typ) && ContBuilder(k, list, dict, accepts) == Ok(cons)
    ensures ReadElement(Cursor(CONT_HEADER.bits, [CellOf(cons)] + [cell]), order)
         == Ok((Open(ContTasks(k, list, dict, order)), Cursor([], [cell])))
  {
    ReadTag(0x06, [], [CellOf(cons)] + [cell]);
    ReadRef([], CellOf(cons), [cell]);
    ContReadBack(k, list, dict, cons, accepts, order, [], []);
    assert cons.bits + [] == cons.bits && cons.refs + [] == cons.refs;
  }

  // ----- the deserializer runs through a chain -----

  /** The encoding of a non-empty list is the encoding of its first item in front of the rest. */
  lemma {:induction false} EncodeAllFront(xs: seq<StackItem>, list: Builder, accepts: Builder -> bool)
    requires xs != [] && EncodeAll(xs, list, accepts).Ok?
    ensures EncodeAll(xs[1..], list, accepts).Ok?
    ensures EncodeAll(xs, list, accepts) == EncodeItem(xs[0], EncodeAll(xs[1..], list, accepts).value, accepts)
  {
    var n := |xs| - 1;
    var rest := EncodeItem(xs[n], list, accepts).value;
    if n == 0 {
      assert xs[..0] == [] && xs[1..] == [];
    } else {
      EncodeAllFront(xs[..n], rest, accepts);
      assert xs[..n][1..] == xs[1..][..n - 1];
      assert xs[1..][n - 1] == xs[n];
      assert xs[..n][0] == xs[0];
    }
  }

  function Advanced(st: State, more: seq<StackItem>, cursor: Cursor): State {
    st.(items := st.items + more, cursor := cursor)
  }

  // Single steps of the run, so that later proofs need not unfold it.

  lemma RunReadsItem(st: State, item: StackItem, list: Builder, order: KeyOrder)
    requires |st.items| < st.length
    requires ReadElement(st.cursor, order) == Ok((Done(item), Cursor([], [CellOf(list)])))
    ensures Run(st, order) == Run(Advanced(st, [item], CursorOf(list)), order)
  {}

  lemma RunOpens(st: State, tasks: seq<Task>, list: Builder, order: KeyOrder)
    requires |st.items| < st.length
    requires ReadElement(st.cursor, order) == Ok((Open(tasks), Cursor([], [CellOf(list)])))
    ensures Run(st, order) == RunTasks(st.(list := st.list + tasks, cursor := CursorOf(list)), order)
  {}

  lemma RunFull(st: State, order: KeyOrder)
    requires |st.items| >= st.length
    ensures Run(st, order) == RunTasks(st, order)
  {}

  lemma RunPops(st: State, t: Task, order: KeyOrder)
    requires PopTask(st.(list := st.list + [t])).Ok?
    ensures RunTasks(st.(list := st.list + [t]), order) == Run(PopTask(st.(list := st.list + [t])).value, order)
  {}

  lemma RunStartsReading(st: State, n: nat, cursor: Cursor, order: KeyOrder)
    ensures RunTasks(st.(list := st.list + [ReadItems(n, cursor)]), order) == Run(Reading(st, n, cursor), order)
  {}

  /** The current list is suspended and a new one of n items is read from `cursor`. */
  function Reading(st: State, n: nat, cursor: Cursor): State {
    st.(itemsStack := st.itemsStack + [Frame(st.items, st.length, st.cursor)],
        items := [], cursor := cursor, length := n)
  }

  lemma ResumeReading(st: State, n: nat, cursor: Cursor, more: seq<StackItem>, st': State)
    requires st'.itemsStack == Reading(st, n, cursor).itemsStack
    ensures Resume(st', more)
         == st'.(items := st.items + more, length := st.length, cursor := st.cursor, itemsStack := st.itemsStack)
  {}

  lemma TupleEncoding(xs: seq<StackItem>, list: Builder, accepts: Builder -> bool)
    requires EncodeItem(Tuple(xs), list, accepts).Ok?
    ensures EncodeAll(xs, EMPTY_BUILDER, accepts).Ok?
    ensures CursorOf(EncodeItem(Tuple(xs), list, accepts).value)
         == Cursor(TupleHeader(|xs|).bits, [CellOf(EncodeAll(xs, EMPTY_BUILDER, accepts).value)] + [CellOf(list)])
  {}

  lemma ContEncoding(k: Continuation, list: Builder, accepts: Builder -> bool)
    requires EncodeItem(ContItem(k), list, accepts).Ok?
    ensures EncodeCont(k, accepts).Ok?
    ensures CursorOf(EncodeItem(ContItem(k), list, accepts).value)
         == Cursor(CONT_HEADER.bits, [CellOf(EncodeCont(k, accepts).value)] + [CellOf(list)])
  {}

  lemma {:induction false} DecodesItem(
      st: State, x: StackItem, list: Builder, accepts: Builder -> bool, order: KeyOrder)
    requires ValidItem(x) && EncodeItem(x, list, accepts).Ok?
    requires st.cursor == CursorOf(EncodeItem(x, list, accepts).value) && |st.items| < st.length
    ensures Run(st, order) == Run(Advanced(st, [Truncate(x)], CursorOf(list)), order)
    decreases x, 1
  {
    hide ListsKeys, Run, RunTasks, ReadElement, SimpleNode;
    match x
    case Tuple(xs) => DecodesTuple(st, xs, list, accepts, order);
    case ContItem(k) => DecodesContItem(st, k, list, accepts, order);
    case _ =>
      var node := SimpleNode(x, accepts).value;
      PlainReadBack(x, node, accepts, CellOf(list), order);
      RunReadsItem(st, x, list, order);
  }

  lemma {:induction false} DecodesFirst(
      st: State, xs: seq<StackItem>, n: nat, list: Builder, accepts: Builder -> bool, order: KeyOrder)
    returns (c: Cursor)
    requires (forall i :: 0 <= i < |xs| ==> ValidItem(xs[i])) && EncodeAll(xs, list, accepts).Ok?
    requires n <= |xs| && |st.items| + n <= st.length
    requires st.cursor == CursorOf(EncodeAll(xs, list, accepts).value)
    ensures Run(st, order) == Run(Advanced(st, TruncateFirst(xs, n), c), order)
    decreases xs, 0
  {
    hide ListsKeys, Run, RunTasks, EncodeItem, EncodeAll, ValidItem, Truncate;
    if n == 0 {
      c := st.cursor;
      assert Advanced(st, TruncateFirst(xs, n), c) == st;
    } else {
      EncodeAllFront(xs, list, accepts);
      var rest := EncodeAll(xs[1..], list, accepts).value;
      DecodesItem(st, xs[0], rest, accepts, order);
      var st1 := Advanced(st, [Truncate(xs[0])], CursorOf(rest));
      c := DecodesFirst(st1, xs[1..], n - 1, list, accepts, order);
      assert Advanced(st1, TruncateFirst(xs[1..], n - 1), c) == Advanced(st, TruncateFirst(xs, n), c);
    }
  }

  lemma {:induction false} DecodesTuple(
      st: State, xs: seq<StackItem>, list: Builder, accepts: Builder -> bool, order: KeyOrder)
    requires (forall i :: 0 <= i < |xs| ==> ValidItem(xs[i])) && EncodeItem(Tuple(xs), list, accepts).Ok?
    requires st.cursor == CursorOf(EncodeItem(Tuple(xs), list, accepts).value) && |st.items| < st.length
    ensures Run(st, order) == Run(Advanced(st, [Truncate(Tuple(xs))], CursorOf(list)), order)
    decreases xs, 2
  {
    hide ListsKeys, Run, RunTasks, ReadElement, ValidItem, TruncateFirst, EncodeItem, EncodeAll, TupleHeader;
    TupleEncoding(xs, list, accepts);
    var inner := EncodeAll(xs, EMPTY_BUILDER, accepts).value;
    var n := Kept(|xs|, 8);
    var read := ReadItems(n, CursorOf(inner));
    TupleReadBack(|xs|, inner, CellOf(list), order);
    RunOpens(st, [BuildTuple(n), read], list, order);
    var st1 := st.(list := st.list + [BuildTuple(n)], cursor := CursorOf(list));
    assert st.list + [BuildTuple(n), read] == st1.list + [read];
    RunStartsReading(st1, n, CursorOf(inner), order);
    var st2 := Reading(st1, n, CursorOf(inner));
    var c := DecodesFirst(st2, xs, n, EMPTY_BUILDER, accepts, order);
    ClosesTuple(st.(cursor := CursorOf(list)), TruncateFirst(xs, n), CursorOf(inner), c, order);
  }

  lemma ClosesTuple(st: State, items: seq<StackItem>, cursor: Cursor, c: Cursor, order: KeyOrder)
    ensures
      var st1 := Reading(st.(list := st.list + [BuildTuple(|items|)]), |items|, cursor);
      Run(Advanced(st1, items, c), order) == Run(st.(items := st.items + [Tuple(items)]), order)
  {
    hide ListsKeys, Run, RunTasks;
    var st1 := Reading(st.(list := st.list + [BuildTuple(|items|)]), |items|, cursor);
    var st2 := Advanced(st1, items, c);
    assert st2.items == items;
    RunFull(st2, order);
    var st3 := st2.(list := st.list);
    assert st3.(list := st3.list + [BuildTuple(|items|)]) == st2;
    assert st2.list[..|st.list|] == st.list;
    ResumeReading(st, |items|, cursor, [Tuple(items)], st3);
    RunPops(st3, BuildTuple(|items|), order);
  }

  lemma {:induction false} DecodesContItem(
      st: State, k: Continuation, list: Builder, accepts: Builder -> bool, order: KeyOrder)
    requires ValidCont(k) && EncodeItem(ContItem(k), list, accepts).Ok?
    requires st.cursor == CursorOf(EncodeItem(ContItem(k), list, accepts).value) && |st.items| < st.length
    ensures Run(st, order) == Run(Advanced(st, [Truncate(ContItem(k))], CursorOf(list)), order)
    decreases k, 2
  {
    hide ListsKeys, Run, RunTasks, ReadElement, ContBuilder, ContTasks, ValidItem, EncodeItem,
      EncodeAll, EncodeSaves, TruncateCont;
    ContEncoding(k, list, accepts);
    var dict := EncodeSaves(k.savelist, |k.savelist|, EMPTY_DICT, accepts).value;
    var stack := EncodeAll(k.stack, EMPTY_BUILDER, accepts).value;
    var cons := EncodeCont(k, accepts).value;
    assert ContBuilder(k, stack, dict, accepts) == Ok(cons);
    ContItemReadBack(k, stack, dict, cons, accepts, CellOf(list), order);
    RunOpens(st, ContTasks(k, stack, dict, order), list, order);
    DecodesCont(st.(cursor := CursorOf(list)), k, accepts, order);
  }

  /** Executing the tasks of a continuation adds exactly the truncated continuation. */
  lemma {:induction false} DecodesCont(st: State, k: Continuation, accepts: Builder -> bool, order: KeyOrder)
    requires ValidCont(k) && EncodeCont(k, accepts).Ok?
    ensures
      var dict := EncodeSaves(k.savelist, |k.savelist|, EMPTY_DICT, accepts).value;
      var stack := EncodeAll(k.stack, EMPTY_BUILDER, accepts).value;
      RunTasks(st.(list := st.list + ContTasks(k, stack, dict, order)), order)
      == Run(st.(items := st.items + [ContItem(TruncateCont(k))]), order)
    decreases k, 1
  {
    hide ListsKeys, Run, RunTasks, ContBuilder, TruncateFirst, TruncateSaves, SaveTasks, EncodeItem,
      ValidItem, ValidType;
    var dict := EncodeSaves(k.savelist, |k.savelist|, EMPTY_DICT, accepts).value;
    var stack := EncodeAll(k.stack, EMPTY_BUILDER, accepts).value;
    var build, saves := BuildCont(EmptyShell(k)), if dict == EMPTY_DICT then [] else SaveTasks(dict, order(dict));
    var n := Kept(|k.stack|, 24);
    var task := StackTask(k, stack);
    var st1 := st.(list := st.list + [build] + saves + [NewSaveList]);
    assert st.list + ContTasks(k, stack, dict, order) == st1.list + [task];
    RunStartsReading(st1, n, task.cursor, order);
    var c := DecodesStack(Reading(st1, n, task.cursor), k, stack, accepts, order);
    var st2 := Advanced(Reading(st.(list := st.list + [build] + saves), n, task.cursor), TruncateFirst(k.stack, n), c);
    assert Advanced(Reading(st1, n, task.cursor), TruncateFirst(k.stack, n), c)
        == st2.(list := st2.list + [NewSaveList]);
    OpensSaveList(st2, order);
    var st3 := st2.(list := st.list + [build], savelistStack := st.savelistStack + [EMPTY_SAVELIST]);
    assert st2.(savelistStack := st.savelistStack + [EMPTY_SAVELIST]) == st3.(list := st3.list + saves);
    DecodesSaveList(st3, st.savelistStack, k.savelist, dict, accepts, order);
    ClosesCont(st, k, task.cursor, c, order);
  }

  lemma OpensSaveList(st: State, order: KeyOrder)
    requires |st.items| >= st.length
    ensures Run(st.(list := st.list + [NewSaveList]), order)
         == RunTasks(st.(savelistStack := st.savelistStack + [EMPTY_SAVELIST]), order)
  {
    hide ListsKeys, Run, RunTasks;
    RunFull(st.(list := st.list + [NewSaveList]), order);
    RunPops(st, NewSaveList, order);
    assert (st.list + [NewSaveList])[..|st.list|] == st.list;
    RunFull(st.(savelistStack := st.savelistStack + [EMPTY_SAVELIST]), order);
  }

  lemma {:induction false} DecodesStack(
      st: State, k: Continuation, stack: Builder, accepts: Builder -> bool, order: KeyOrder)
    returns (c: Cursor)
    requires forall i :: 0 <= i < |k.stack| ==> ValidItem(k.stack[i])
    requires EncodeAll(k.stack, EMPTY_BUILDER, accepts) == Ok(stack)
    requires st.items == [] && st.length == Kept(|k.stack|, 24) && st.cursor == StackTask(k, stack).cursor
    ensures Run(st, order) == Run(Advanced(st, TruncateFirst(k.stack, Kept(|k.stack|, 24)), c), order)
    decreases k, 0
  {
    hide ListsKeys, Run, RunTasks, EncodeAll;
    if k.stack != [] {
      c := DecodesFirst(st, k.stack, Kept(|k.stack|, 24), EMPTY_BUILDER, accepts, order);
    } else {
      c := st.cursor;
      assert Advanced(st, TruncateFirst(k.stack, 0), c) == st;
    }
  }

  lemma ClosesCont(st: State, k: Continuation, cursor: Cursor, c: Cursor, order: KeyOrder)
    ensures
      var n := Kept(|k.stack|, 24);
      var open := st.(list := st.list + [BuildCont(EmptyShell(k))]);
      var st1 := Advanced(Reading(open, n, cursor), TruncateFirst(k.stack, n), c);
      RunTasks(st1.(savelistStack := st.savelistStack + [TruncateSaves(k.savelist)]), order)
      == Run(st.(items := st.items + [ContItem(TruncateCont(k))]), order)
  {
    hide ListsKeys, Run, RunTasks;
    var n := Kept(|k.stack|, 24);
    var build := BuildCont(EmptyShell(k));
    var saves := st.savelistStack + [TruncateSaves(k.savelist)];
    var st1 := Advanced(Reading(st.(list := st.list + [build]), n, cursor), TruncateFirst(k.stack, n), c);
    var st2 := st1.(savelistStack := saves);
    var st3 := st2.(list := st.list);
    assert st3.(list := st3.list + [build]) == st2;
    assert st2.items == TruncateFirst(k.stack, n);
    assert st2.list[..|st.list|] == st.list;
    assert saves[..|saves| - 1] == st.savelistStack;
    var cont := ContItem(TruncateCont(k));
    ResumeReading(st, n, cursor, [cont], st3.(savelistStack := st.savelistStack));
    RunPops(st3, build, order);
  }

  // ----- savelists -----

  /** The savelist t after the given registers of s have been put, the last one first. */
  function Fill(t: SaveList, s: SaveList, keys: seq<nat>): (r: SaveList)
    requires |t| == |s| == NUMREGS && forall i :: 0 <= i < |keys| ==> IsRegister(keys[i])
    ensures |r| == NUMREGS
    decreases |keys|
  {
    if keys == [] then t else
      assert IsRegister(keys[|keys| - 1]);
      var k := Adjust(keys[|keys| - 1]);
      Fill(t[k := TruncateSlot(s[k])], s, keys[..|keys| - 1])
  }

  lemma {:induction false} FillAt(t: SaveList, s: SaveList, keys: seq<nat>, pos: nat)
    requires |t| == |s| == NUMREGS && (forall i :: 0 <= i < |keys| ==> IsRegister(keys[i])) && pos < NUMREGS
    ensures Fill(t, s, keys)[pos] == if RegisterAt(pos) in keys then TruncateSlot(s[pos]) else t[pos]
    decreases |keys|
  {
    if keys != [] {
      var init, key := keys[..|keys| - 1], keys[|keys| - 1];
      FillAt(t[Adjust(key) := TruncateSlot(s[Adjust(key)])], s, init, pos);
      assert keys == init + [key];
    }
  }

  lemma {:induction false} TruncateSavesAt(s: SaveList, pos: nat)
    requires pos < |s|
    ensures TruncateSaves(s)[pos] == TruncateSlot(s[pos])
  {
    if pos > 0 {
      TruncateSavesAt(s[1..], pos - 1);
    }
  }

  predicate EntryMatches(s: SaveList, dict: Dictionary, key: nat, accepts: Builder -> bool)
    requires |s| == NUMREGS
  {
    && key < |dict| && IsRegister(key) && s[Adjust(key)].Saved?
    && EncodeItem(s[Adjust(key)].item, EMPTY_BUILDER, accepts).Ok?
    && dict[key] == Present(EncodeItem(s[Adjust(key)].item, EMPTY_BUILDER, accepts).value)
  }

  lemma {:induction false} DecodesRegister(
      st: State, base: seq<SaveList>, t: SaveList, s: SaveList, dict: Dictionary, key: nat,
      accepts: Builder -> bool, order: KeyOrder)
    requires |t| == NUMREGS && TypedSaveList(s) && (forall i :: 0 <= i < |s| ==> ValidSlot(s[i]))
    requires EntryMatches(s, dict, key, accepts)
    requires st.savelistStack == base + [t] && |st.items| >= st.length
    ensures
      var read := ReadItems(1, CursorOf(dict[key].value));
      RunTasks(st.(list := st.list + [PutRegister(key), read]), order)
      == RunTasks(st.(savelistStack := base + [t[Adjust(key) := TruncateSlot(s[Adjust(key)])]]), order)
    decreases s, 0
  {
    hide ListsKeys, Run, RunTasks, EncodeItem;
    var pos := Adjust(key);
    assert s decreases to s[pos];
    var x := s[pos].item;
    var read := ReadItems(1, CursorOf(dict[key].value));
    var st1 := st.(list := st.list + [PutRegister(key)]);
    assert st.list + [PutRegister(key), read] == st1.list + [read];
    RunStartsReading(st1, 1, read.cursor, order);
    var st2 := Reading(st1, 1, read.cursor);
    assert ValidSlot(s[pos]);
    DecodesItem(st2, x, EMPTY_BUILDER, accepts, order);
    assert CanPut(RegisterAt(pos), x) && RegisterAt(pos) == key;
    ClosesRegister(st, base, t, key, Truncate(x), read.cursor, CursorOf(EMPTY_BUILDER), order);
    RunFull(st.(savelistStack := base + [t[pos := TruncateSlot(s[pos])]]), order);
  }

  lemma ClosesRegister(
      st: State, base: seq<SaveList>, t: SaveList, key: nat, item: StackItem, cursor: Cursor, c: Cursor,
      order: KeyOrder)
    requires |t| == NUMREGS && IsRegister(key) && CanPut(key, item) && st.savelistStack == base + [t]
    ensures
      var st1 := Reading(st.(list := st.list + [PutRegister(key)]), 1, cursor);
      Run(Advanced(st1, [item], c), order) == Run(st.(savelistStack := base + [t[Adjust(key) := Saved(item)]]), order)
  {
    hide ListsKeys, Run, RunTasks;
    var st1 := Reading(st.(list := st.list + [PutRegister(key)]), 1, cursor);
    var st2 := Advanced(st1, [item], c);
    assert st2.items == [item];
    RunFull(st2, order);
    var st3 := st2.(list := st.list);
    assert st3.(list := st3.list + [PutRegister(key)]) == st2;
    assert st2.list[..|st.list|] == st.list;
    assert st2.savelistStack[..|st2.savelistStack| - 1] == base;
    var saves := base + [t[Adjust(key) := Saved(item)]];
    ResumeReading(st, 1, cursor, [], st3.(savelistStack := saves));
    assert st.items + [] == st.items;
    RunPops(st3, PutRegister(key), order);
  }

  lemma {:induction false} DecodesSaves(
      st: State, base: seq<SaveList>, t: SaveList, s: SaveList, dict: Dictionary, keys: seq<nat>,
      accepts: Builder -> bool, order: KeyOrder)
    requires |t| == NUMREGS && TypedSaveList(s) && (forall i :: 0 <= i < |s| ==> ValidSlot(s[i]))
    requires forall i :: 0 <= i < |keys| ==> EntryMatches(s, dict, keys[i], accepts)
    requires st.savelistStack == base + [t] && |st.items| >= st.length
    ensures forall i :: 0 <= i < |keys| ==> IsRegister(keys[i])
    ensures RunTasks(st.(list := st.list + SaveTasks(dict, keys)), order)
         == RunTasks(st.(savelistStack := base + [Fill(t, s, keys)]), order)
    decreases s, 1, |keys|
  {
    hide ListsKeys, Run, RunTasks, EncodeItem, TruncateSlot;
    if keys == [] {
      assert st.(list := st.list + SaveTasks(dict, keys)) == st;
    } else {
      var init, key := keys[..|keys| - 1], keys[|keys| - 1];
      assert EntryMatches(s, dict, key, accepts);
      var read := ReadItems(1, CursorOf(dict[key].value));
      var st1 := st.(list := st.list + SaveTasks(dict, init));
      assert st.list + SaveTasks(dict, keys) == st1.list + [PutRegister(key), read];
      DecodesRegister(st1, base, t, s, dict, key, accepts, order);
      var t' := t[Adjust(key) := TruncateSlot(s[Adjust(key)])];
      var st2 := st.(savelistStack := base + [t']);
      assert st1.(savelistStack := base + [t']) == st2.(list := st2.list + SaveTasks(dict, init));
      DecodesSaves(st2, base, t', s, dict, init, accepts, order);
    }
  }

  lemma {:induction false} DecodesSaveList(
      st: State, base: seq<SaveList>, s: SaveList, dict: Dictionary, accepts: Builder -> bool, order: KeyOrder)
    requires TypedSaveList(s) && (forall i :: 0 <= i < |s| ==> ValidSlot(s[i]))
    requires EncodeSaves(s, |s|, EMPTY_DICT, accepts) == Ok(dict)
    requires st.savelistStack == base + [EMPTY_SAVELIST] && |st.items| >= st.length
    ensures RunTasks(st.(list := st.list + if dict == EMPTY_DICT then [] else SaveTasks(dict, order(dict))), order)
         == RunTasks(st.(savelistStack := base + [TruncateSaves(s)]), order)
    decreases s, 2
  {
    hide ListsKeys, Run, RunTasks, EntryMatches, EncodeSaves, TruncateSaves, Fill, SaveTasks, ValidSlot;
    var keys := order(dict);
    KeysMatch(s, dict, accepts, order);
    NoKeys(dict, order);
    DecodesSaves(st, base, EMPTY_SAVELIST, s, dict, keys, accepts, order);
    FillsAll(s, dict, accepts, order);
  }

  lemma NoKeys(dict: Dictionary, order: KeyOrder)
    ensures dict == EMPTY_DICT ==> SaveTasks(dict, order(dict)) == []
  {}

  /** What stands in the dictionary was saved in the register, and the other way round. */
  lemma KeyMatches(s: SaveList, dict: Dictionary, key: nat, accepts: Builder -> bool)
    requires TypedSaveList(s) && EncodeSaves(s, |s|, EMPTY_DICT, accepts) == Ok(dict) && key < 16
    ensures |dict| == 16
    ensures dict[key].Present? ==> EntryMatches(s, dict, key, accepts)
    ensures IsRegister(key) && s[Adjust(key)].Saved? ==> dict[key].Present?
  {
    hide EncodeItem, EncodeSaves;
    EncodeSavesEntries(s, |s|, EMPTY_DICT, accepts);
    assert EMPTY_DICT[key] == Absent;
  }

  lemma ListedKey(dict: Dictionary, order: KeyOrder, i: nat)
    requires |dict| == 16 && i < |order(dict)|
    ensures order(dict)[i] < 16 && dict[order(dict)[i]].Present?
  {
    assert ListsKeys(dict, order(dict));
  }

  lemma ListedIff(dict: Dictionary, order: KeyOrder, key: nat)
    requires |dict| == 16 && key < 16
    ensures key in order(dict) <==> dict[key].Present?
  {
    assert ListsKeys(dict, order(dict));
  }

  lemma KeysMatch(s: SaveList, dict: Dictionary, accepts: Builder -> bool, order: KeyOrder)
    requires TypedSaveList(s) && EncodeSaves(s, |s|, EMPTY_DICT, accepts) == Ok(dict)
    ensures forall i :: 0 <= i < |order(dict)| ==> EntryMatches(s, dict, order(dict)[i], accepts)
  {
    hide EncodeItem, EncodeSaves, ListsKeys, EntryMatches;
    KeyMatches(s, dict, 0, accepts);
    forall i | 0 <= i < |order(dict)|
      ensures EntryMatches(s, dict, order(dict)[i], accepts)
    {
      ListedKey(dict, order, i);
      KeyMatches(s, dict, order(dict)[i], accepts);
    }
  }

  lemma FillsAll(s: SaveList, dict: Dictionary, accepts: Builder -> bool, order: KeyOrder)
    requires TypedSaveList(s) && EncodeSaves(s, |s|, EMPTY_DICT, accepts) == Ok(dict)
    requires forall i :: 0 <= i < |order(dict)| ==> IsRegister(order(dict)[i])
    ensures Fill(EMPTY_SAVELIST, s, order(dict)) == TruncateSaves(s)
  {
    hide EncodeItem, EncodeSaves, Fill, TruncateSaves, ListsKeys, EntryMatches;
    var keys := order(dict);
    var filled := Fill(EMPTY_SAVELIST, s, keys);
    forall pos | 0 <= pos < NUMREGS
      ensures filled[pos] == TruncateSaves(s)[pos]
    {
      FillAt(EMPTY_SAVELIST, s, keys, pos);
      TruncateSavesAt(s, pos);
      KeyMatches(s, dict, RegisterAt(pos), accepts);
      ListedIff(dict, order, RegisterAt(pos));
      RegisterBack(pos);
      if dict[RegisterAt(pos)].Present? {
        MatchIsSaved(s, dict, RegisterAt(pos), accepts);
      }
    }
  }

  lemma MatchIsSaved(s: SaveList, dict: Dictionary, key: nat, accepts: Builder -> bool)
    requires |s| == NUMREGS && EntryMatches(s, dict, key, accepts)
    ensures IsRegister(key) && s[Adjust(key)].Saved?
  {}

  lemma RegisterBack(pos: nat)
    requires pos < NUMREGS
    ensures RegisterAt(pos) < 16 && IsRegister(RegisterAt(pos)) && Adjust(RegisterAt(pos)) == pos
  {}

  // ----- the round trip -----

  lemma RunDone(st: State, order: KeyOrder)
    requires st.list == [] && |st.items| >= st.length
    ensures Run(st, order) == Ok(st.items)
  {}

  /** Deserializing a serialized item gives the item truncated to the stored field widths. */
  lemma {:induction false} ItemRoundTrip(x: StackItem, accepts: Builder -> bool, order: KeyOrder)
    requires ValidItem(x) && EncodeItem(x, EMPTY_BUILDER, accepts).Ok?
    ensures DecodeItem(CursorOf(EncodeItem(x, EMPTY_BUILDER, accepts).value), order) == Ok(Truncate(x))
  {
    hide ListsKeys, Run, RunTasks, EncodeItem, ValidItem, Truncate;
    var cursor := CursorOf(EncodeItem(x, EMPTY_BUILDER, accepts).value);
    var st := Start([]);
    assert st.(list := st.list + [ReadItems(1, cursor)]) == Start([ReadItems(1, cursor)]);
    RunFull(Start([ReadItems(1, cursor)]), order);
    RunStartsReading(st, 1, cursor, order);
    DecodesItem(Reading(st, 1, cursor), x, EMPTY_BUILDER, accepts, order);
    var last := Advanced(Reading(st, 1, cursor), [Truncate(x)], CursorOf(EMPTY_BUILDER));
    assert last.items == [Truncate(x)];
    RunDone(last, order);
  }

  /** The same for a continuation, whatever follows it in the slice. */
  lemma {:induction false} ContinuationRoundTrip(
      k: Continuation, accepts: Builder -> bool, order: KeyOrder, bits: seq<bool>, refs: seq<Cell>)
    requires ValidCont(k) && EncodeCont(k, accepts).Ok?
    ensures
      var b := EncodeCont(k, accepts).value;
      DecodeContinuation(Cursor(b.bits + bits, b.refs + refs), order) == Ok((TruncateCont(k), Cursor(bits, refs)))
  {
    hide ListsKeys, Run, RunTasks, ContBuilder, ContTasks, EncodeAll, EncodeSaves, TruncateCont, ReadContinuation;
    var b := EncodeCont(k, accepts).value;
    var dict := EncodeSaves(k.savelist, |k.savelist|, EMPTY_DICT, accepts).value;
    var stack := EncodeAll(k.stack, EMPTY_BUILDER, accepts).value;
    ContReadBack(k, stack, dict, b, accepts, order, bits, refs);
    var tasks := ContTasks(k, stack, dict, order);
    var st := Start([]);
    assert st.(list := st.list + tasks) == Start(tasks);
    RunFull(Start(tasks), order);
    DecodesCont(st, k, accepts, order);
    var last := st.(items := st.items + [ContItem(TruncateCont(k))]);
    assert last.items == [ContItem(TruncateCont(k))];
    RunDone(last, order);
  }

  // ----- exactly the values whose fields are in range survive -----

  predicate InRangeType(t: ContType) {
    match t
    case CatchRevert(depth) => depth < Pow2(32)
    case Quit(exitCode) => -Pow2(31) <= exitCode < Pow2(31)
    case PushInt(pushed) => -Pow2(31) <= pushed < Pow2(31)
    case RepeatLoopBody(_, counter) => 0 <= counter < Pow2(32)
    case _ => true
  }

  ghost predicate InRange(x: StackItem)
    decreases x
  {
    match x
    case Tuple(items) => |items| <= 255 && forall i :: 0 <= i < |items| ==> InRange(items[i])
    case ContItem(k) => InRangeCont(k)
    case _ => true
  }

  ghost predicate InRangeCont(k: Continuation)
    decreases k
  {
    && -1 <= k.nargs <= Pow2(22) - 2
    && InRangeType(k.typ)
    && |k.stack| < Pow2(24)
    && (forall i :: 0 <= i < |k.stack| ==> InRange(k.stack[i]))
    && (forall i :: 0 <= i < |k.savelist| ==> InRangeSlot(k.savelist[i]))
  }

  ghost predicate InRangeSlot(s: Slot)
    decreases s
  {
    s.Saved? ==> InRange(s.item)
  }

  lemma Int32Survives(n: int)
    ensures WrapInt32(n) == n <==> -Pow2(31) <= n < Pow2(31)
  {
    assert Pow2(32) == 2 * Pow2(31);
    var p := Pow2(31);
    assert n % (2 * p) % (2 * p) == n % (2 * p) by {
      DivModUnique(n % (2 * p), 2 * p, 0, n % (2 * p));
    }
    if 0 <= n < p {
      DivModUnique(n, 2 * p, 0, n);
    } else if -p <= n < 0 {
      DivModUnique(n, 2 * p, -1, n + 2 * p);
    }
  }

  lemma NargsSurvives(n: int)
    ensures ReadNargs(n % Pow2(22)) == n <==> -1 <= n <= Pow2(22) - 2
  {
    assert Pow2(11) == 0x800;
    Pow2Add(11, 11);
    assert Pow2(22) == 0x400000;
  }

  lemma ModSurvives(n: int, p: int)
    requires p >= 1
    ensures n % p == n <==> 0 <= n < p
  {
    if 0 <= n < p {
      DivModUnique(n, p, 0, n);
    }
  }

  lemma TypeSurvives(t: ContType)
    ensures TruncateType(t) == t <==> InRangeType(t)
  {
    hide Pow2, WrapInt32;
    match t
    case CatchRevert(depth) => ModSurvives(depth, Pow2(32));
    case RepeatLoopBody(_, counter) => ModSurvives(counter, Pow2(32));
    case Quit(exitCode) => Int32Survives(exitCode);
    case PushInt(pushed) => Int32Survives(pushed);
    case _ =>
  }

  lemma {:induction false} FirstSurvive(xs: seq<StackItem>, n: nat)
    requires n <= |xs|
    ensures TruncateFirst(xs, n) == xs <==> n == |xs| && forall i :: 0 <= i < |xs| ==> InRange(xs[i])
    decreases xs, 0
  {
    if n > 0 {
      Survives(xs[0]);
      FirstSurvive(xs[1..], n - 1);
      assert xs == [xs[0]] + xs[1..];
      if TruncateFirst(xs, n) == xs {
        assert Truncate(xs[0]) == xs[0];
        assert TruncateFirst(xs[1..], n - 1) == TruncateFirst(xs, n)[1..] == xs[1..];
        forall i | 0 <= i < |xs| ensures InRange(xs[i]) {
          if i > 0 { assert xs[i] == xs[1..][i - 1]; }
        }
      }
      if n == |xs| && forall i :: 0 <= i < |xs| ==> InRange(xs[i]) {
        assert forall i :: 0 <= i < |xs[1..]| ==> xs[1..][i] == xs[i + 1];
      }
    }
  }

  lemma {:induction false} SavesSurvive(s: SaveList)
    ensures TruncateSaves(s) == s <==> forall i :: 0 <= i < |s| ==> InRangeSlot(s[i])
    decreases s, 1
  {
    forall i | 0 <= i < |s|
      ensures TruncateSaves(s)[i] == TruncateSlot(s[i])
      ensures TruncateSlot(s[i]) == s[i] <==> InRangeSlot(s[i])
    {
      TruncateSavesAt(s, i);
      assert s decreases to s[i];
      if s[i].Saved? { Survives(s[i].item); }
    }
    if forall i :: 0 <= i < |s| ==> InRangeSlot(s[i]) {
      assert forall i :: 0 <= i < |s| ==> TruncateSaves(s)[i] == s[i];
    }
  }

  /** Truncation changes nothing exactly when every field at every depth is in range. */
  lemma {:induction false} Survives(x: StackItem)
    ensures Truncate(x) == x <==> InRange(x)
    decreases x, 2
  {
    match x
    case Tuple(items) =>
      assert Pow2(8) == 256;
      FirstSurvive(items, Kept(|items|, 8));
    case ContItem(k) => ContinuationSurvives(k);
    case _ =>
  }

  lemma {:induction false} ContinuationSurvives(k: Continuation)
    ensures TruncateCont(k) == k <==> InRangeCont(k)
    decreases k, 2
  {
    NargsSurvives(k.nargs);
    TypeSurvives(k.typ);
    FirstSurvive(k.stack, Kept(|k.stack|, 24));
    SavesSurvive(k.savelist);
  }
}
