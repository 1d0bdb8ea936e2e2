/**
 * The layout of a serialized stack item or continuation, field by field, as a reader of the cells finds
 * it: which number stands in which bits and which cell is which reference. Every encoding has it.
 */
module Layout {
  import opened Outcomes
  import opened Bits
  import opened Cells
  import opened Values
  import opened Encoder

  // ----- fields -----

  /** The number in a field. */
  predicate Holds(bits: seq<bool>, at: nat, width: nat, n: int) {
    at + width <= |bits| && FromBits(bits[at..at + width]) == n
  }

  /** The windows of a slice: two times ten bits for data and two times three for references. */
  predicate SliceAt(bits: seq<bool>, at: nat, s: Slice) {
    && Holds(bits, at, 10, s.dataStart % 1024)
    && Holds(bits, at + 10, 10, s.dataEnd % 1024)
    && Holds(bits, at + 20, 3, s.refStart % 8)
    && Holds(bits, at + 23, 3, s.refEnd % 8)
  }

  /** A two-bit or four-bit code, and for some types a number of 32 bits. */
  function TypeWidth(typ: ContType): nat {
    match typ
    case Ordinary => 2
    case TryCatch => 4
    case ExcQuit => 4
    case UntilLoopCondition(_) => 4
    case WhileLoopCondition(_, _) => 4
    case AgainLoopBody(_) => 4
    case _ => 36
  }

  predicate TypeAt(typ: ContType, bits: seq<bool>) {
    match typ
    case Ordinary => Holds(bits, 0, 2, 0)
    case CatchRevert(depth) => Holds(bits, 0, 4, 7) && Holds(bits, 4, 32, depth % 0x1_0000_0000)
    case Quit(exitCode) => Holds(bits, 0, 4, 8) && Holds(bits, 4, 32, exitCode % 0x1_0000_0000)
    case TryCatch => Holds(bits, 0, 4, 9)
    case UntilLoopCondition(_) => Holds(bits, 0, 4, 10)
    case ExcQuit => Holds(bits, 0, 4, 11)
    case WhileLoopCondition(_, _) => Holds(bits, 0, 4, 12)
    case AgainLoopBody(_) => Holds(bits, 0, 4, 13)
    case RepeatLoopBody(_, counter) => Holds(bits, 0, 4, 14) && Holds(bits, 4, 32, counter % 0x1_0000_0000)
    case PushInt(pushed) => Holds(bits, 0, 4, 15) && Holds(bits, 4, 32, pushed % 0x1_0000_0000)
  }

  /** The cells a type refers to: the slices of a loop. */
  predicate TypeRefs(typ: ContType, refs: seq<Cell>) {
    match typ
    case UntilLoopCondition(body) => OneSlice(refs, body)
    case AgainLoopBody(body) => OneSlice(refs, body)
    case RepeatLoopBody(body, _) => OneSlice(refs, body)
    case WhileLoopCondition(body, cond) =>
      && |refs| == 1 && refs[0].Cell? && |refs[0].bits| == 52
      && SliceAt(refs[0].bits, 0, cond) && SliceAt(refs[0].bits, 26, body)
      && refs[0].refs == [cond.cell, body.cell]
    case _ => refs == []
  }

  predicate OneSlice(refs: seq<Cell>, s: Slice) {
    && |refs| == 1 && refs[0].Cell? && |refs[0].bits| == 26
    && SliceAt(refs[0].bits, 0, s) && refs[0].refs == [s.cell]
  }

  function AsBuilder(c: Cell): Builder
    requires c.Cell?
  {
    Builder(c.bits, c.refs)
  }

  // ----- items, lists and continuations -----

  /** A node: the item, and the rest of its list as the last reference. */
  ghost predicate ItemAt(b: Builder, x: StackItem, rest: Builder)
    decreases x
  {
    && b.refs != [] && b.refs[|b.refs| - 1] == Cell(rest.bits, rest.refs)
    && match x
       case Null => |b.bits| == 8 && Holds(b.bits, 0, 8, 0x00) && |b.refs| == 1
       case Integer(NaN) => |b.bits| == 16 && Holds(b.bits, 0, 16, 0x02ff) && |b.refs| == 1
       case Integer(Value(v)) =>
         && |b.bits| == 272 && Holds(b.bits, 0, 8, 0x02) && Holds(b.bits, 8, 7, 0) && FromBitsSigned(b.bits[15..]) == v
         && |b.refs| == 1
       case CellItem(c) => |b.bits| == 8 && Holds(b.bits, 0, 8, 0x03) && |b.refs| == 2 && b.refs[0] == c
       case SliceItem(s) =>
         && |b.bits| == 34 && Holds(b.bits, 0, 8, 0x04) && SliceAt(b.bits, 8, s)
         && |b.refs| == 2 && b.refs[0] == s.cell
       case BuilderItem(d) =>
         |b.bits| == 8 && Holds(b.bits, 0, 8, 0x05) && |b.refs| == 2 && b.refs[0] == Cell(d.bits, d.refs)
       case ContItem(k) =>
         && |b.bits| == 8 && Holds(b.bits, 0, 8, 0x06)
         && |b.refs| == 2 && b.refs[0].Cell? && ContAt(AsBuilder(b.refs[0]), k)
       case Tuple(items) =>
         && |b.bits| == 16 && Holds(b.bits, 0, 8, 0x07) && Holds(b.bits, 8, 8, |items| % 256)
         && |b.refs| == 2 && b.refs[0].Cell? && ListAt(AsBuilder(b.refs[0]), items, Builder([], []))
  }

  /** A list: the node of its first item leads to the rest. */
  ghost predicate ListAt(b: Builder, xs: seq<StackItem>, rest: Builder)
    decreases xs
  {
    if xs == [] then b == rest
    else
      && b.refs != [] && b.refs[|b.refs| - 1].Cell?
      && ItemAt(b, xs[0], AsBuilder(b.refs[|b.refs| - 1]))
      && ListAt(AsBuilder(b.refs[|b.refs| - 1]), xs[1..], rest)
  }

  /** An entry of the savelist dictionary: a list of the one saved item. */
  ghost predicate SlotAt(e: Entry, s: Slot)
    decreases s
  {
    match s
    case Unset => e.Absent?
    case Saved(x) => e.Present? && ItemAt(e.value, x, Builder([], []))
  }

  predicate AnySaved(s: SaveList) {
    exists i :: 0 <= i < |s| && s[i].Saved?
  }

  /** The dictionary key of a position: registers 0 to 5, and 7. */
  function KeyOf(i: nat): nat {
    if i == 6 then 7 else i
  }

  /** The bits of a continuation: type, nargs, stack, savelist flag, codepage zero, code. */
  predicate ContBits(bits: seq<bool>, k: Continuation) {
    var t := TypeWidth(k.typ);
    var s := t + 22 + if k.stack == [] then 1 else 25;
    && |bits| == s + 1 + 16 + 26
    && TypeAt(k.typ, bits)
    && Holds(bits, t, 22, k.nargs % 0x40_0000)
    && (bits[t + 22] <==> k.stack != [])
    && (k.stack != [] ==> Holds(bits, t + 23, 24, |k.stack| % 0x100_0000))
    && (bits[s] <==> AnySaved(k.savelist))
    && Holds(bits, s + 1, 16, 0)
    && SliceAt(bits, s + 17, k.code)
  }

  /** The number of references of a type. */
  function RefsOf(typ: ContType): nat {
    if typ.UntilLoopCondition? || typ.WhileLoopCondition? || typ.AgainLoopBody? || typ.RepeatLoopBody? then 1 else 0
  }

  /** Its references: those of the type, the stack, the dictionary, and the cell of the code. */
  ghost predicate ContRefs(refs: seq<Cell>, k: Continuation)
    decreases k, 0
  {
    var t := RefsOf(k.typ);
    var d := t + if k.stack == [] then 0 else 1;
    var c := d + if AnySaved(k.savelist) then 1 else 0;
    && |refs| == c + 1
    && TypeRefs(k.typ, refs[..t])
    && (k.stack != [] ==> refs[t].Cell? && ListAt(AsBuilder(refs[t]), k.stack, Builder([], [])))
    && (AnySaved(k.savelist) ==> refs[d].DictRoot? && |refs[d].slots| == 16)
    && (AnySaved(k.savelist) && |k.savelist| == 7 ==>
          && (forall i :: 0 <= i < 7 ==> SlotAt(refs[d].slots[KeyOf(i)], k.savelist[i]))
          && (forall key :: 0 <= key < 16 && !(key <= 5 || key == 7) ==> refs[d].slots[key] == Absent))
    && refs[c] == k.code.cell
  }

  ghost predicate ContAt(b: Builder, k: Continuation)
    decreases k, 1
  {
    ContBits(b.bits, k) && ContRefs(b.refs, k)
  }

  // ----- the encoder keeps to it -----

  lemma FieldAt(pre: seq<bool>, n: int, width: nat, post: seq<bool>, p: nat)
    requires p == Pow2(width)
    ensures Holds(pre + ToBits(n, width) + post, |pre|, width, n % p)
  {
    hide ToBits, FromBits;
    FromToBits(n, width);
    assert (pre + ToBits(n, width) + post)[|pre|..|pre| + width] == ToBits(n, width);
  }

  lemma Powers()
    ensures Pow2(2) == 4 && Pow2(3) == 8 && Pow2(4) == 16 && Pow2(7) == 128 && Pow2(8) == 256 && Pow2(10) == 1024
    ensures Pow2(16) == 0x1_0000 && Pow2(22) == 0x40_0000 && Pow2(24) == 0x100_0000 && Pow2(32) == 0x1_0000_0000
  {
    hide Pow2;
    SmallPowers();
    Pow2Add(8, 8);
    Pow2Add(16, 8);
    Pow2Add(16, 16);
    Pow2Add(10, 10);
    Pow2Add(20, 2);
  }

  lemma SmallPowers()
    ensures Pow2(2) == 4 && Pow2(3) == 8 && Pow2(4) == 16 && Pow2(7) == 128 && Pow2(8) == 256 && Pow2(10) == 1024
  {}

  lemma SliceLaid(pre: seq<bool>, s: Slice, post: seq<bool>)
    ensures SliceAt(pre + SliceBuilder(s).bits + post, |pre|, s) && |SliceBuilder(s).bits| == 26
  {
    hide ToBits, FromBits, Pow2, Holds;
    Powers();
    var a, b, c, d := ToBits(s.dataStart, 10), ToBits(s.dataEnd, 10), ToBits(s.refStart, 3), ToBits(s.refEnd, 3);
    var all := pre + SliceBuilder(s).bits + post;
    FieldAt(pre, s.dataStart, 10, b + c + d + post, 1024);
    FieldAt(pre + a, s.dataEnd, 10, c + d + post, 1024);
    FieldAt(pre + a + b, s.refStart, 3, d + post, 8);
    FieldAt(pre + a + b + c, s.refEnd, 3, post, 8);
    assert all == pre + a + (b + c + d + post);
    assert all == pre + a + b + (c + d + post);
    assert all == pre + a + b + c + (d + post);
    assert all == pre + a + b + c + d + post;
  }

  lemma CodeAt(n: nat, post: seq<bool>)
    requires n < 16
    ensures Holds(ToBits(n, 4) + post, 0, 4, n)
  {
    hide ToBits, FromBits, Pow2, Holds;
    Powers();
    FieldAt([], n, 4, post, 16);
    assert [] + ToBits(n, 4) + post == ToBits(n, 4) + post;
  }

  lemma NumberedAt(code: nat, n: int, post: seq<bool>)
    requires code < 16
    ensures Holds(ToBits(code, 4) + ToBits(n, 32) + post, 0, 4, code)
    ensures Holds(ToBits(code, 4) + ToBits(n, 32) + post, 4, 32, n % 0x1_0000_0000)
  {
    hide ToBits, FromBits, Pow2, Holds;
    Powers();
    CodeAt(code, ToBits(n, 32) + post);
    FieldAt(ToBits(code, 4), n, 32, post, 0x1_0000_0000);
    assert ToBits(code, 4) + ToBits(n, 32) + post == ToBits(code, 4) + (ToBits(n, 32) + post);
  }

  lemma OneSliceLaid(s: Slice)
    ensures OneSlice([CellOf(SliceBuilder(s))], s)
  {
    hide SliceAt;
    SliceLaid([], s, []);
    assert [] + SliceBuilder(s).bits + [] == SliceBuilder(s).bits;
  }

  lemma TwoSlicesLaid(cond: Slice, body: Slice, cell: Cell)
    requires AppendBuilder(SliceBuilder(cond), SliceBuilder(body)).Ok?
    requires cell == CellOf(AppendBuilder(SliceBuilder(cond), SliceBuilder(body)).value)
    ensures TypeRefs(WhileLoopCondition(body, cond), [cell])
  {
    hide SliceAt, ToBits;
    var c, b := SliceBuilder(cond).bits, SliceBuilder(body).bits;
    SliceLaid([], cond, b);
    SliceLaid(c, body, []);
    assert [] + c + b == c + b && c + b + [] == c + b;
  }

  lemma TypeLaid(typ: ContType, head: Builder, accepts: Builder -> bool, post: seq<bool>)
    requires TypeBuilder(typ, accepts) == Ok(head)
    ensures |head.bits| == TypeWidth(typ) && TypeAt(typ, head.bits + post) && TypeRefs(typ, head.refs)
  {
    hide ToBits, Holds, SliceBuilder, OneSlice, Pow2;
    match typ
    case Ordinary =>
      Powers();
      FieldAt([], 0, 2, post, 4);
      assert [] + ToBits(0, 2) + post == ToBits(0, 2) + post;
    case CatchRevert(depth) => NumberedAt(7, depth, post);
    case Quit(exitCode) => NumberedAt(8, exitCode, post);
    case TryCatch => CodeAt(9, post);
    case UntilLoopCondition(body) =>
      CodeAt(10, post);
      OneSliceLaid(body);
    case ExcQuit => CodeAt(11, post);
    case WhileLoopCondition(body, cond) =>
      CodeAt(12, post);
      TwoSlicesLaid(cond, body, head.refs[0]);
    case AgainLoopBody(body) =>
      CodeAt(13, post);
      OneSliceLaid(body);
    case RepeatLoopBody(body, counter) =>
      NumberedAt(14, counter, post);
      OneSliceLaid(body);
    case PushInt(pushed) => NumberedAt(15, pushed, post);
  }

  /** The fields after the type. */
  lemma BodyLaid(h: seq<bool>, k: Continuation, saved: bool, bits: seq<bool>)
    requires |h| == TypeWidth(k.typ) && TypeAt(k.typ, bits) && saved == AnySaved(k.savelist)
    requires
      var stackBits := if k.stack == [] then [false] else [true] + ToBits(|k.stack|, 24);
      bits == h + (ToBits(k.nargs, 22) + (stackBits + ([saved] + (ToBits(0, 16) + SliceBuilder(k.code).bits))))
    ensures ContBits(bits, k)
  {
    hide ToBits, Holds, SliceBuilder, Pow2, SliceAt, TypeAt, AnySaved;
    Powers();
    var n, z, c := ToBits(k.nargs, 22), ToBits(0, 16), SliceBuilder(k.code).bits;
    var s := if k.stack == [] then [false] else [true] + ToBits(|k.stack|, 24);
    FieldAt(h, k.nargs, 22, s + [saved] + z + c, 0x40_0000);
    assert bits == h + n + (s + [saved] + z + c);
    FieldAt(h + n + s + [saved], 0, 16, c, 0x1_0000);
    assert bits == h + n + s + [saved] + z + c;
    SliceLaid(h + n + s + [saved] + z, k.code, []);
    assert bits == h + n + s + [saved] + z + c + [];
    assert bits[|h| + 22] == s[0] && bits[|h| + 22 + |s|] == saved;
    if k.stack != [] {
      FieldAt(h + n + [true], |k.stack|, 24, [saved] + z + c, 0x100_0000);
      assert bits == h + n + [true] + ToBits(|k.stack|, 24) + ([saved] + z + c);
    }
  }

  /** A dictionary is empty exactly when nothing was saved. */
  lemma {:induction false} SavesShow(s: SaveList, n: nat, dict: Dictionary, accepts: Builder -> bool)
    requires n <= |s| && |dict| == 16 && EncodeSaves(s, n, dict, accepts).Ok?
    ensures
      var d := EncodeSaves(s, n, dict, accepts).value;
      && |d| == 16
      && (forall key :: 0 <= key < 16 && dict[key].Present? ==> d[key].Present?)
      && ((exists i :: 0 <= i < n && s[i].Saved?) ==> exists key :: 0 <= key < 16 && d[key].Present?)
      && ((forall i :: 0 <= i < n ==> s[i].Unset?) ==> d == dict)
    decreases n
  {
    hide EncodeItem;
    if n > 0 {
      match s[n - 1]
      case Unset => SavesShow(s, n - 1, dict, accepts);
      case Saved(x) =>
        var value := EncodeItem(x, EMPTY_BUILDER, accepts).value;
        var dict' := dict[RegisterAt(n - 1) := Present(value)];
        assert dict'[RegisterAt(n - 1)].Present?;
        SavesShow(s, n - 1, dict', accepts);
    }
  }

  lemma FlagIsSaved(s: SaveList, dict: Dictionary, accepts: Builder -> bool)
    requires EncodeSaves(s, |s|, EMPTY_DICT, accepts) == Ok(dict)
    ensures |dict| == 16 && (dict != EMPTY_DICT <==> AnySaved(s))
  {
    hide EncodeSaves;
    SavesShow(s, |s|, EMPTY_DICT, accepts);
    assert forall key :: 0 <= key < 16 ==> EMPTY_DICT[key] == Absent;
  }

  lemma TagAt(tag: nat, post: seq<bool>)
    requires tag < 256
    ensures Holds(ToBits(tag, 8) + post, 0, 8, tag) && Holds(ToBits(tag, 8), 0, 8, tag)
  {
    hide ToBits, FromBits, Pow2, Holds;
    Powers();
    FieldAt([], tag, 8, post, 256);
    FieldAt([], tag, 8, [], 256);
    assert [] + ToBits(tag, 8) + post == ToBits(tag, 8) + post;
    assert [] + ToBits(tag, 8) + [] == ToBits(tag, 8);
  }

  lemma IntegerLaid(v: int)
    requires Fits257(v)
    ensures
      var bits := ToBits(0x02, 8) + ToBits(0x00, 7) + ToBits(v, 257);
      |bits| == 272 && Holds(bits, 0, 8, 0x02) && Holds(bits, 8, 7, 0) && FromBitsSigned(bits[15..]) == v
  {
    hide ToBits, FromBits, FromBitsSigned, Pow2, Holds;
    Powers();
    var bits := ToBits(0x02, 8) + ToBits(0x00, 7) + ToBits(v, 257);
    TagAt(0x02, ToBits(0x00, 7) + ToBits(v, 257));
    assert bits == ToBits(0x02, 8) + (ToBits(0x00, 7) + ToBits(v, 257));
    FieldAt(ToBits(0x02, 8), 0, 7, ToBits(v, 257), 128);
    SignedFromToBits(v, 257);
    assert bits[15..] == ToBits(v, 257);
  }

  lemma SimpleLaid(x: StackItem, node: Builder, rest: Builder, accepts: Builder -> bool)
    requires !x.Tuple? && !x.ContItem? && SimpleNode(x, accepts) == Ok(node)
    ensures ItemAt(Builder(node.bits, node.refs + [CellOf(rest)]), x, rest)
  {
    hide ToBits, FromBitsSigned, Holds, SliceBuilder, Pow2, SliceAt, Fits257;
    match x
    case Null => TagAt(0x00, []);
    case Integer(NaN) =>
      Powers();
      FieldAt([], 0x02ff, 16, [], 0x1_0000);
      assert [] + ToBits(0x02ff, 16) + [] == ToBits(0x02ff, 16);
    case Integer(Value(v)) => IntegerLaid(v);
    case CellItem(c) => TagAt(0x03, []);
    case BuilderItem(d) => TagAt(0x05, []);
    case SliceItem(s) =>
      TagAt(0x04, SliceBuilder(s).bits);
      SliceLaid(ToBits(0x04, 8), s, []);
      assert ToBits(0x04, 8) + SliceBuilder(s).bits + [] == ToBits(0x04, 8) + SliceBuilder(s).bits;
      SliceRef(s);
  }

  lemma SliceRef(s: Slice)
    ensures SliceBuilder(s).refs == [s.cell]
  {}

  lemma TupleLaid(length: nat)
    ensures
      var bits := TupleHeader(length).bits;
      |bits| == 16 && Holds(bits, 0, 8, 0x07) && Holds(bits, 8, 8, length % 256) && TupleHeader(length).refs == []
  {
    hide ToBits, Pow2, Holds;
    Powers();
    TagAt(0x07, ToBits(length, 8));
    FieldAt(ToBits(0x07, 8), length, 8, [], 256);
    assert ToBits(0x07, 8) + ToBits(length, 8) + [] == ToBits(0x07, 8) + ToBits(length, 8);
  }

  /** A list in front of a node is a list with one item more. */
  lemma {:induction false} ListExtends(b: Builder, xs: seq<StackItem>, mid: Builder, x: StackItem, rest: Builder)
    requires ListAt(b, xs, mid) && ItemAt(mid, x, rest)
    ensures ListAt(b, xs + [x], rest)
    decreases |xs|
  {
    hide ItemAt;
    ItemHasRest(mid, x, rest);
    if xs == [] {
      assert ([] + [x])[1..] == [];
    } else {
      ListExtends(AsBuilder(b.refs[|b.refs| - 1]), xs[1..], mid, x, rest);
      assert (xs + [x])[1..] == xs[1..] + [x];
    }
  }

  lemma ItemHasRest(b: Builder, x: StackItem, rest: Builder)
    requires ItemAt(b, x, rest)
    ensures b.refs != [] && b.refs[|b.refs| - 1] == Cell(rest.bits, rest.refs)
  {}

  /** Every encoded item has the layout of its kind, at any depth. */
  lemma {:induction false} ItemLaid(x: StackItem, list: Builder, accepts: Builder -> bool)
    requires EncodeItem(x, list, accepts).Ok?
    ensures ItemAt(EncodeItem(x, list, accepts).value, x, list)
    decreases x, 1
  {
    hide Holds, SimpleNode, TupleHeader, ToBits, ContAt, ListAt;
    match x
    case Tuple(items) =>
      AllLaid(items, EMPTY_BUILDER, accepts);
      TupleLaid(|items|);
    case ContItem(k) =>
      ContLaid(k, accepts);
      TagAt(0x06, []);
    case _ => SimpleLaid(x, SimpleNode(x, accepts).value, list, accepts);
  }

  lemma {:induction false} AllLaid(xs: seq<StackItem>, list: Builder, accepts: Builder -> bool)
    requires EncodeAll(xs, list, accepts).Ok?
    ensures ListAt(EncodeAll(xs, list, accepts).value, xs, list)
    decreases xs, 0
  {
    hide EncodeItem, ItemAt;
    if xs != [] {
      var init, last := xs[..|xs| - 1], xs[|xs| - 1];
      ItemLaid(last, list, accepts);
      var mid := EncodeItem(last, list, accepts).value;
      AllLaid(init, mid, accepts);
      ListExtends(EncodeAll(xs, list, accepts).value, init, mid, last, list);
      assert init + [last] == xs;
    }
  }

  lemma {:induction false} SavesLaid(s: SaveList, dict: Dictionary, accepts: Builder -> bool)
    requires |s| == 7 && EncodeSaves(s, |s|, EMPTY_DICT, accepts) == Ok(dict)
    ensures |dict| == 16
    ensures forall i :: 0 <= i < 7 ==> SlotAt(dict[KeyOf(i)], s[i])
    ensures forall key :: 0 <= key < 16 && !(key <= 5 || key == 7) ==> dict[key] == Absent
    decreases s, 2
  {
    hide EncodeItem, EncodeSaves, ItemAt;
    EncodeSavesEntries(s, |s|, EMPTY_DICT, accepts);
    assert forall key :: 0 <= key < 16 ==> EMPTY_DICT[key] == Absent;
    forall i | 0 <= i < 7 ensures SlotAt(dict[KeyOf(i)], s[i]) {
      assert SavedBelow(s, |s|, KeyOf(i)) == s[i].Saved?;
      if s[i].Saved? {
        assert s decreases to s[i];
        ItemLaid(s[i].item, EMPTY_BUILDER, accepts);
      }
    }
  }

  /** The parts of an encoded continuation. */
  lemma ContParts(k: Continuation, accepts: Builder -> bool)
    returns (head: Builder, list: Builder, dict: Dictionary)
    requires EncodeCont(k, accepts).Ok?
    ensures EncodeSaves(k.savelist, |k.savelist|, EMPTY_DICT, accepts) == Ok(dict)
    ensures EncodeAll(k.stack, EMPTY_BUILDER, accepts) == Ok(list)
    ensures TypeBuilder(k.typ, accepts) == Ok(head)
    ensures
      var b := EncodeCont(k, accepts).value;
      var stackBits := if k.stack == [] then [false] else [true] + ToBits(|k.stack|, 24);
      && b.bits == head.bits + (ToBits(k.nargs, 22)
                   + (stackBits + ([dict != EMPTY_DICT] + (ToBits(0, 16) + SliceBuilder(k.code).bits))))
      && b.refs == head.refs + ((if k.stack == [] then [] else [CellOf(list)])
                   + ((if dict == EMPTY_DICT then [] else [DictRoot(dict)]) + SliceBuilder(k.code).refs))
  {
    hide TypeBuilder, SliceBuilder, ToBits, EncodeAll, EncodeSaves;
    dict := EncodeSaves(k.savelist, |k.savelist|, EMPTY_DICT, accepts).value;
    list := EncodeAll(k.stack, EMPTY_BUILDER, accepts).value;
    head := TypeBuilder(k.typ, accepts).value;
  }

  lemma RefsLaid(k: Continuation, h: seq<Cell>, list: Builder, dict: Dictionary, refs: seq<Cell>)
    requires TypeRefs(k.typ, h) && (dict != EMPTY_DICT <==> AnySaved(k.savelist)) && |dict| == 16
    requires ListAt(list, k.stack, Builder([], []))
    requires |k.savelist| == 7 ==>
      && (forall i :: 0 <= i < 7 ==> SlotAt(dict[KeyOf(i)], k.savelist[i]))
      && (forall key :: 0 <= key < 16 && !(key <= 5 || key == 7) ==> dict[key] == Absent)
    requires refs == h + ((if k.stack == [] then [] else [CellOf(list)])
                     + ((if dict == EMPTY_DICT then [] else [DictRoot(dict)]) + [k.code.cell]))
    ensures ContRefs(refs, k)
  {
    hide TypeRefs, ListAt, SlotAt, AnySaved;
    TypeRefCount(k.typ, h);
    assert refs[..|h|] == h;
    assert AsBuilder(CellOf(list)) == list;
  }

  /** Every encoded continuation has the layout of its fields. */
  lemma {:induction false} ContLaid(k: Continuation, accepts: Builder -> bool)
    requires EncodeCont(k, accepts).Ok?
    ensures ContAt(EncodeCont(k, accepts).value, k)
    decreases k, 1
  {
    hide ContBits, ContRefs, TypeBuilder, TypeRefs, SliceBuilder, ToBits, ListAt, SlotAt, EncodeAll, EncodeSaves,
      EncodeCont, AnySaved, TypeAt, TypeWidth;
    var head, list, dict := ContParts(k, accepts);
    var b := EncodeCont(k, accepts).value;
    FlagIsSaved(k.savelist, dict, accepts);
    TypeLaid(k.typ, head, accepts, b.bits[|head.bits|..]);
    assert head.bits + b.bits[|head.bits|..] == b.bits;
    BodyLaid(head.bits, k, dict != EMPTY_DICT, b.bits);
    SliceRef(k.code);
    AllLaid(k.stack, EMPTY_BUILDER, accepts);
    if |k.savelist| == 7 {
      SavesLaid(k.savelist, dict, accepts);
    }
    RefsLaid(k, head.refs, list, dict, b.refs);
  }

  lemma TypeRefCount(typ: ContType, refs: seq<Cell>)
    requires TypeRefs(typ, refs)
    ensures |refs| == RefsOf(typ)
  {}
}
