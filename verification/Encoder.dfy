/**
 * The structurally recursive meaning of the new continuation format.
 * A list of items is a chain: each node holds one item and, as its last reference, the rest.
 */
module Encoder {
  import opened Outcomes
  import opened Bits
  import opened Cells
  import opened Values

  /** `slice_serialize`: the cell, then the two windows in 10 + 10 + 3 + 3 bits. */
  function SliceBuilder(s: Slice): Builder {
    Builder(ToBits(s.dataStart, 10) + ToBits(s.dataEnd, 10) + ToBits(s.refStart, 3) + ToBits(s.refEnd, 3), [s.cell])
  }

  predicate Fits257(v: int) {
    -Pow2(256) <= v < Pow2(256)
  }

  /** The node of an item that is neither a tuple nor a continuation. */
  function SimpleNode(x: StackItem, accepts: Builder -> bool): Result<Builder>
    requires !x.Tuple? && !x.ContItem?
  {
    match x
    case Null => Ok(Builder(ToBits(0x00, 8), []))
    case Integer(NaN) => Ok(Builder(ToBits(0x02ff, 16), []))
    case Integer(Value(v)) =>
      if Fits257(v) then Ok(Builder(ToBits(0x02, 8) + ToBits(0x00, 7) + ToBits(v, 257), [])) else Err(RangeCheckError)
    case CellItem(c) => Ok(Builder(ToBits(0x03, 8), [c]))
    case SliceItem(s) => Ok(Builder(ToBits(0x04, 8) + SliceBuilder(s).bits, SliceBuilder(s).refs))
    case BuilderItem(b) =>
      var cell :- FinalizeCell(b, accepts);
      Ok(Builder(ToBits(0x05, 8), [cell]))
  }

  /** Puts `node` in front of `list`. */
  function Link(node: Builder, list: Builder, accepts: Builder -> bool): Result<Builder> {
    var cell :- FinalizeCell(list, accepts);
    AppendReference(node, cell)
  }

  function TupleHeader(length: nat): Builder {
    Builder(ToBits(0x07, 8) + ToBits(length, 8), [])
  }

  const CONT_HEADER := Builder(ToBits(0x06, 8), [])

  /** The part of a continuation that depends on its type. */
  function TypeBuilder(typ: ContType, accepts: Builder -> bool): Result<Builder> {
    match typ
    case Ordinary => Ok(Builder(ToBits(0x0, 2), []))
    case CatchRevert(depth) => Ok(Builder(ToBits(0x7, 4) + ToBits(depth, 32), []))
    case Quit(exitCode) => Ok(Builder(ToBits(0x8, 4) + ToBits(exitCode, 32), []))
    case TryCatch => Ok(Builder(ToBits(0x9, 4), []))
    case UntilLoopCondition(body) =>
      var cell :- FinalizeCell(SliceBuilder(body), accepts);
      Ok(Builder(ToBits(0xa, 4), [cell]))
    case ExcQuit => Ok(Builder(ToBits(0xb, 4), []))
    case WhileLoopCondition(body, cond) =>
      var both :- AppendBuilder(SliceBuilder(cond), SliceBuilder(body));
      var cell :- FinalizeCell(both, accepts);
      Ok(Builder(ToBits(0xc, 4), [cell]))
    case AgainLoopBody(body) =>
      var cell :- FinalizeCell(SliceBuilder(body), accepts);
      Ok(Builder(ToBits(0xd, 4), [cell]))
    case RepeatLoopBody(body, counter) =>
      var cell :- FinalizeCell(SliceBuilder(body), accepts);
      Ok(Builder(ToBits(0xe, 4) + ToBits(counter, 32), [cell]))
    case PushInt(pushed) => Ok(Builder(ToBits(0xf, 4) + ToBits(pushed, 32), []))
  }

  /** Everything after the type, given the finished stack chain and savelist dictionary. */
  function BodyBuilder(k: Continuation, list: Builder, dict: Dictionary, accepts: Builder -> bool): Result<Builder> {
    var stackCell :- if k.stack == [] then Ok([]) else
      var cell :- FinalizeCell(list, accepts);
      Ok([cell]);
    var stackBits := if k.stack == [] then [false] else [true] + ToBits(|k.stack|, 24);
    var dictCell := if dict == EMPTY_DICT then [] else [DictRoot(dict)];
    var code := SliceBuilder(k.code);
    Ok(Builder(
      ToBits(k.nargs, 22) + (stackBits + ([dict != EMPTY_DICT] + (ToBits(0, 16) + code.bits))),
      stackCell + (dictCell + code.refs)))
  }

  /** `ContinuationData::serialize_internal`. */
  function ContBuilder(k: Continuation, list: Builder, dict: Dictionary, accepts: Builder -> bool): Result<Builder> {
    var head :- TypeBuilder(k.typ, accepts);
    var body :- BodyBuilder(k, list, dict, accepts);
    AppendBuilder(head, body)
  }

  /** The chain that starts with item x and continues with `list`. */
  function EncodeItem(x: StackItem, list: Builder, accepts: Builder -> bool): Result<Builder>
    decreases x, 0
  {
    match x
    case Tuple(items) =>
      var inner :- EncodeAll(items, EMPTY_BUILDER, accepts);
      var node :- Link(TupleHeader(|items|), inner, accepts);
      Link(node, list, accepts)
    case ContItem(k) =>
      var cons :- EncodeCont(k, accepts);
      var cell :- FinalizeCell(cons, accepts);
      var node :- AppendReference(CONT_HEADER, cell);
      Link(node, list, accepts)
    case _ =>
      var node :- SimpleNode(x, accepts);
      Link(node, list, accepts)
  }

  /** The chain of all items followed by `list`; the last item is the innermost. */
  function EncodeAll(xs: seq<StackItem>, list: Builder, accepts: Builder -> bool): Result<Builder>
    decreases xs, 0
  {
    if xs == [] then Ok(list) else
      var rest :- EncodeItem(xs[|xs| - 1], list, accepts);
      EncodeAll(xs[..|xs| - 1], rest, accepts)
  }

  function EncodeCont(k: Continuation, accepts: Builder -> bool): Result<Builder>
    decreases k, 0
  {
    var dict :- EncodeSaves(k.savelist, |k.savelist|, EMPTY_DICT, accepts);
    var list :- EncodeAll(k.stack, EMPTY_BUILDER, accepts);
    ContBuilder(k, list, dict, accepts)
  }

  /** Adds the registers below position n to the dictionary, each as a one-item chain. */
  function EncodeSaves(s: SaveList, n: nat, dict: Dictionary, accepts: Builder -> bool): Result<Dictionary>
    requires n <= |s|
    decreases s, n
  {
    if n == 0 then Ok(dict) else
      match s[n - 1]
      case Unset => EncodeSaves(s, n - 1, dict, accepts)
      case Saved(x) =>
        assert s decreases to s[n - 1];
        var value :- EncodeItem(x, EMPTY_BUILDER, accepts);
        var dict' :- SetBuilder(dict, RegisterAt(n - 1), value);
        EncodeSaves(s, n - 1, dict', accepts)
  }

  /** `HashmapE::set_builder` for a key of 4 bits. */
  function SetBuilder(dict: Dictionary, key: nat, value: Builder): Result<Dictionary> {
    if key < |dict| then Ok(dict[key := Present(value)]) else Err(DictionaryError)
  }

  /** Register `key` is among the saved registers below position n. */
  predicate SavedBelow(s: SaveList, n: nat, key: nat)
    requires |s| == NUMREGS && n <= NUMREGS
  {
    IsRegister(key) && Adjust(key) < n && s[Adjust(key)].Saved?
  }

  lemma {:induction false} EncodeSavesEntries(s: SaveList, n: nat, dict: Dictionary, accepts: Builder -> bool)
    requires |s| == NUMREGS && n <= NUMREGS && |dict| == 16 && EncodeSaves(s, n, dict, accepts).Ok?
    ensures
      var d := EncodeSaves(s, n, dict, accepts).value;
      && |d| == 16
      && forall key :: 0 <= key < 16 ==>
           if SavedBelow(s, n, key)
           then EncodeItem(s[Adjust(key)].item, EMPTY_BUILDER, accepts).Ok?
             && d[key] == Present(EncodeItem(s[Adjust(key)].item, EMPTY_BUILDER, accepts).value)
           else d[key] == dict[key]
    decreases n
  {
    if n > 0 {
      match s[n - 1]
      case Unset => EncodeSavesEntries(s, n - 1, dict, accepts);
      case Saved(x) =>
        var value := EncodeItem(x, EMPTY_BUILDER, accepts).value;
        EncodeSavesEntries(s, n - 1, dict[RegisterAt(n - 1) := Present(value)], accepts);
    }
  }
}
