/** When serialization succeeds: if the library accepts every cell, only an integer can be refused. */
module Encodable {
  import opened Outcomes
  import opened Cells
  import opened Values
  import opened Encoder
  import opened RoundTrip

  predicate AcceptAll(b: Builder) {
    true
  }

  /** Every integer at every depth fits 257 bits. */
  ghost predicate IntegersFit(x: StackItem)
    decreases x
  {
    match x
    case Integer(Value(v)) => Fits257(v)
    case Tuple(items) => forall i :: 0 <= i < |items| ==> IntegersFit(items[i])
    case ContItem(k) => ContIntegersFit(k)
    case _ => true
  }

  ghost predicate ContIntegersFit(k: Continuation)
    decreases k
  {
    && (forall i :: 0 <= i < |k.stack| ==> IntegersFit(k.stack[i]))
    && (forall i :: 0 <= i < |k.savelist| ==> SlotIntegersFit(k.savelist[i]))
  }

  ghost predicate SlotIntegersFit(s: Slot)
    decreases s
  {
    s.Saved? ==> IntegersFit(s.item)
  }

  lemma LinkSucceeds(node: Builder, list: Builder)
    requires |node.refs| < MAX_REFERENCES_COUNT
    ensures Link(node, list, AcceptAll) == Ok(Builder(node.bits, node.refs + [CellOf(list)]))
  {}

  lemma SimpleNodeSucceeds(x: StackItem)
    requires !x.Tuple? && !x.ContItem?
    ensures SimpleNode(x, AcceptAll).Ok? <==> IntegersFit(x)
    ensures !IntegersFit(x) ==> SimpleNode(x, AcceptAll) == Err(RangeCheckError)
    ensures SimpleNode(x, AcceptAll).Ok? ==> |SimpleNode(x, AcceptAll).value.refs| <= 1
  {}

  lemma ContBuilderSucceeds(k: Continuation, list: Builder, dict: Dictionary)
    ensures ContBuilder(k, list, dict, AcceptAll).Ok?
  {}

  lemma {:induction false} ItemEncodable(x: StackItem, list: Builder)
    requires ValidItem(x)
    ensures EncodeItem(x, list, AcceptAll).Ok? <==> IntegersFit(x)
    ensures !IntegersFit(x) ==> EncodeItem(x, list, AcceptAll) == Err(RangeCheckError)
    decreases x, 1
  {
    hide SimpleNode, TupleHeader, ContBuilder;
    match x
    case Tuple(items) =>
      ListEncodable(items, EMPTY_BUILDER);
      var inner := EncodeAll(items, EMPTY_BUILDER, AcceptAll);
      if inner.Ok? {
        TupleLinks(|items|, inner.value, list);
      }
    case ContItem(k) =>
      ContinuationEncodable(k);
      var cons := EncodeCont(k, AcceptAll);
      if cons.Ok? {
        LinkSucceeds(Builder(CONT_HEADER.bits, CONT_HEADER.refs + [CellOf(cons.value)]), list);
      }
    case _ =>
      SimpleNodeSucceeds(x);
      if IntegersFit(x) {
        LinkSucceeds(SimpleNode(x, AcceptAll).value, list);
      }
  }

  lemma TupleLinks(length: nat, inner: Builder, list: Builder)
    ensures Link(TupleHeader(length), inner, AcceptAll).Ok?
    ensures Link(Link(TupleHeader(length), inner, AcceptAll).value, list, AcceptAll).Ok?
  {}

  lemma {:induction false} ListEncodable(xs: seq<StackItem>, list: Builder)
    requires forall i :: 0 <= i < |xs| ==> ValidItem(xs[i])
    ensures EncodeAll(xs, list, AcceptAll).Ok? <==> forall i :: 0 <= i < |xs| ==> IntegersFit(xs[i])
    ensures EncodeAll(xs, list, AcceptAll).Err? ==> EncodeAll(xs, list, AcceptAll).code == RangeCheckError
    decreases xs, 0
  {
    hide EncodeItem, IntegersFit;
    if xs != [] {
      var n := |xs| - 1;
      ItemEncodable(xs[n], list);
      var rest := EncodeItem(xs[n], list, AcceptAll);
      if rest.Ok? {
        ListEncodable(xs[..n], rest.value);
        assert forall i :: 0 <= i < n ==> xs[..n][i] == xs[i];
      }
    }
  }

  lemma {:induction false} SavesEncodable(s: SaveList, n: nat, dict: Dictionary)
    requires |s| == NUMREGS && n <= NUMREGS && |dict| == 16 && (forall i :: 0 <= i < |s| ==> ValidSlot(s[i]))
    ensures EncodeSaves(s, n, dict, AcceptAll).Ok? <==> forall i :: 0 <= i < n ==> SlotIntegersFit(s[i])
    ensures EncodeSaves(s, n, dict, AcceptAll).Err? ==> EncodeSaves(s, n, dict, AcceptAll).code == RangeCheckError
    decreases s, n
  {
    hide EncodeItem, IntegersFit;
    if n > 0 {
      match s[n - 1]
      case Unset => SavesEncodable(s, n - 1, dict);
      case Saved(x) =>
        assert s decreases to s[n - 1];
        assert ValidSlot(s[n - 1]);
        ItemEncodable(x, EMPTY_BUILDER);
        var value := EncodeItem(x, EMPTY_BUILDER, AcceptAll);
        if value.Ok? {
          SavesEncodable(s, n - 1, dict[RegisterAt(n - 1) := Present(value.value)]);
        }
    }
  }

  lemma {:induction false} ContinuationEncodable(k: Continuation)
    requires ValidCont(k)
    ensures EncodeCont(k, AcceptAll).Ok? <==> ContIntegersFit(k)
    ensures !ContIntegersFit(k) ==> EncodeCont(k, AcceptAll) == Err(RangeCheckError)
    decreases k, 1
  {
    hide EncodeAll, EncodeSaves, ContBuilder;
    SavesEncodable(k.savelist, |k.savelist|, EMPTY_DICT);
    ListEncodable(k.stack, EMPTY_BUILDER);
    var dict := EncodeSaves(k.savelist, |k.savelist|, EMPTY_DICT, AcceptAll);
    var list := EncodeAll(k.stack, EMPTY_BUILDER, AcceptAll);
    if dict.Ok? && list.Ok? {
      ContBuilderSucceeds(k, list.value, dict.value);
    }
  }
}
