/**
 * The deserializer on arbitrary input: whatever it accepts is well typed at every depth, and what it
 * refuses it refuses with the right code.
 */
module Decoded {
  import opened Outcomes
  import opened Bits
  import opened Cells
  import opened Values
  import opened Deserializer
  import opened Typing
  import opened RoundTrip

  // ----- everything decoded is well typed -----

  ghost predicate TypedTask(t: Task) {
    t.BuildCont? ==> TypedCont(t.cont)
  }

  ghost predicate TypedState(st: State) {
    && TypedStack(st.items)
    && (forall i :: 0 <= i < |st.list| ==> TypedTask(st.list[i]))
    && (forall i :: 0 <= i < |st.itemsStack| ==> TypedStack(st.itemsStack[i].items))
    && (forall i :: 0 <= i < |st.savelistStack| ==> TypedRegisters(st.savelistStack[i]))
  }

  lemma {:induction false} SaveTasksTyped(dict: Dictionary, keys: seq<nat>)
    ensures forall i :: 0 <= i < |SaveTasks(dict, keys)| ==> TypedTask(SaveTasks(dict, keys)[i])
    decreases |keys|
  {
    if keys != [] {
      SaveTasksTyped(dict, keys[..|keys| - 1]);
    }
  }

  lemma BodyTasksTyped(typ: ContType, c: Cursor, order: KeyOrder)
    requires ReadBody(typ, c, order).Ok?
    ensures
      var tasks := ReadBody(typ, c, order).value.0;
      forall i :: 0 <= i < |tasks| ==> TypedTask(tasks[i])
  {
    hide SaveTasks, ReadSlice, NextInt, TypedItem, ListsKeys;
    EmptyTyped();
    var nargs := NextInt(c, 22).value;
    var stack := ReadStack(nargs.1).value;
    var saves := ReadSaves(stack.1, order).value;
    var code := ReadSlice(NextInt(saves.1, 16).value.1).value.0;
    PartsTyped(Continuation(code, ReadNargs(nargs.0), EMPTY_SAVELIST, [], typ));
    SavesTyped(stack.1, order);
  }

  lemma SavesTyped(c: Cursor, order: KeyOrder)
    requires ReadSaves(c, order).Ok?
    ensures
      var tasks := ReadSaves(c, order).value.0;
      forall i :: 0 <= i < |tasks| ==> TypedTask(tasks[i])
  {
    hide SaveTasks, NextInt, ListsKeys;
    if NextInt(c, 1).value.0 != 0 {
      var root := NextReference(NextInt(c, 1).value.1).value.0;
      SaveTasksTyped(root.slots, order(root.slots));
    }
  }

  lemma ElementTyped(c: Cursor, order: KeyOrder)
    requires ReadElement(c, order).Ok?
    ensures
      match ReadElement(c, order).value.0
      case Done(item) => TypedItem(item)
      case Open(tasks) => forall i :: 0 <= i < |tasks| ==> TypedTask(tasks[i])
  {
    hide ReadBody, ReadType, ReadSlice, NextInt, FromBitsSigned, ListsKeys;
    var (tag, c1) := NextInt(c, 8).value;
    if tag == 0x06 {
      var loaded := LoadCell(NextReference(c1).value.0).value;
      var (typ, c2) := ReadType(loaded).value;
      BodyTasksTyped(typ, c2, order);
    }
  }

  lemma ReadOneTyped(st: State, order: KeyOrder)
    requires TypedState(st) && ReadOne(st, order).Ok?
    ensures TypedState(ReadOne(st, order).value.0)
  {
    hide ReadElement, TypedItem, ListsKeys;
    ElementTyped(st.cursor, order);
  }

  lemma PutTyped(s: SaveList, index: nat, item: StackItem)
    requires TypedRegisters(s) && TypedItem(item) && PutInSaveList(s, index, item).Ok?
    ensures TypedRegisters(PutInSaveList(s, index, item).value)
  {}

  lemma ResumeTyped(st: State, more: seq<StackItem>)
    requires TypedState(st) && TypedStack(more)
    ensures TypedState(Resume(st, more))
  {
    hide TypedItem;
  }

  lemma PopTaskTyped(st: State)
    requires TypedState(st) && st.list != [] && PopTask(st).Ok?
    ensures TypedState(PopTask(st).value)
  {
    hide Resume, PutInSaveList, TypedRegisters, TypedItem, TypedCont;
    var st1 := st.(list := st.list[..|st.list| - 1]);
    var saves := st.savelistStack;
    match st.list[|st.list| - 1]
    case ReadItems(_, _) =>
    case BuildTuple(_) =>
      TupleTyped(st.items);
      ResumeTyped(st1, [Tuple(st.items)]);
    case BuildCont(cont) =>
      if saves == [] {
        BuiltTyped(cont, st.items, cont.savelist);
        ResumeTyped(st1, [ContItem(cont.(stack := st.items))]);
      } else {
        BuiltTyped(cont, st.items, saves[|saves| - 1]);
        ResumeTyped(st1.(savelistStack := saves[..|saves| - 1]),
                    [ContItem(cont.(stack := st.items, savelist := saves[|saves| - 1]))]);
      }
    case PutRegister(index) =>
      if saves == [] || st.items == [] {
        ResumeTyped(st1, []);
      } else {
        PutTyped(saves[|saves| - 1], index, st.items[0]);
        var s := PutInSaveList(saves[|saves| - 1], index, st.items[0]).value;
        ResumeTyped(st1.(savelistStack := saves[..|saves| - 1] + [s]), []);
      }
    case NewSaveList => EmptyTyped();
  }

  lemma TupleTyped(items: seq<StackItem>)
    requires TypedStack(items)
    ensures TypedItem(Tuple(items))
  {}

  lemma BuiltTyped(k: Continuation, stack: seq<StackItem>, saves: SaveList)
    requires TypedCont(k) && TypedStack(stack) && (saves == k.savelist || TypedRegisters(saves))
    ensures TypedItem(ContItem(k.(stack := stack, savelist := saves)))
    ensures saves == k.savelist ==> TypedItem(ContItem(k.(stack := stack)))
  {
    TypedParts(k);
    PartsTyped(k.(stack := stack, savelist := saves));
    assert saves == k.savelist ==> k.(stack := stack, savelist := saves) == k.(stack := stack);
  }

  lemma {:induction false} LoopTyped(st: State, order: KeyOrder)
    requires TypedState(st)
    ensures Run(st, order).Ok? ==> TypedStack(Run(st, order).value)
    ensures RunTasks(st, order).Ok? ==> TypedStack(RunTasks(st, order).value)
    decreases Weight(st)
  {
    hide TypedState, TypedStack, ReadOne, PopTask, Weight, ListsKeys;
    TypedItems(st);
    if st.list != [] && PopTask(st).Ok? {
      PopTaskWeight(st);
      PopTaskTyped(st);
      LoopTyped(PopTask(st).value, order);
    }
    if |st.items| < st.length && ReadOne(st, order).Ok? {
      ReadOneWeight(st, order);
      ReadOneTyped(st, order);
      LoopTyped(ReadOne(st, order).value.0, order);
    }
  }

  lemma TypedItems(st: State)
    requires TypedState(st)
    ensures TypedStack(st.items)
  {}

  /**
   * Whatever bits and cells are read: if the deserializer gives an item, every register of every
   * continuation in it, at any depth, holds only what its index admits.
   */
  lemma ItemIsTyped(c: Cursor, order: KeyOrder)
    ensures DecodeItem(c, order).Ok? ==> TypedItem(DecodeItem(c, order).value)
  {
    hide Run, TypedItem, ListsKeys;
    LoopTyped(Start([ReadItems(1, c)]), order);
  }

  lemma ContinuationIsTyped(c: Cursor, order: KeyOrder)
    ensures DecodeContinuation(c, order).Ok? ==> TypedCont(DecodeContinuation(c, order).value.0)
  {
    hide Run, ReadBody, ReadType, ListsKeys;
    if ReadContinuation(c, order).Ok? {
      var (typ, c1) := ReadType(c).value;
      BodyTasksTyped(typ, c1, order);
      LoopTyped(Start(ReadContinuation(c, order).value.0), order);
    }
  }

  // ----- what is refused -----

  /** The tags in use are 0 and 2 to 7. */
  lemma UnknownTag(tag: nat, bits: seq<bool>, refs: seq<Cell>, order: KeyOrder)
    requires tag == 1 || 8 <= tag < 256
    ensures ReadElement(Cursor(ToBits(tag, 8) + bits, refs), order) == Err(UnknownError)
  {
    hide NextInt, ToBits, ListsKeys;
    ReadTag(tag, bits, refs);
  }

  /** The four-bit type codes in use are 7 to 15. */
  lemma UnknownType(code: nat, bits: seq<bool>, refs: seq<Cell>)
    requires 4 <= code <= 6
    ensures ReadType(Cursor(ToBits(code, 4) + bits, refs)) == Err(UnknownError)
  {
    hide NextInt, ToBits;
    ReadTypeCode(code, bits, refs);
  }

  /** An integer is stored in full or is not a number: any other seven bits after the tag are refused. */
  lemma UnknownInteger(kind: nat, bits: seq<bool>, refs: seq<Cell>, order: KeyOrder)
    requires 0 < kind < 0x7f
    ensures ReadElement(Cursor(ToBits(0x02, 8) + (ToBits(kind, 7) + bits), refs), order) == Err(UnknownError)
  {
    hide NextInt, ToBits, ListsKeys, Pow2;
    SmallPowers();
    ReadTag(0x02, ToBits(kind, 7) + bits, refs);
    ReadFieldExact(kind, 7, bits, refs);
  }

  lemma UnfinishedNan(bits: seq<bool>, refs: seq<Cell>, order: KeyOrder)
    ensures ReadElement(Cursor(ToBits(0x02, 8) + (ToBits(0x7f, 7) + ([false] + bits)), refs), order)
         == Err(UnknownError)
  {
    hide NextInt, ToBits, ListsKeys, Pow2;
    SmallPowers();
    ReadTag(0x02, ToBits(0x7f, 7) + ([false] + bits), refs);
    ReadFieldExact(0x7f, 7, [false] + bits, refs);
    ReadFlag(false, bits, refs);
  }

  /** A window that is upside down or past four references is refused; any other is cut off at the end of its cell. */
  lemma SliceWindow(cell: Cell, a: nat, b: nat, i: nat, j: nat, bits: seq<bool>, refs: seq<Cell>)
    requires cell.Cell? && a < 1024 && b < 1024 && i < 8 && j < 8
    ensures
      var c := Cursor(ToBits(a, 10) + (ToBits(b, 10) + (ToBits(i, 3) + (ToBits(j, 3) + bits))), [cell] + refs);
      var d, r := |cell.bits|, |cell.refs|;
      ReadSlice(c) ==
      if a > b || i > j || j > 4 then Err(FatalError)
      else Ok((Slice(cell, if a < d then a else d, if b < d then b else d, if i < r then i else r,
                     if j < r then j else r),
               Cursor(bits, refs)))
  {
    hide NextInt, ToBits, Pow2;
    WindowPowers();
    var rest := ToBits(i, 3) + (ToBits(j, 3) + bits);
    ReadRef(ToBits(a, 10) + (ToBits(b, 10) + rest), cell, refs);
    ReadFieldExact(a, 10, ToBits(b, 10) + rest, refs);
    ReadFieldExact(b, 10, rest, refs);
    ReadFieldExact(i, 3, ToBits(j, 3) + bits, refs);
    ReadFieldExact(j, 3, bits, refs);
  }

  lemma WindowPowers()
    ensures Pow2(10) == 1024 && Pow2(3) == 8
  {}

  /** A tuple of another length than announced is refused. */
  lemma TupleLength(st: State, length: nat)
    requires st.list != [] && st.list[|st.list| - 1] == BuildTuple(length)
    ensures |st.items| != length <==> PopTask(st).Err?
    ensures |st.items| != length ==> PopTask(st) == Err(CellUnderflow)
  {}

  /** A register is refused a value it does not admit, and a key that is no register is refused any. */
  lemma RegisterRefused(st: State, key: nat)
    requires st.list != [] && st.list[|st.list| - 1] == PutRegister(key) && st.savelistStack != [] && st.items != []
    requires |st.savelistStack[|st.savelistStack| - 1]| == NUMREGS
    ensures
      var x := st.items[0];
      var admitted := match key
        case 0 => x.ContItem?
        case 1 => x.ContItem?
        case 2 => x.ContItem? || x.Null?
        case 3 => x.ContItem?
        case 4 => x.CellItem?
        case 5 => x.CellItem?
        case 7 => x.Tuple?
        case _ => false;
      if admitted then PopTask(st).Ok? else PopTask(st) == Err(TypeCheckError)
  {}
}
