/**
 * The iterative deserializer: a task stack, a stack of suspended item lists and a stack of
 * savelists under construction.
 */
module Deserializer {
  import opened Outcomes
  import opened Bits
  import opened Cells
  import opened Values

  // ----- order in which a dictionary is iterated -----

  /** `keys` lists every key that is present exactly once. */
  ghost predicate ListsKeys(dict: Dictionary, keys: seq<nat>) {
    && (forall i :: 0 <= i < |keys| ==> keys[i] < |dict| && dict[keys[i]].Present?)
    && (forall i, j :: 0 <= i < j < |keys| ==> keys[i] != keys[j])
    && (forall k: nat :: k < |dict| && dict[k].Present? ==> k in keys)
  }

  /** The library may iterate in any order; a KeyOrder is one such choice. */
  type KeyOrder = f: Dictionary -> seq<nat> | forall dict :: ListsKeys(dict, f(dict))
    ghost witness dict => AscendingKeys(dict, |dict|)

  ghost function AscendingKeys(dict: Dictionary, n: nat): (keys: seq<nat>)
    requires n <= |dict|
    ensures forall i :: 0 <= i < |keys| ==> keys[i] < n && dict[keys[i]].Present?
    ensures forall i, j :: 0 <= i < j < |keys| ==> keys[i] != keys[j]
    ensures forall k: nat :: k < n && dict[k].Present? ==> k in keys
  {
    if n == 0 then [] else
      var below := AscendingKeys(dict, n - 1);
      if dict[n - 1].Present? then below + [n - 1] else below
  }

  // ----- tasks and state -----

  /** `DeserializeItem`. The last element of a task sequence is its top. */
  datatype Task =
    | ReadItems(length: nat, cursor: Cursor)
    | BuildTuple(length: nat)
    | BuildCont(cont: Continuation)
    | PutRegister(index: nat)
    | NewSaveList

  datatype Frame = Frame(items: seq<StackItem>, length: nat, cursor: Cursor)

  datatype State = State(
    list: seq<Task>,
    items: seq<StackItem>,
    length: nat,
    cursor: Cursor,
    itemsStack: seq<Frame>,
    savelistStack: seq<SaveList>)

  const NO_FRAME := Frame([], 0, EMPTY_CURSOR)

  function Start(list: seq<Task>): State {
    State(list, [], 0, EMPTY_CURSOR, [], [])
  }

  // ----- reading one element -----

  function Min(a: nat, b: nat): nat {
    if a <= b then a else b
  }

  /** `slice_deserialize`; a window past the end of the cell is cut off there. */
  function ReadSlice(c: Cursor): Result<(Slice, Cursor)> {
    var (cell, c1) :- NextReference(c);
    var (dataStart, c2) :- NextInt(c1, 10);
    var (dataEnd, c3) :- NextInt(c2, 10);
    if dataStart > MAX_DATA_BITS || dataEnd > MAX_DATA_BITS || dataStart > dataEnd then Err(FatalError) else
    var (refStart, c4) :- NextInt(c3, 3);
    var (refEnd, c5) :- NextInt(c4, 3);
    if refStart > MAX_REFERENCES_COUNT || refEnd > MAX_REFERENCES_COUNT || refStart > refEnd then Err(FatalError) else
    var loaded :- LoadCell(cell);
    var bits, refs := |loaded.bits|, |loaded.refs|;
    Ok((Slice(cell, Min(dataStart, bits), Min(dataEnd, bits), Min(refStart, refs), Min(refEnd, refs)), c5))
  }

  /** A slice stored in a cell of its own. */
  function ReadChildSlice(c: Cursor): Result<(Slice, Cursor)> {
    var (child, rest) :- NextReference(c);
    var loaded :- LoadCell(child);
    var (s, _) :- ReadSlice(loaded);
    Ok((s, rest))
  }

  /** Condition and body of a while loop share a cell. */
  function ReadWhile(c: Cursor): Result<(ContType, Cursor)> {
    var (child, rest) :- NextReference(c);
    var loaded :- LoadCell(child);
    var (cond, c1) :- ReadSlice(loaded);
    var (body, _) :- ReadSlice(c1);
    Ok((WhileLoopCondition(body, cond), rest))
  }

  function ToInt32(n: nat): int {
    var low := n % Pow2(32);
    if low >= Pow2(31) then low - Pow2(32) else low
  }

  function ReadType(c: Cursor): Result<(ContType, Cursor)> {
    var (high, c1) :- NextInt(c, 2);
    if high == 0 then Ok((Ordinary, c1)) else
    var (low, c2) :- NextInt(c1, 2);
    match 4 * high + low
    case 0x7 =>
      var (depth, c3) :- NextInt(c2, 32);
      Ok((CatchRevert(depth), c3))
    case 0x8 =>
      var (exitCode, c3) :- NextInt(c2, 32);
      Ok((Quit(ToInt32(exitCode)), c3))
    case 0x9 => Ok((TryCatch, c2))
    case 0xa =>
      var (body, c3) :- ReadChildSlice(c2);
      Ok((UntilLoopCondition(body), c3))
    case 0xb => Ok((ExcQuit, c2))
    case 0xc => ReadWhile(c2)
    case 0xd =>
      var (body, c3) :- ReadChildSlice(c2);
      Ok((AgainLoopBody(body), c3))
    case 0xe =>
      var (body, c3) :- ReadChildSlice(c2);
      var (counter, c4) :- NextInt(c3, 32);
      Ok((RepeatLoopBody(body, counter), c4))
    case 0xf =>
      var (pushed, c3) :- NextInt(c2, 32);
      Ok((PushInt(ToInt32(pushed)), c3))
    case _ => Err(UnknownError)
  }

  function ReadNargs(n: nat): int {
    if n == 0x3fffff then -1 else n
  }

  function ReadStack(c: Cursor): Result<(Task, Cursor)> {
    var (flag, c1) :- NextInt(c, 1);
    if flag == 0 then Ok((ReadItems(0, EMPTY_CURSOR), c1)) else
    var (length, c2) :- NextInt(c1, 24);
    var (cell, c3) :- NextReference(c2);
    var loaded :- LoadCell(cell);
    Ok((ReadItems(length, loaded), c3))
  }

  /** The tasks that fill a savelist from the entries with the given keys. */
  function SaveTasks(dict: Dictionary, keys: seq<nat>): seq<Task> {
    if keys == [] then [] else
      var k := keys[|keys| - 1];
      SaveTasks(dict, keys[..|keys| - 1]) +
      (if k < |dict| && dict[k].Present?
       then [PutRegister(k), ReadItems(1, Cursor(dict[k].value.bits, dict[k].value.refs))]
       else [])
  }

  function ReadSaves(c: Cursor, order: Dictionary -> seq<nat>): Result<(seq<Task>, Cursor)> {
    var (flag, c1) :- NextInt(c, 1);
    if flag == 0 then Ok(([], c1)) else
    var (root, c2) :- NextReference(c1);
    if root.DictRoot? then Ok((SaveTasks(root.slots, order(root.slots)), c2)) else Err(DictionaryError)
  }

  /** What follows the type of a continuation: nargs, stack, savelist, codepage and code. */
  function ReadBody(typ: ContType, c: Cursor, order: Dictionary -> seq<nat>): Result<(seq<Task>, Cursor)> {
    var (nargs, c1) :- NextInt(c, 22);
    var (stack, c2) :- ReadStack(c1);
    var (saves, c3) :- ReadSaves(c2, order);
    var (_, c4) :- NextInt(c3, 16);
    var (code, c5) :- ReadSlice(c4);
    var cont := Continuation(code, ReadNargs(nargs), EMPTY_SAVELIST, [], typ);
    Ok(([BuildCont(cont)] + saves + [NewSaveList] + [stack], c5))
  }

  /** `ContinuationData::deserialize_internal`: the tasks that rebuild a continuation. */
  function ReadContinuation(c: Cursor, order: Dictionary -> seq<nat>): Result<(seq<Task>, Cursor)> {
    var (typ, c1) :- ReadType(c);
    ReadBody(typ, c1, order)
  }

  /** Either a finished item, or the tasks that will finish it. */
  datatype Element = Done(item: StackItem) | Open(tasks: seq<Task>)

  function ReadInteger(c: Cursor): Result<(StackItem, Cursor)> {
    var (kind, c1) :- NextInt(c, 7);
    if kind == 0 then
      var (bits, c2) :- NextBits(c1, 257);
      Ok((Integer(Value(FromBitsSigned(bits))), c2))
    else if kind == 0x7f then
      var (flag, c2) :- NextInt(c1, 1);
      if flag == 1 then Ok((Integer(NaN), c2)) else Err(UnknownError)
    else Err(UnknownError)
  }

  function ReadPlain(tag: nat, c: Cursor): Result<(StackItem, Cursor)> {
    match tag
    case 0x00 => Ok((Null, c))
    case 0x02 => ReadInteger(c)
    case 0x03 =>
      var (cell, c1) :- NextReference(c);
      Ok((CellItem(cell), c1))
    case 0x04 =>
      var (s, c1) :- ReadSlice(c);
      Ok((SliceItem(s), c1))
    case 0x05 =>
      var (cell, c1) :- NextReference(c);
      var loaded :- LoadCell(cell);
      Ok((BuilderItem(Builder(loaded.bits, loaded.refs)), c1))
    case _ => Err(UnknownError)
  }

  function ReadContItem(c: Cursor, order: Dictionary -> seq<nat>): Result<(Element, Cursor)> {
    var (cell, c1) :- NextReference(c);
    var loaded :- LoadCell(cell);
    var (tasks, _) :- ReadContinuation(loaded, order);
    Ok((Open(tasks), c1))
  }

  function ReadTuple(c: Cursor): Result<(Element, Cursor)> {
    var (length, c1) :- NextInt(c, 8);
    var (cell, c2) :- NextReference(c1);
    var loaded :- LoadCell(cell);
    Ok((Open([BuildTuple(length), ReadItems(length, loaded)]), c2))
  }

  /** `StackItem::deserialize_internal`. */
  function ReadElement(c: Cursor, order: Dictionary -> seq<nat>): Result<(Element, Cursor)> {
    var (tag, c1) :- NextInt(c, 8);
    if tag == 0x06 then ReadContItem(c1, order)
    else if tag == 0x07 then ReadTuple(c1)
    else
      var (item, c2) :- ReadPlain(tag, c1);
      Ok((Done(item), c2))
  }

  /** After an element the reader moves on to the next node of the chain, if there is one. */
  function NextNode(c: Cursor): Result<Cursor> {
    if c.refs == [] then Ok(c) else LoadCell(c.refs[0])
  }

  // ----- one round -----

  function PutInSaveList(s: SaveList, index: nat, item: StackItem): Result<SaveList> {
    if CanPut(index, item) && Adjust(index) < |s| then Ok(s[Adjust(index) := Saved(item)]) else Err(TypeCheckError)
  }

  /** Back to the suspended list, extended by `more`. */
  function Resume(st: State, more: seq<StackItem>): State {
    var n := |st.itemsStack|;
    var frame := if n == 0 then NO_FRAME else st.itemsStack[n - 1];
    st.(items := frame.items + more, length := frame.length, cursor := frame.cursor,
        itemsStack := if n == 0 then [] else st.itemsStack[..n - 1])
  }

  /** Takes the top task. */
  function PopTask(st: State): Result<State>
    requires st.list != []
  {
    var st1 := st.(list := st.list[..|st.list| - 1]);
    var saves := st.savelistStack;
    match st.list[|st.list| - 1]
    case ReadItems(length, cursor) =>
      Ok(st1.(itemsStack := st.itemsStack + [Frame(st.items, st.length, st.cursor)],
              items := [], cursor := cursor, length := length))
    case BuildTuple(length) =>
      if length != |st.items| then Err(CellUnderflow) else Ok(Resume(st1, [Tuple(st.items)]))
    case BuildCont(cont) =>
      if saves == [] then Ok(Resume(st1, [ContItem(cont.(stack := st.items))])) else
        Ok(Resume(st1.(savelistStack := saves[..|saves| - 1]),
                  [ContItem(cont.(stack := st.items, savelist := saves[|saves| - 1]))]))
    case PutRegister(index) =>
      if saves == [] || st.items == [] then Ok(Resume(st1, [])) else
        var s :- PutInSaveList(saves[|saves| - 1], index, st.items[0]);
        Ok(Resume(st1.(savelistStack := saves[..|saves| - 1] + [s]), []))
    case NewSaveList =>
      Ok(st1.(savelistStack := saves + [EMPTY_SAVELIST]))
  }

  /** Reads one element of the current list. */
  function ReadOne(st: State, order: Dictionary -> seq<nat>): Result<(State, bool)> {
    var (e, c) :- ReadElement(st.cursor, order);
    var next :- NextNode(c);
    match e
    case Done(item) => Ok((st.(items := st.items + [item], cursor := next), true))
    case Open(tasks) => Ok((st.(list := st.list + tasks, cursor := next), false))
  }

  // ----- termination measure: the data that has not been read yet -----

  function CellWeight(c: Cell): (n: nat)
    ensures n >= 1
    decreases c, 0
  {
    match c
    case Cell(bits, refs) => 1 + 4 * |bits| + RefsWeight(refs)
    case DictRoot(slots) => 1 + EntriesWeight(slots)
  }

  function RefsWeight(refs: seq<Cell>): nat
    decreases refs, 0
  {
    if refs == [] then 0 else CellWeight(refs[0]) + RefsWeight(refs[1..])
  }

  function EntryWeight(e: Entry): nat
    decreases e, 0
  {
    match e
    case Absent => 0
    case Present(value) => 2 + 4 * |value.bits| + RefsWeight(value.refs)
  }

  function EntriesWeight(entries: seq<Entry>): nat
    decreases entries, 0
  {
    if entries == [] then 0 else EntryWeight(entries[0]) + EntriesWeight(entries[1..])
  }

  function CursorWeight(c: Cursor): nat {
    4 * |c.bits| + RefsWeight(c.refs)
  }

  function TaskWeight(t: Task): nat {
    if t.ReadItems? then 1 + CursorWeight(t.cursor) else 1
  }

  function TasksWeight(ts: seq<Task>): nat {
    if ts == [] then 0 else TasksWeight(ts[..|ts| - 1]) + TaskWeight(ts[|ts| - 1])
  }

  function FramesWeight(fs: seq<Frame>): nat {
    if fs == [] then 0 else FramesWeight(fs[..|fs| - 1]) + CursorWeight(fs[|fs| - 1].cursor)
  }

  function Weight(st: State): nat {
    TasksWeight(st.list) + CursorWeight(st.cursor) + FramesWeight(st.itemsStack)
  }

  lemma {:induction false} TasksWeightConcat(a: seq<Task>, b: seq<Task>)
    ensures TasksWeight(a + b) == TasksWeight(a) + TasksWeight(b)
  {
    if b == [] {
      assert a + b == a;
    } else {
      assert (a + b)[..|a + b| - 1] == a + b[..|b| - 1];
      TasksWeightConcat(a, b[..|b| - 1]);
    }
  }

  lemma TasksWeightOne(t: Task)
    ensures TasksWeight([t]) == TaskWeight(t)
  {}

  lemma TasksWeightTwo(t: Task, u: Task)
    ensures TasksWeight([t, u]) == TaskWeight(t) + TaskWeight(u)
  {
    TasksWeightOne(t);
    assert [t, u][..1] == [t];
  }

  /** Entries still to be visited weigh at least as much as the tasks made from them. */
  lemma {:induction false} EntriesWithout(dict: Dictionary, k: nat)
    requires k < |dict| && dict[k].Present?
    ensures EntriesWeight(dict) == EntryWeight(dict[k]) + EntriesWeight(dict[k := Absent])
  {
    if k > 0 {
      EntriesWithout(dict[1..], k - 1);
      assert dict[k := Absent][1..] == dict[1..][k - 1 := Absent];
    } else {
      assert dict[k := Absent][1..] == dict[1..];
    }
  }

  lemma {:induction false} SaveTasksWeight(dict: Dictionary, keys: seq<nat>)
    requires forall i :: 0 <= i < |keys| ==> keys[i] < |dict| && dict[keys[i]].Present?
    requires forall i, j :: 0 <= i < j < |keys| ==> keys[i] != keys[j]
    ensures TasksWeight(SaveTasks(dict, keys)) <= EntriesWeight(dict)
    decreases |keys|
  {
    if keys != [] {
      var init, k := keys[..|keys| - 1], keys[|keys| - 1];
      var dict' := dict[k := Absent];
      EntriesWithout(dict, k);
      SaveTasksWeight(dict', init);
      SaveTasksFrame(dict, k, init);
      var put, read := PutRegister(k), ReadItems(1, Cursor(dict[k].value.bits, dict[k].value.refs));
      TasksWeightTwo(put, read);
      TasksWeightConcat(SaveTasks(dict, init), [put, read]);
    }
  }

  lemma {:induction false} SaveTasksFrame(dict: Dictionary, k: nat, keys: seq<nat>)
    requires k < |dict| && k !in keys
    ensures SaveTasks(dict[k := Absent], keys) == SaveTasks(dict, keys)
  {
    if keys != [] {
      SaveTasksFrame(dict, k, keys[..|keys| - 1]);
    }
  }

  lemma NextReferenceWeight(c: Cursor)
    requires c.refs != []
    ensures CursorWeight(c) == CellWeight(c.refs[0]) + CursorWeight(NextReference(c).value.1)
    ensures c.refs[0].Cell? ==> CursorWeight(LoadCell(c.refs[0]).value) == CellWeight(c.refs[0]) - 1
  {}

  lemma ReadTypeWeight(c: Cursor)
    requires ReadType(c).Ok?
    ensures CursorWeight(ReadType(c).value.1) <= CursorWeight(c) - 8
  {}

  lemma ReadStackWeight(c: Cursor)
    requires ReadStack(c).Ok?
    ensures TaskWeight(ReadStack(c).value.0) + CursorWeight(ReadStack(c).value.1) <= CursorWeight(c)
  {
    var (flag, c1) := NextInt(c, 1).value;
    if flag == 0 {
      assert CursorWeight(EMPTY_CURSOR) == 0;
    } else {
      var (length, c2) := NextInt(c1, 24).value;
      NextReferenceWeight(c2);
    }
  }

  lemma ReadSavesWeight(c: Cursor, order: KeyOrder)
    requires ReadSaves(c, order).Ok?
    ensures TasksWeight(ReadSaves(c, order).value.0) + CursorWeight(ReadSaves(c, order).value.1) <= CursorWeight(c)
  {
    var (flag, c1) := NextInt(c, 1).value;
    if flag != 0 {
      var (root, c2) := NextReference(c1).value;
      NextReferenceWeight(c1);
      assert ListsKeys(root.slots, order(root.slots));
      SaveTasksWeight(root.slots, order(root.slots));
    }
  }

  lemma ReadBodyWeight(typ: ContType, c: Cursor, order: KeyOrder)
    requires ReadBody(typ, c, order).Ok?
    ensures TasksWeight(ReadBody(typ, c, order).value.0) <= CursorWeight(c)
  {
    var (nargs, c1) := NextInt(c, 22).value;
    var (stack, c2) := ReadStack(c1).value;
    ReadStackWeight(c1);
    var (saves, c3) := ReadSaves(c2, order).value;
    ReadSavesWeight(c2, order);
    var (code, c5) := ReadSlice(NextInt(c3, 16).value.1).value;
    var build := BuildCont(Continuation(code, ReadNargs(nargs), EMPTY_SAVELIST, [], typ));
    TasksWeightOne(build);
    TasksWeightOne(NewSaveList);
    TasksWeightOne(stack);
    TasksWeightConcat([build], saves);
    TasksWeightConcat([build] + saves, [NewSaveList]);
    TasksWeightConcat([build] + saves + [NewSaveList], [stack]);
  }

  lemma ReadContinuationWeight(c: Cursor, order: KeyOrder)
    requires ReadContinuation(c, order).Ok?
    ensures TasksWeight(ReadContinuation(c, order).value.0) <= CursorWeight(c)
  {
    var (typ, c1) := ReadType(c).value;
    ReadTypeWeight(c);
    ReadBodyWeight(typ, c1, order);
  }

  function ElementWeight(e: Element): nat {
    if e.Done? then 0 else TasksWeight(e.tasks)
  }

  lemma ReadContItemWeight(c: Cursor, order: KeyOrder)
    requires ReadContItem(c, order).Ok?
    ensures ElementWeight(ReadContItem(c, order).value.0) + CursorWeight(ReadContItem(c, order).value.1)
         <= CursorWeight(c)
  {
    NextReferenceWeight(c);
    ReadContinuationWeight(LoadCell(c.refs[0]).value, order);
  }

  lemma ReadTupleWeight(c: Cursor)
    requires ReadTuple(c).Ok?
    ensures ElementWeight(ReadTuple(c).value.0) + CursorWeight(ReadTuple(c).value.1) < CursorWeight(c)
  {
    var (length, c1) := NextInt(c, 8).value;
    NextReferenceWeight(c1);
    TasksWeightTwo(BuildTuple(length), ReadItems(length, LoadCell(c1.refs[0]).value));
  }

  lemma ReadPlainWeight(tag: nat, c: Cursor)
    requires ReadPlain(tag, c).Ok?
    ensures CursorWeight(ReadPlain(tag, c).value.1) <= CursorWeight(c)
  {}

  lemma ReadElementWeight(c: Cursor, order: KeyOrder)
    requires ReadElement(c, order).Ok?
    ensures ElementWeight(ReadElement(c, order).value.0) + CursorWeight(ReadElement(c, order).value.1) < CursorWeight(c)
  {
    var (tag, c1) := NextInt(c, 8).value;
    if tag == 0x06 {
      ReadContItemWeight(c1, order);
    } else if tag == 0x07 {
      ReadTupleWeight(c1);
    } else {
      ReadPlainWeight(tag, c1);
    }
  }

  lemma ReadOneWeight(st: State, order: KeyOrder)
    requires ReadOne(st, order).Ok?
    ensures Weight(ReadOne(st, order).value.0) < Weight(st)
  {
    var (e, c) := ReadElement(st.cursor, order).value;
    ReadElementWeight(st.cursor, order);
    if c.refs != [] {
      NextReferenceWeight(c);
    }
    if e.Open? {
      TasksWeightConcat(st.list, e.tasks);
    }
  }

  lemma EmptyCursorWeight()
    ensures CursorWeight(EMPTY_CURSOR) == 0
  {}

  lemma {:induction false} PopTaskWeight(st: State)
    requires st.list != [] && PopTask(st).Ok?
    ensures Weight(PopTask(st).value) < Weight(st)
  {
    hide CursorWeight;
    var top := st.list[|st.list| - 1];
    EmptyCursorWeight();
    if top.ReadItems? {
      var frame := Frame(st.items, st.length, st.cursor);
      assert (st.itemsStack + [frame])[..|st.itemsStack|] == st.itemsStack;
      assert FramesWeight(st.itemsStack + [frame]) == FramesWeight(st.itemsStack) + CursorWeight(st.cursor);
    } else {
      assert TaskWeight(top) == 1;
    }
  }

  /** What the loop returns when it is about to read. */
  function Run(st: State, order: KeyOrder): Result<seq<StackItem>>
    decreases Weight(st), 1
  {
    if |st.items| < st.length then
      var (st', finished) :- ReadOne(st, order);
      ReadOneWeight(st, order);
      if finished then Run(st', order) else RunTasks(st', order)
    else
      RunTasks(st, order)
  }

  /** What the loop returns when it is about to take a task. */
  function RunTasks(st: State, order: KeyOrder): Result<seq<StackItem>>
    decreases Weight(st), 0
  {
    if st.list == [] then Ok(st.items) else
      var st' :- PopTask(st);
      PopTaskWeight(st);
      Run(st', order)
  }

  // ----- entry points -----

  function First(items: seq<StackItem>): Result<StackItem> {
    if items == [] then Err(Panic) else Ok(items[0])
  }

  /** `StackItem::deserialize`. */
  function DecodeItem(c: Cursor, order: KeyOrder): Result<StackItem> {
    var items :- Run(Start([ReadItems(1, c)]), order);
    First(items)
  }

  /** `ContinuationData::deserialize`, together with what is left of the slice. */
  function DecodeContinuation(c: Cursor, order: KeyOrder): Result<(Continuation, Cursor)> {
    var (tasks, rest) :- ReadContinuation(c, order);
    var items :- Run(Start(tasks), order);
    var item :- First(items);
    if item.ContItem? then Ok((item.cont, rest)) else Err(TypeCheckError)
  }

  /** `items_deserialize`; it ends on every input because unread data shrinks. */
  method ItemsDeserialize(tasks: seq<Task>, order: KeyOrder) returns (r: Result<seq<StackItem>>)
    ensures r == Run(Start(tasks), order)
  {
    var st := Start(tasks);
    while true
      invariant Run(st, order) == Run(Start(tasks), order)
      decreases Weight(st)
    {
      ghost var before := Weight(st);
      var suspended := false;
      while |st.items| < st.length && !suspended
        invariant Weight(st) <= before
        invariant (if suspended then RunTasks(st, order) else Run(st, order)) == Run(Start(tasks), order)
        decreases Weight(st)
      {
        var next := ReadOne(st, order);
        if next.Err? { return Err(next.code); }
        ReadOneWeight(st, order);
        suspended := !next.value.1;
        st := next.value.0;
      }
      if st.list == [] { return Ok(st.items); }
      var next := PopTask(st);
      if next.Err? { return Err(next.code); }
      PopTaskWeight(st);
      st := next.value;
    }
  }

  method DeserializeItem(c: Cursor, order: KeyOrder) returns (r: Result<StackItem>)
    ensures r == DecodeItem(c, order)
  {
    var items := ItemsDeserialize([ReadItems(1, c)], order);
    if items.Err? { return Err(items.code); }
    r := First(items.value);
  }

  method DeserializeContinuation(c: Cursor, order: KeyOrder) returns (r: Result<(Continuation, Cursor)>)
    ensures r == DecodeContinuation(c, order)
  {
    var head := ReadContinuation(c, order);
    if head.Err? { return Err(head.code); }
    var items := ItemsDeserialize(head.value.0, order);
    if items.Err? { return Err(items.code); }
    var item := First(items.value);
    if item.Err? { return Err(item.code); }
    r := if item.value.ContItem? then Ok((item.value.cont, head.value.1)) else Err(TypeCheckError);
  }
}
