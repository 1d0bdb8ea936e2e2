/**
 * The deserializer on arbitrary input never faults: however its tasks and its suspended lists nest, no
 * assertion in the loop can fail, and an accepted input leaves exactly the item it was asked for.
 */
module Faultless {
  import opened Outcomes
  import opened Cells
  import opened Values
  import opened Deserializer

  // ----- the loop with its assertions -----

  /** What the loop takes for granted when it finishes a tuple, a continuation or a register. */
  predicate Granted(st: State)
    requires st.list != []
  {
    match st.list[|st.list| - 1]
    case ReadItems(_, _) => true
    case NewSaveList => true
    case BuildTuple(length) => |st.items| == length
    case BuildCont(_) => st.savelistStack != []
    case PutRegister(_) => st.savelistStack != [] && |st.items| == 1
  }

  /** The loop with a fault wherever something is taken for granted that does not hold. */
  function Strict(st: State, order: KeyOrder): Result<seq<StackItem>>
    decreases Weight(st), 1
  {
    if |st.items| < st.length then
      var (st', finished) :- ReadOne(st, order);
      ReadOneWeight(st, order);
      if finished then Strict(st', order) else StrictTasks(st', order)
    else
      StrictTasks(st, order)
  }

  function StrictTasks(st: State, order: KeyOrder): Result<seq<StackItem>>
    decreases Weight(st), 0
  {
    if st.list == [] then (if |st.items| == 1 then Ok(st.items) else Err(Panic))
    else if !Granted(st) then Err(Panic)
    else
      var st' :- PopTask(st);
      PopTaskWeight(st);
      Strict(st', order)
  }

  // ----- how tasks and lists nest -----

  /** A list that is being read: how many items it wants, and whether a task has yet to add one. */
  datatype Level = Level(want: nat, waiting: bool)

  function Full(want: nat): Level {
    Level(want, false)
  }

  /**
   * Taking the tasks from the top, with every list read to its end between them, suspends and resumes
   * these levels and savelists, finds what it takes for granted, and leaves the levels `end`.
   */
  ghost predicate Unwinds(list: seq<Task>, ls: seq<Level>, saves: nat, end: seq<Level>)
    decreases |list|
  {
    var m := |ls|;
    if list == [] then ls == end && saves == 0 else
      var init := list[..|list| - 1];
      match list[|list| - 1]
      case ReadItems(n, _) => Unwinds(init, ls + [Full(n)], saves, end)
      case NewSaveList => m >= 1 && !ls[m - 1].waiting && Unwinds(init, ls, saves + 1, end)
      case PutRegister(_) =>
        && m >= 2 && ls[m - 1] == Full(1) && !ls[m - 2].waiting && saves >= 1
        && Unwinds(init, ls[..m - 1], saves, end)
      case BuildTuple(n) =>
        m >= 2 && ls[m - 1] == Full(n) && ls[m - 2].waiting && Unwinds(init, Added(ls), saves, end)
      case BuildCont(_) =>
        && m >= 2 && !ls[m - 1].waiting && ls[m - 2].waiting && saves >= 1
        && Unwinds(init, Added(ls), saves - 1, end)
  }

  /** The topmost list is done and adds its item to the one below, which is then read to its end. */
  function Added(ls: seq<Level>): seq<Level>
    requires |ls| >= 2
  {
    ls[..|ls| - 2] + [Full(ls[|ls| - 2].want)]
  }

  lemma {:induction false} SavesUnwind(list: seq<Task>, dict: Dictionary, keys: seq<nat>, ls: seq<Level>, saves: nat,
      end: seq<Level>)
    requires Unwinds(list, ls, saves, end) && saves >= 1 && |ls| >= 1 && !ls[|ls| - 1].waiting
    ensures Unwinds(list + SaveTasks(dict, keys), ls, saves, end)
    decreases |keys|
  {
    if keys == [] {
      assert list + [] == list;
    } else {
      var init, k := keys[..|keys| - 1], keys[|keys| - 1];
      var below := list + SaveTasks(dict, init);
      SavesUnwind(list, dict, init, ls, saves, end);
      if k < |dict| && dict[k].Present? {
        var read := ReadItems(1, Cursor(dict[k].value.bits, dict[k].value.refs));
        assert list + SaveTasks(dict, keys) == below + [PutRegister(k)] + [read];
        RegisterUnwinds(below, k, read.cursor, ls, saves, end);
      } else {
        assert list + SaveTasks(dict, keys) == below;
      }
    }
  }

  lemma RegisterUnwinds(list: seq<Task>, k: nat, c: Cursor, ls: seq<Level>, saves: nat, end: seq<Level>)
    requires Unwinds(list, ls, saves, end) && saves >= 1 && |ls| >= 1 && !ls[|ls| - 1].waiting
    ensures Unwinds(list + [PutRegister(k)] + [ReadItems(1, c)], ls, saves, end)
  {
    var put := list + [PutRegister(k)];
    assert put[..|put| - 1] == list && (put + [ReadItems(1, c)])[..|put|] == put;
    var more := ls + [Full(1)];
    assert more[..|more| - 1] == ls;
    assert Unwinds(put, more, saves, end);
  }

  /** The current list waits for the item of a task. */
  function Waiting(ls: seq<Level>): seq<Level>
    requires |ls| >= 1
  {
    ls[..|ls| - 1] + [Level(ls[|ls| - 1].want, true)]
  }

  lemma TupleUnwinds(list: seq<Task>, n: nat, c: Cursor, ls: seq<Level>, saves: nat, end: seq<Level>)
    requires Unwinds(list, ls, saves, end) && |ls| >= 1 && !ls[|ls| - 1].waiting
    ensures Unwinds(list + [BuildTuple(n), ReadItems(n, c)], Waiting(ls), saves, end)
  {
    var build := list + [BuildTuple(n)];
    var all := list + [BuildTuple(n), ReadItems(n, c)];
    assert build[..|build| - 1] == list && all[..|all| - 1] == build;
    var more := Waiting(ls) + [Full(n)];
    assert Added(more) == ls;
    assert Unwinds(build, more, saves, end);
  }

  lemma BodyUnwinds(list: seq<Task>, typ: ContType, c: Cursor, order: KeyOrder, ls: seq<Level>, saves: nat,
      end: seq<Level>)
    requires ReadBody(typ, c, order).Ok?
    requires Unwinds(list, ls, saves, end) && |ls| >= 1 && !ls[|ls| - 1].waiting
    ensures
      var ts := ReadBody(typ, c, order).value.0;
      && |ts| >= 2 && ts[0].BuildCont? && ts[|ts| - 1].ReadItems?
      && Unwinds(list + ts, Waiting(ls), saves, end)
  {
    hide ReadBody, ReadSaves, ListsKeys, Unwinds, Waiting;
    var ts := ReadBody(typ, c, order).value.0;
    var regs, stack, c2 := BodyParts(typ, c, order);
    var build := list + [ts[0]];
    BuildUnwinds(list, ts[0], stack.length, ls, saves, end);
    RegistersUnwind(build, c2, order, Waiting(ls) + [Full(stack.length)], saves + 1, end);
    StackUnwinds(build + regs, stack, Waiting(ls), saves, end);
    assert list + ts == build + regs + [NewSaveList] + [stack];
  }

  /** The tasks of a continuation: its builder at the bottom, then its registers, its stack on top. */
  lemma BodyParts(typ: ContType, c: Cursor, order: KeyOrder) returns (regs: seq<Task>, stack: Task, c2: Cursor)
    requires ReadBody(typ, c, order).Ok?
    ensures ReadSaves(c2, order).Ok? && regs == ReadSaves(c2, order).value.0 && stack.ReadItems?
    ensures
      var ts := ReadBody(typ, c, order).value.0;
      |ts| >= 2 && ts[0].BuildCont? && ts == [ts[0]] + regs + [NewSaveList] + [stack]
  {
    hide SaveTasks, ReadSlice, NextInt, ListsKeys, ReadSaves;
    var (nargs, c1) := NextInt(c, 22).value;
    stack, c2 := ReadStack(c1).value.0, ReadStack(c1).value.1;
    regs := ReadSaves(c2, order).value.0;
  }

  lemma BuildUnwinds(list: seq<Task>, build: Task, n: nat, ls: seq<Level>, saves: nat, end: seq<Level>)
    requires build.BuildCont? && Unwinds(list, ls, saves, end) && |ls| >= 1 && !ls[|ls| - 1].waiting
    ensures Unwinds(list + [build], Waiting(ls) + [Full(n)], saves + 1, end)
  {
    assert (list + [build])[..|list|] == list;
    assert Added(Waiting(ls) + [Full(n)]) == ls;
  }

  lemma StackUnwinds(list: seq<Task>, stack: Task, ls: seq<Level>, saves: nat, end: seq<Level>)
    requires stack.ReadItems? && Unwinds(list, ls + [Full(stack.length)], saves + 1, end)
    ensures Unwinds(list + [NewSaveList] + [stack], ls, saves, end)
  {
    var open := list + [NewSaveList];
    assert open[..|open| - 1] == list && (open + [stack])[..|open|] == open;
    assert Unwinds(open, ls + [Full(stack.length)], saves, end);
  }

  lemma RegistersUnwind(list: seq<Task>, c: Cursor, order: KeyOrder, ls: seq<Level>, saves: nat, end: seq<Level>)
    requires ReadSaves(c, order).Ok?
    requires Unwinds(list, ls, saves, end) && saves >= 1 && |ls| >= 1 && !ls[|ls| - 1].waiting
    ensures Unwinds(list + ReadSaves(c, order).value.0, ls, saves, end)
  {
    hide SaveTasks, NextInt, ListsKeys, Unwinds;
    if NextInt(c, 1).value.0 != 0 {
      var root := NextReference(NextInt(c, 1).value.1).value.0;
      SavesUnwind(list, root.slots, order(root.slots), ls, saves, end);
    } else {
      assert list + [] == list;
    }
  }

  /** An element that opens tasks opens a nest of them, which adds one item in the end. */
  lemma ElementUnwinds(list: seq<Task>, c: Cursor, order: KeyOrder, ls: seq<Level>, saves: nat, end: seq<Level>)
    requires ReadElement(c, order).Ok? && ReadElement(c, order).value.0.Open?
    requires Unwinds(list, ls, saves, end) && |ls| >= 1 && !ls[|ls| - 1].waiting
    ensures
      var ts := ReadElement(c, order).value.0.tasks;
      && |ts| >= 2 && ts[|ts| - 1].ReadItems? && Unwinds(list + ts, Waiting(ls), saves, end)
  {
    hide ReadBody, ReadType, ReadSlice, NextInt, ListsKeys, Unwinds, Waiting;
    var (tag, c1) := NextInt(c, 8).value;
    if tag == 0x06 {
      var loaded := LoadCell(NextReference(c1).value.0).value;
      var (typ, c2) := ReadType(loaded).value;
      BodyUnwinds(list, typ, c2, order, ls, saves, end);
    } else {
      var ts := ReadTuple(c1).value.0.tasks;
      TupleUnwinds(list, ts[0].length, ts[1].cursor, ls, saves, end);
    }
  }

  // ----- states -----

  /** A suspended list has fewer items than it wants if it waits, and all of them otherwise. */
  predicate Agrees(l: Level, items: seq<StackItem>) {
    if l.waiting then |items| < l.want else |items| == l.want
  }

  /** The lists of a state are at these levels; the outermost one is not read, and its level is given. */
  ghost predicate AtLevels(st: State, ls: seq<Level>) {
    && |ls| == |st.itemsStack| + 1 && ls[0].want <= 1
    && (forall i :: 0 <= i < |st.itemsStack| ==> Agrees(ls[i], st.itemsStack[i].items))
    && (forall i :: 1 <= i < |st.itemsStack| ==> ls[i].want == st.itemsStack[i].length)
    && (st.itemsStack != [] ==> ls[|ls| - 1].want == st.length)
    && (st.itemsStack != [] ==> st.itemsStack[0].length == 0)
    && (st.itemsStack == [] ==> st.length == 0)
  }

  /** The loop is about to read. */
  ghost predicate Reads(st: State, ls: seq<Level>, end: seq<Level>) {
    && AtLevels(st, ls) && Unwinds(st.list, ls, |st.savelistStack|, end)
    && !ls[|ls| - 1].waiting && |st.items| <= ls[|ls| - 1].want
    && (st.itemsStack == [] ==> |st.items| == ls[0].want)
  }

  /** The loop is about to take a task. */
  ghost predicate Takes(st: State, ls: seq<Level>, end: seq<Level>) {
    && AtLevels(st, ls) && Unwinds(st.list, ls, |st.savelistStack|, end)
    && Agrees(ls[|ls| - 1], st.items)
  }

  /** The levels after the top task. */
  ghost function Popped(top: Task, ls: seq<Level>): seq<Level>
    requires top.BuildTuple? || top.BuildCont? || top.PutRegister? ==> |ls| >= 2
  {
    match top
    case ReadItems(n, _) => ls + [Full(n)]
    case NewSaveList => ls
    case PutRegister(_) => ls[..|ls| - 1]
    case _ => Added(ls)
  }

  /** What unwinding says about the top task. */
  lemma TopUnwinds(list: seq<Task>, ls: seq<Level>, saves: nat, end: seq<Level>)
    requires list != [] && Unwinds(list, ls, saves, end)
    ensures
      var top, m := list[|list| - 1], |ls|;
      var change := if top.NewSaveList? then 1 else if top.BuildCont? then -1 else 0;
      && (top.BuildTuple? || top.BuildCont? || top.PutRegister? ==> m >= 2)
      && (top.BuildTuple? ==> ls[m - 1] == Full(top.length) && ls[m - 2].waiting)
      && (top.BuildCont? ==> saves >= 1 && ls[m - 2].waiting)
      && (top.PutRegister? ==> saves >= 1 && ls[m - 1] == Full(1) && !ls[m - 2].waiting)
      && (top.NewSaveList? ==> m >= 1 && !ls[m - 1].waiting)
      && saves + change >= 0
      && Unwinds(list[..|list| - 1], Popped(top, ls), saves + change, end)
  {}

  lemma SameLevels(st: State, st1: State, ls: seq<Level>)
    requires AtLevels(st, ls)
    requires st1.items == st.items && st1.length == st.length && st1.itemsStack == st.itemsStack
    ensures AtLevels(st1, ls) && |ls| == |st.itemsStack| + 1
  {}

  /** What taking a task does to the lists; a builder resumes one with `more`. */
  lemma PopShape(st: State) returns (more: seq<StackItem>)
    requires st.list != [] && Granted(st) && PopTask(st).Ok?
    ensures
      var top, st1 := st.list[|st.list| - 1], PopTask(st).value;
      && st1.list == st.list[..|st.list| - 1]
      && |st1.savelistStack|
         == |st.savelistStack| + (if top.NewSaveList? then 1 else if top.BuildCont? then -1 else 0)
      && match top
         case ReadItems(n, _) =>
           && st1.items == [] && st1.length == n
           && st1.itemsStack == st.itemsStack + [Frame(st.items, st.length, st.cursor)]
         case NewSaveList => st1.items == st.items && st1.length == st.length && st1.itemsStack == st.itemsStack
         case _ =>
           var r := Resume(st, more);
           && |more| == (if top.PutRegister? then 0 else 1)
           && st1.items == r.items && st1.length == r.length && st1.itemsStack == r.itemsStack
  {
    hide PutInSaveList;
    more := match st.list[|st.list| - 1]
      case BuildTuple(_) => [Tuple(st.items)]
      case BuildCont(k) => [ContItem(k.(stack := st.items, savelist := st.savelistStack[|st.savelistStack| - 1]))]
      case _ => [];
  }

  lemma Suspended(st: State, st1: State, ls: seq<Level>)
    requires AtLevels(st, ls) && Agrees(ls[|ls| - 1], st.items)
    requires st1.itemsStack == st.itemsStack + [Frame(st.items, st.length, st.cursor)]
    ensures AtLevels(st1, ls + [Full(st1.length)]) && |ls| >= 1
  {}

  /** Resuming a list with the item it waits for, or with none if it does not wait. */
  lemma Resumed(st: State, more: seq<StackItem>, ls: seq<Level>)
    requires AtLevels(st, ls) && |ls| >= 2 && |more| == if ls[|ls| - 2].waiting then 1 else 0
    ensures
      var st1, ls1 := Resume(st, more), if more == [] then ls[..|ls| - 1] else Added(ls);
      && AtLevels(st1, ls1) && |ls1| == |ls| - 1 && !ls1[|ls1| - 1].waiting && |st1.items| <= ls1[|ls1| - 1].want
      && (st1.itemsStack == [] ==> |st1.items| == ls1[0].want)
  {}

  /** What a task takes for granted holds, and the loop goes on to read. */
  lemma TaskGranted(st: State, ls: seq<Level>, end: seq<Level>)
    requires Takes(st, ls, end) && st.list != []
    requires st.list[|st.list| - 1].ReadItems? || !ls[|ls| - 1].waiting
    ensures Granted(st)
    ensures
      var top := st.list[|st.list| - 1];
      top.BuildTuple? || top.BuildCont? || top.PutRegister? ==> |ls| >= 2
    ensures PopTask(st).Ok? ==> Reads(PopTask(st).value, Popped(st.list[|st.list| - 1], ls), end)
  {
    hide Unwinds, Added, AtLevels, PopTask, Resume;
    TopUnwinds(st.list, ls, |st.savelistStack|, end);
    if PopTask(st).Ok? {
      var top, st1 := st.list[|st.list| - 1], PopTask(st).value;
      var more := PopShape(st);
      if top.ReadItems? {
        Suspended(st, st1, ls);
      } else if top.NewSaveList? {
        SameLevels(st, st1, ls);
      } else {
        Resumed(st, more, ls);
        SameLevels(Resume(st, more), st1, Popped(top, ls));
      }
    }
  }

  lemma OpensTasks(st: State, ls: seq<Level>, end: seq<Level>, order: KeyOrder)
    requires Reads(st, ls, end) && |st.items| < st.length
    requires ReadOne(st, order).Ok? && !ReadOne(st, order).value.1
    ensures
      var st1 := ReadOne(st, order).value.0;
      && |st1.list| > |st.list| && st1.list[..|st.list|] == st.list && st1.list[|st1.list| - 1].ReadItems?
      && Takes(st1, Waiting(ls), end)
  {
    hide ReadElement, ListsKeys, Unwinds;
    ElementUnwinds(st.list, st.cursor, order, ls, |st.savelistStack|, end);
  }

  /** The last task of a continuation, and what it leaves. */
  ghost predicate GivesContinuation(st: State) {
    if st.list == [] then |st.items| == 1 ==> st.items[0].ContItem? else st.list[0].BuildCont?
  }

  lemma GivesStill(st: State, ls: seq<Level>, end: seq<Level>)
    requires Takes(st, ls, end) && st.list != [] && |end| == 1 && GivesContinuation(st) && PopTask(st).Ok?
    requires st.list[|st.list| - 1].ReadItems? || !ls[|ls| - 1].waiting
    ensures GivesContinuation(PopTask(st).value)
  {
    hide PutInSaveList, Granted;
  }

  /** One item, and a continuation if that is what is being built. */
  predicate IsResult(items: seq<StackItem>, cont: bool) {
    |items| == 1 && (cont ==> items[0].ContItem?)
  }

  /** The levels in the end: one item on top; nothing below it when a continuation is being built. */
  predicate IsEnd(end: seq<Level>, cont: bool) {
    |end| >= 1 && end[|end| - 1] == Full(1) && (cont ==> |end| == 1)
  }

  /**
   * From any state whose tasks and lists nest, the loop never misses what it takes for granted and ends
   * with one item; with a continuation to build, that item is a continuation.
   */
  lemma {:induction false} ReadingIsStrict(st: State, ls: seq<Level>, end: seq<Level>, cont: bool, order: KeyOrder)
    requires Reads(st, ls, end) && IsEnd(end, cont) && (cont ==> GivesContinuation(st))
    ensures Strict(st, order) == Run(st, order)
    ensures Run(st, order).Ok? ==> IsResult(Run(st, order).value, cont)
    decreases Weight(st), 1
  {
    hide ReadElement, Weight, ListsKeys, Unwinds, PopTask, Granted;
    if st.list == [] {
      NothingLeft(ls, |st.savelistStack|, end);
    }
    if |st.items| < st.length {
      if ReadOne(st, order).Ok? {
        ReadOneWeight(st, order);
        var (st1, finished) := ReadOne(st, order).value;
        if finished {
          ReadingIsStrict(st1, ls, end, cont, order);
        } else {
          OpensTasks(st, ls, end, order);
          TakingIsStrict(st1, Waiting(ls), end, cont, order);
        }
      }
    } else {
      TakingIsStrict(st, ls, end, cont, order);
    }
  }

  lemma {:induction false} TakingIsStrict(st: State, ls: seq<Level>, end: seq<Level>, cont: bool, order: KeyOrder)
    requires Takes(st, ls, end) && IsEnd(end, cont) && (cont ==> GivesContinuation(st))
    requires st.list != [] ==> st.list[|st.list| - 1].ReadItems? || !ls[|ls| - 1].waiting
    ensures StrictTasks(st, order) == RunTasks(st, order)
    ensures RunTasks(st, order).Ok? ==> IsResult(RunTasks(st, order).value, cont)
    decreases Weight(st), 0
  {
    hide ReadElement, Weight, ListsKeys, Unwinds, PopTask, Granted;
    if st.list == [] {
      NothingLeft(ls, |st.savelistStack|, end);
    } else {
      TaskGranted(st, ls, end);
      if PopTask(st).Ok? {
        PopTaskWeight(st);
        if cont {
          GivesStill(st, ls, end);
        }
        ReadingIsStrict(PopTask(st).value, Popped(st.list[|st.list| - 1], ls), end, cont, order);
      }
    }
  }

  lemma NothingLeft(ls: seq<Level>, saves: nat, end: seq<Level>)
    requires Unwinds([], ls, saves, end)
    ensures ls == end
  {}

  // ----- the entry points -----

  /**
   * Whatever is read, no assertion of the loop fails and it gives exactly one item, so that taking the
   * first one cannot fault.
   */
  lemma ItemNeverFaults(c: Cursor, order: KeyOrder)
    ensures
      var r := Strict(Start([ReadItems(1, c)]), order);
      && r == Run(Start([ReadItems(1, c)]), order)
      && (r.Ok? ==> |r.value| == 1)
      && DecodeItem(c, order) == if r.Err? then Err(r.code) else Ok(r.value[0])
  {
    hide Run, Strict, ListsKeys;
    var st, ls := Start([ReadItems(1, c)]), [Full(0)];
    var end := [Full(0), Full(1)];
    assert st.list[..0] == [];
    assert Unwinds([], ls + [Full(1)], 0, end);
    ReadingIsStrict(st, ls, end, false, order);
  }

  /** Nor can decoding a continuation fault: what is accepted is exactly one continuation. */
  lemma ContinuationNeverFaults(c: Cursor, order: KeyOrder)
    requires ReadContinuation(c, order).Ok?
    ensures
      var (tasks, rest) := ReadContinuation(c, order).value;
      var r := Strict(Start(tasks), order);
      && r == Run(Start(tasks), order)
      && (r.Ok? ==> |r.value| == 1 && r.value[0].ContItem?)
      && DecodeContinuation(c, order) == if r.Err? then Err(r.code) else Ok((r.value[0].cont, rest))
  {
    hide Run, RunTasks, Strict, StrictTasks, ReadBody, ReadType, ListsKeys, Unwinds;
    var (typ, c1) := ReadType(c).value;
    var ts := ReadContinuation(c, order).value.0;
    var end := [Full(1)];
    EndUnwinds(end);
    BodyUnwinds([], typ, c1, order, end, 0, end);
    assert [] + ts == ts && Waiting(end) == [Level(1, true)];
    TakingIsStrict(Start(ts), [Level(1, true)], end, true, order);
    StartsTaking(ts, order);
  }

  lemma EndUnwinds(end: seq<Level>)
    ensures Unwinds([], end, 0, end)
  {}

  lemma StartsTaking(ts: seq<Task>, order: KeyOrder)
    ensures Run(Start(ts), order) == RunTasks(Start(ts), order)
    ensures Strict(Start(ts), order) == StrictTasks(Start(ts), order)
  {
    hide ListsKeys, RunTasks, StrictTasks;
  }
}
