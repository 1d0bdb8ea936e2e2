/** Stack items, continuations and savelists. */
module Values {
  import opened Cells

  datatype IntegerData = NaN | Value(v: int)

  datatype StackItem =
    | Null
    | BuilderItem(builder: Builder)
    | CellItem(cell: Cell)
    | ContItem(cont: Continuation)
    | Integer(data: IntegerData)
    | SliceItem(slice: Slice)
    | Tuple(items: seq<StackItem>)

  datatype ContType =
    | AgainLoopBody(body: Slice)
    | TryCatch
    | CatchRevert(depth: nat)
    | Ordinary
    | PushInt(pushed: int)
    | Quit(exitCode: int)
    | RepeatLoopBody(body: Slice, counter: int)
    | UntilLoopCondition(body: Slice)
    | WhileLoopCondition(body: Slice, cond: Slice)
    | ExcQuit

  datatype Slot = Unset | Saved(item: StackItem)

  /** Seven optional registers c0..c5 and c7; c7 sits at position 6. */
  type SaveList = seq<Slot>

  const NUMREGS := 7

  const EMPTY_SAVELIST: SaveList := [Unset, Unset, Unset, Unset, Unset, Unset, Unset]

  datatype Continuation = Continuation(
    code: Slice,
    nargs: int,
    savelist: SaveList,
    stack: seq<StackItem>,
    typ: ContType)

  function WithCode(code: Slice): Continuation {
    Continuation(code, -1, EMPTY_SAVELIST, [], Ordinary)
  }

  function WithType(typ: ContType): Continuation {
    Continuation(EMPTY_SLICE, -1, EMPTY_SAVELIST, [], typ)
  }

  /** Position of register `index` in a savelist. */
  function Adjust(index: nat): nat {
    if index == 7 then 6 else index
  }

  /** Register stored at position `pos` of a savelist. */
  function RegisterAt(pos: nat): nat {
    if pos == 6 then 7 else pos
  }

  predicate IsRegister(index: nat) {
    index <= 5 || index == 7
  }

  predicate CanPut(index: nat, value: StackItem) {
    match index
    case 0 => value.ContItem?
    case 1 => value.ContItem?
    case 3 => value.ContItem?
    case 2 => value.ContItem? || value.Null?
    case 4 => value.CellItem?
    case 5 => value.CellItem?
    case 7 => value.Tuple?
    case _ => false
  }

  /** Every register that is present holds a value its index admits. */
  predicate TypedSaveList(s: SaveList) {
    && |s| == NUMREGS
    && forall i :: 0 <= i < NUMREGS && s[i].Saved? ==> CanPut(RegisterAt(i), s[i].item)
  }
}
