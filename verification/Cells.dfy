/**
 * Cells as finite trees, builders, slices and read cursors.
 * The root of a dictionary with 4-bit keys is a cell of its own kind holding one optional value
 * for each of the 16 keys; how the library lays such a dictionary out in bits is not modelled.
 */
module Cells {
  import opened Outcomes
  import opened Bits

  const MAX_DATA_BITS := 1023
  const MAX_REFERENCES_COUNT := 4

  datatype Cell =
    | Cell(bits: seq<bool>, refs: seq<Cell>)
    | DictRoot(slots: Dictionary)

  datatype Builder = Builder(bits: seq<bool>, refs: seq<Cell>)

  /** A dictionary with 4-bit keys: position k holds the value of key k. */
  type Dictionary = seq<Entry>

  datatype Entry = Absent | Present(value: Builder)

  const EMPTY_DICT: Dictionary :=
    [Absent, Absent, Absent, Absent, Absent, Absent, Absent, Absent, Absent, Absent, Absent, Absent, Absent, Absent,
        Absent, Absent]

  const EMPTY_BUILDER := Builder([], [])

  predicate FitsCell(b: Builder) {
    |b.bits| <= MAX_DATA_BITS && |b.refs| <= MAX_REFERENCES_COUNT
  }

  function AppendBits(b: Builder, bits: seq<bool>): (r: Result<Builder>)
  {
    if |b.bits| + |bits| > MAX_DATA_BITS then Err(CellOverflow) else Ok(Builder(b.bits + bits, b.refs))
  }

  function AppendReference(b: Builder, cell: Cell): (r: Result<Builder>)
  {
    if |b.refs| >= MAX_REFERENCES_COUNT then Err(CellOverflow) else Ok(Builder(b.bits, b.refs + [cell]))
  }

  function AppendBuilder(b: Builder, other: Builder): (r: Result<Builder>)
  {
    if |b.bits| + |other.bits| > MAX_DATA_BITS || |b.refs| + |other.refs| > MAX_REFERENCES_COUNT
    then Err(CellOverflow)
    else Ok(Builder(b.bits + other.bits, b.refs + other.refs))
  }

  function CellOf(b: Builder): Cell {
    Cell(b.bits, b.refs)
  }

  /**
   * `finalize_cell`. The library may refuse a builder (a depth limit, for example);
   * `accepts` stands for that decision.
   */
  function FinalizeCell(b: Builder, accepts: Builder -> bool): Result<Cell> {
    if accepts(b) then Ok(CellOf(b)) else Err(CellOverflow)
  }

  /** A window into a cell: data bits dataStart..dataEnd and references refStart..refEnd. */
  datatype Slice = Slice(cell: Cell, dataStart: nat, dataEnd: nat, refStart: nat, refEnd: nat) {
    predicate Valid() {
      && cell.Cell?
      && |cell.bits| <= MAX_DATA_BITS && |cell.refs| <= MAX_REFERENCES_COUNT
      && dataStart <= dataEnd <= |cell.bits|
      && refStart <= refEnd <= |cell.refs|
    }

    function RemainingBits(): (n: nat) {
      if dataStart <= dataEnd then dataEnd - dataStart else 0
    }

    function RemainingReferences(): (n: nat) {
      if refStart <= refEnd then refEnd - refStart else 0
    }
  }

  const EMPTY_SLICE := Slice(Cell([], []), 0, 0, 0, 0)

  /** What a reader has not consumed yet. */
  datatype Cursor = Cursor(bits: seq<bool>, refs: seq<Cell>)

  const EMPTY_CURSOR := Cursor([], [])

  /** `load_cell` of an ordinary cell; reading a dictionary root as raw data is not modelled. */
  function LoadCell(cell: Cell): (r: Result<Cursor>) {
    if cell.Cell? then Ok(Cursor(cell.bits, cell.refs)) else Err(CellUnderflow)
  }

  function NextBits(c: Cursor, n: nat): (r: Result<(seq<bool>, Cursor)>)
  {
    if n > |c.bits| then Err(CellUnderflow) else Ok((c.bits[..n], Cursor(c.bits[n..], c.refs)))
  }

  function NextInt(c: Cursor, n: nat): (r: Result<(nat, Cursor)>)
  {
    var (bits, rest) :- NextBits(c, n);
    Ok((FromBits(bits), rest))
  }

  function NextReference(c: Cursor): (r: Result<(Cell, Cursor)>)
  {
    if c.refs == [] then Err(CellUnderflow) else Ok((c.refs[0], Cursor(c.bits, c.refs[1..])))
  }
}
