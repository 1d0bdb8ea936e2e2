/**
 * Committed state: what COMMIT and the end of a run record of the data register c4 and the actions
 * register c5, and what a run that fails keeps.
 */
module Commits {
  import opened Cells
  import opened Values
  import opened Machine
  import opened Typing

  datatype Committed = Empty | Committed(c4: StackItem, c5: StackItem)

  /** `CommittedState::with_params` over the registers of the moment. */
  function Recorded(ctrls: SaveList): Committed {
    var c4 := if At(ctrls, 4).Saved? then At(ctrls, 4).item else Null;
    var c5 := if At(ctrls, 5).Saved? then At(ctrls, 5).item else Null;
    if CanPut(4, c4) && CanPut(5, c5) then Committed(c4, c5) else Empty
  }

  /** The committed state of the engine. */
  class CommittedState {
    var c4: StackItem
    var c5: StackItem
    var committed: bool

    function State(): Committed
      reads this
    {
      if committed then Committed(c4, c5) else Empty
    }

    /** `new_empty`. */
    constructor ()
      ensures State() == Empty
    {
      c4, c5, committed := Null, Null, false;
    }

    /** `commit`, given the engine's registers. */
    method Record(ctrls: SaveList)
      modifies this
      ensures State() == Recorded(ctrls)
    {
      var root := if At(ctrls, 4).Saved? then At(ctrls, 4).item else Null;
      var actions := if At(ctrls, 5).Saved? then At(ctrls, 5).item else Null;
      if CanPut(4, root) && CanPut(5, actions) {
        c4, c5, committed := root, actions, true;
      } else {
        c4, c5, committed := Null, Null, false;
      }
    }
  }

  /** The registers have a data cell in c4 and an actions cell in c5, and these are what is committed. */
  predicate RecordsCells(ctrls: SaveList, c: Committed) {
    && |ctrls| == NUMREGS && ctrls[4].Saved? && ctrls[5].Saved?
    && ctrls[4].item.CellItem? && ctrls[5].item.CellItem?
    && c == Committed(ctrls[4].item, ctrls[5].item)
  }

  /** In a well-typed state a commit records the cell in c4 as data and the cell in c5 as actions. */
  lemma SoundRecords(core: Core)
    requires Sound(core)
    ensures RecordsCells(core.ctrls, Recorded(core.ctrls))
  {
    hide TypedItem, TypedCont;
    SlotTyped(core.ctrls, 4);
    SlotTyped(core.ctrls, 5);
  }

  /**
   * A commit at any point of any run from a setup records the data cell of c4 and the actions cell
   * of c5 at that point: the branch that falls back to an empty state is never taken.
   */
  lemma CommitNeverFallsBack(isa: Isa, code: Slice, stack: seq<StackItem>, context: seq<StackItem>, ctrls: SaveList,
      n: nat)
    requires KeepsTypes(isa) && TypedStack(stack) && TypedStack(context) && TypedRegisters(ctrls)
    ensures
      var core := Run(isa, Setup(code, stack, context, ctrls), n).core;
      RecordsCells(core.ctrls, Recorded(core.ctrls))
  {
    hide KeepsTypes, Sound, Run, Setup;
    SetupSound(code, stack, context, ctrls);
    RunTyped(isa, Setup(code, stack, context, ctrls), n);
    SoundRecords(Run(isa, Setup(code, stack, context, ctrls), n).core);
  }

  // ----- commits over a run -----

  /** The next instruction is COMMIT. */
  predicate AtCommit(isa: Isa, core: Core) {
    !OutOfBits(core.cc.code) && isa.fetch(core.cc.code).Fetched? && isa.fetch(core.cc.code).instr.Commit?
  }

  /** The committed state after the attempt of a step. */
  function NowCommitted(isa: Isa, core: Core, c: Committed): Committed {
    if AtCommit(isa, core) then Recorded(core.ctrls) else c
  }

  /** The committed state after the first n steps of a run, or all of them; the end records nothing here. */
  function CommitsIn(isa: Isa, core: Core, n: nat, c: Committed): Committed
    decreases n
  {
    if n == 0 then c
    else if Step(isa, core).Next? then CommitsIn(isa, Step(isa, core).core, n - 1, NowCommitted(isa, core, c))
    else NowCommitted(isa, core, c)
  }

  lemma {:induction false} OneCommitMore(isa: Isa, core: Core, n: nat, c: Committed)
    requires Run(isa, core, n).Next?
    ensures CommitsIn(isa, core, n + 1, c) == NowCommitted(isa, Run(isa, core, n).core, CommitsIn(isa, core, n, c))
    decreases n
  {
    hide Step, NowCommitted;
    if n > 0 {
      OneCommitMore(isa, Step(isa, core).core, n - 1, NowCommitted(isa, core, c));
    }
  }

  /**
   * A run keeps the registers of its last COMMIT: if step `last` is a COMMIT and no later step is, the
   * committed data and actions are the cells c4 and c5 held at that step; if there was no COMMIT
   * (`last` is -1) the committed state is the one of the start.
   */
  lemma {:induction false} LastCommitStays(isa: Isa, core: Core, n: nat, c: Committed) returns (last: int)
    requires Sound(core) && KeepsTypes(isa)
    ensures -1 <= last < n
    ensures last == -1 ==> CommitsIn(isa, core, n, c) == c
    ensures last >= 0 ==>
      var r := Run(isa, core, last);
      r.Next? && AtCommit(isa, r.core) && RecordsCells(r.core.ctrls, CommitsIn(isa, core, n, c))
    ensures forall j: nat :: last < j < n && Run(isa, core, j).Next? ==> !AtCommit(isa, Run(isa, core, j).core)
    decreases n
  {
    hide Step, AtCommit, Sound, KeepsTypes, RecordsCells, Recorded;
    last := -1;
    if n > 0 {
      SoundRecords(core);
      if AtCommit(isa, core) {
        last := 0;
      }
      if Step(isa, core).Next? {
        StepTyped(isa, core);
        var later := LastCommitStays(isa, Step(isa, core).core, n - 1, NowCommitted(isa, core, c));
        if later >= 0 {
          last := later + 1;
        }
        forall j: nat | last < j < n && Run(isa, core, j).Next? ensures !AtCommit(isa, Run(isa, core, j).core) {
          assert j > 0 ==> Run(isa, core, j) == Run(isa, Step(isa, core).core, j - 1);
        }
      }
    }
  }
}
