/** CDATASIZE and SDATASIZE: counting the distinct cells below a root with a worklist. */
module DataSize {

  /** A cell as far as its size is concerned; equal cells have equal hashes and the other way round. */
  datatype Node = Node(data: seq<bool>, refs: seq<Node>)

  // ----- what is reachable -----

  /** The cell and everything below it. */
  function Below(c: Node): set<Node>
    decreases c
  {
    {c} + set i, x | 0 <= i < |c.refs| && x in Below(c.refs[i]) :: x
  }

  function Reachable(roots: seq<Node>): set<Node> {
    set i, x | 0 <= i < |roots| && x in Below(roots[i]) :: x
  }

  /** Contains the references of its members. */
  predicate Closed(s: set<Node>) {
    forall c, i :: c in s && 0 <= i < |c.refs| ==> c.refs[i] in s
  }

  lemma {:induction false} BelowClosed(c: Node)
    ensures Closed(Below(c))
    decreases c
  {
    forall x, i | x in Below(c) && 0 <= i < |x.refs|
      ensures x.refs[i] in Below(c)
    {
      if x != c {
        var j :| 0 <= j < |c.refs| && x in Below(c.refs[j]);
        BelowClosed(c.refs[j]);
        assert x.refs[i] in Below(c.refs[j]);
      } else {
        assert c.refs[i] in Below(c.refs[i]);
      }
    }
  }

  lemma ReachableClosed(roots: seq<Node>)
    ensures Closed(Reachable(roots))
    ensures forall i :: 0 <= i < |roots| ==> roots[i] in Reachable(roots)
  {
    forall x, i | x in Reachable(roots) && 0 <= i < |x.refs|
      ensures x.refs[i] in Reachable(roots)
    {
      var j :| 0 <= j < |roots| && x in Below(roots[j]);
      BelowClosed(roots[j]);
    }
    forall i | 0 <= i < |roots|
      ensures roots[i] in Reachable(roots)
    {
      assert roots[i] in Below(roots[i]);
    }
  }

  /** Any closed set that has a cell has everything below it. */
  lemma {:induction false} BelowIsLeast(c: Node, s: set<Node>)
    requires c in s && Closed(s)
    ensures Below(c) <= s
    decreases c
  {
    forall x | x in Below(c)
      ensures x in s
    {
      if x != c {
        var j :| 0 <= j < |c.refs| && x in Below(c.refs[j]);
        BelowIsLeast(c.refs[j], s);
      }
    }
  }

  lemma ReachableIsLeast(roots: seq<Node>, s: set<Node>)
    requires Closed(s) && forall i :: 0 <= i < |roots| ==> roots[i] in s
    ensures Reachable(roots) <= s
  {
    forall x | x in Reachable(roots)
      ensures x in s
    {
      var j :| 0 <= j < |roots| && x in Below(roots[j]);
      BelowIsLeast(roots[j], s);
    }
  }

  // ----- sums over sets -----

  ghost function Bits(s: set<Node>): nat {
    if s == {} then 0 else var c :| c in s; |c.data| + Bits(s - {c})
  }

  ghost function Refs(s: set<Node>): nat {
    if s == {} then 0 else var c :| c in s; |c.refs| + Refs(s - {c})
  }

  /** A sum over a set does not depend on the order of its elements. */
  lemma {:induction false} SumsAdd(s: set<Node>, x: Node)
    requires x !in s
    ensures Bits(s + {x}) == Bits(s) + |x.data| && Refs(s + {x}) == Refs(s) + |x.refs|
  {
    hide Bits, Refs;
    BitsWithout(s + {x}, x);
    RefsWithout(s + {x}, x);
    assert s + {x} - {x} == s;
  }

  lemma {:induction false} BitsWithout(t: set<Node>, x: Node)
    requires x in t
    ensures Bits(t) == |x.data| + Bits(t - {x})
    decreases |t|
  {
    var c :| c in t && Bits(t) == |c.data| + Bits(t - {c});
    if c != x {
      BitsWithout(t - {c}, x);
      BitsWithout(t - {x}, c);
      assert t - {c} - {x} == t - {x} - {c};
    }
  }

  lemma {:induction false} RefsWithout(t: set<Node>, x: Node)
    requires x in t
    ensures Refs(t) == |x.refs| + Refs(t - {x})
    decreases |t|
  {
    var c :| c in t && Refs(t) == |c.refs| + Refs(t - {c});
    if c != x {
      RefsWithout(t - {c}, x);
      RefsWithout(t - {x}, c);
      assert t - {c} - {x} == t - {x} - {c};
    }
  }

  lemma SubsetSize(a: set<Node>, b: set<Node>)
    requires a <= b
    ensures |a| <= |b|
    ensures |a| == |b| ==> a == b
  {
    assert b == a + (b - a);
  }

  // ----- the traversal -----

  /** Everything a visited cell refers to has been visited or is waiting. */
  predicate Covered(visited: set<Node>, waiting: seq<Node>) {
    forall c, i :: c in visited && 0 <= i < |c.refs| ==> c.refs[i] in visited || c.refs[i] in waiting
  }

  /** Taking a visited cell off the worklist leaves everything covered. */
  lemma PopKeepsCover(visited: set<Node>, waiting: seq<Node>, roots: seq<Node>)
    requires waiting != [] && waiting[|waiting| - 1] in visited && Covered(visited, waiting)
    requires forall i :: 0 <= i < |roots| ==> roots[i] in visited || roots[i] in waiting
    ensures Covered(visited, waiting[..|waiting| - 1])
    ensures forall i :: 0 <= i < |roots| ==> roots[i] in visited || roots[i] in waiting[..|waiting| - 1]
  {}

  /** Visiting a new cell and queueing its references leaves everything covered. */
  lemma VisitKeepsCover(visited: set<Node>, waiting: seq<Node>, roots: seq<Node>)
    requires waiting != [] && Covered(visited, waiting)
    requires forall i :: 0 <= i < |roots| ==> roots[i] in visited || roots[i] in waiting
    ensures
      var c := waiting[|waiting| - 1];
      var next := waiting[..|waiting| - 1] + c.refs;
      && Covered(visited + {c}, next)
      && forall i :: 0 <= i < |roots| ==> roots[i] in visited + {c} || roots[i] in next
  {}

  /**
   * `datasize`: succeeds exactly when at most `max` distinct cells are reachable, and then counts
   * them, their bits and their references, on top of those of the root slice.
   */
  method DataSize(roots: seq<Node>, rootBits: nat, rootRefs: nat, max: nat)
    returns (ok: bool, cells: nat, bits: nat, refs: nat)
    ensures ok <==> |Reachable(roots)| <= max
    ensures ok ==> cells == |Reachable(roots)|
    ensures ok ==> bits == rootBits + Bits(Reachable(roots)) && refs == rootRefs + Refs(Reachable(roots))
  {
    hide Reachable, Bits, Refs, Closed;
    ghost var all := Reachable(roots);
    ReachableClosed(roots);
    var visited: set<Node> := {};
    var waiting := roots;
    cells, bits, refs := 0, rootBits, rootRefs;
    NoSums();
    while waiting != []
      invariant visited <= all && forall i :: 0 <= i < |waiting| ==> waiting[i] in all
      invariant Covered(visited, waiting)
      invariant forall i :: 0 <= i < |roots| ==> roots[i] in visited || roots[i] in waiting
      invariant cells == |visited| <= max
      invariant bits == rootBits + Bits(visited) && refs == rootRefs + Refs(visited)
      decreases |all - visited|, |waiting|
    {
      var cell := waiting[|waiting| - 1];
      if cell !in visited {
        SumsAdd(visited, cell);
        VisitKeepsCover(visited, waiting, roots);
        SubsetSize(visited + {cell}, all);
        if max == cells {
          return false, cells, bits, refs;
        }
        ReferencesStay(cell, all);
        SubsetSize(all - (visited + {cell}), all - visited);
        visited := visited + {cell};
        cells := cells + 1;
        refs := refs + |cell.refs|;
        bits := bits + |cell.data|;
        waiting := waiting[..|waiting| - 1] + cell.refs;
      } else {
        PopKeepsCover(visited, waiting, roots);
        waiting := waiting[..|waiting| - 1];
      }
    }
    CoveredIsClosed(visited);
    ReachableIsLeast(roots, visited);
    assert visited == all;
    ok := true;
  }

  lemma NoSums()
    ensures Bits({}) == 0 && Refs({}) == 0
  {}

  lemma ReferencesStay(c: Node, s: set<Node>)
    requires c in s && Closed(s)
    ensures forall i :: 0 <= i < |c.refs| ==> c.refs[i] in s
  {}

  lemma CoveredIsClosed(visited: set<Node>)
    requires Covered(visited, [])
    ensures Closed(visited)
  {}
}
