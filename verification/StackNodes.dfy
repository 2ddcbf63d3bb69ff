/** The nodes of a stack as objects: the operations of src/stack.cpp as they run when no other
    thread interferes, and who destroys which node in xrcu/stack.hpp. */
module StackNodes {
  import opened Common

  class StkNode {
    var next: StkNode?
    var alive: bool

    constructor (next: StkNode?)
      ensures this.next == next && alive
    {
      this.next, alive := next, true;
    }

    /** safe_destroy */
    method SafeDestroy(ghost chain: seq<StkNode>) returns (ghost gone: seq<StkNode>)
      requires Chain(this, chain)
      modifies chain
      ensures gone == chain && forall i :: 0 <= i < |chain| ==> !chain[i].alive
    {
      gone := CleanNodes(this, chain);
    }
  }

  /** The nodes that hang on `first`, all alive, with the last one pointing to `end`. */
  ghost predicate Segment(first: StkNode?, s: seq<StkNode>, end: StkNode?)
    reads s
  {
    && Distinct(s)
    && first == (if s == [] then end else s[0])
    && (forall i :: 0 <= i < |s| ==> s[i].alive)
    && (forall i, j :: 0 <= i < |s| - 1 && j == i + 1 ==> s[i].next == s[j])
    && (s != [] ==> s[|s| - 1].next == end)
  }

  ghost predicate Chain(first: StkNode?, s: seq<StkNode>)
    reads s
  {
    Segment(first, s, null)
  }

  /** _Destroy. Nothing may be destroyed twice. */
  method Destroy(node: StkNode)
    requires node.alive
    modifies node
    ensures !node.alive
  {
    node.alive := false;
  }

  /** _Clean_nodes: each node of the chain is destroyed, once and in order, and its link is read
      before that. */
  method CleanNodes(first: StkNode?, ghost chain: seq<StkNode>) returns (ghost gone: seq<StkNode>)
    requires Chain(first, chain)
    modifies chain
    ensures gone == chain && forall i :: 0 <= i < |chain| ==> !chain[i].alive
  {
    gone := [];
    var runp := first;
    while runp != null
      invariant |gone| <= |chain| && gone == chain[..|gone|]
      invariant runp == if |gone| < |chain| then chain[|gone|] else null
      invariant forall i :: 0 <= i < |gone| ==> !chain[i].alive
      invariant forall i :: |gone| <= i < |chain| ==> chain[i].alive && chain[i].next == old(chain[i].next)
      decreases |chain| - |gone|
    {
      var tmp := runp.next;
      assert |gone| + 1 < |chain| ==> tmp == chain[|gone| + 1];
      Destroy(runp);
      gone := gone + [runp];
      runp := tmp;
    }
  }

  /** A node is destroyed alone if and only if its link is null, and a pop cuts that link before the
      node is finalized. */
  lemma PoppedAlone(node: StkNode, s: seq<StkNode>)
    requires Chain(node, s)
    ensures node.next == null <==> s == [node]
  {
    assert |s| > 1 ==> s[0].next == s[1];
  }

  /** A head word: the pointer and the spin bit. */
  class StackHead {
    var node: StkNode?
    var spin: bool

    /** The stack that hangs off this head. */
    ghost predicate Holds(s: seq<StkNode>)
      reads this, s
    {
      !spin && Chain(node, s)
    }

    constructor ()
      ensures Holds([])
    {
      node, spin := null, false;
    }

    /** push of one node */
    method Push(nodep: StkNode, ghost s: seq<StkNode>)
      requires Holds(s) && nodep !in s && nodep.alive
      modifies this`node, nodep`next
      ensures Holds([nodep] + s)
    {
      nodep.next := node;
      node := nodep;
    }

    /** push of a chain: its last link, which the caller hands over, is made to point to the stack. */
    method PushChain(nodep: StkNode, last: StkNode, ghost batch: seq<StkNode>, ghost s: seq<StkNode>)
      requires Holds(s) && Chain(nodep, batch) && batch != [] && last == batch[|batch| - 1]
      requires Distinct(batch + s)
      modifies this`node, last`next
      ensures Holds(batch + s)
    {
      ghost var all, n := batch + s, |batch|;
      assert forall i :: n <= i < |all| ==> all[n - 1] != all[i] && all[i] == s[i - n];
      assert forall i :: 0 <= i < n - 1 ==> all[i] != all[n - 1] && all[i] == batch[i];
      last.next := node;
      node := nodep;
      forall i, j | 0 <= i < |all| - 1 && j == i + 1 ensures all[i].next == all[j] {
        assert i >= n ==> s[i - n].next == s[j - n];
      }
    }

    /** pop */
    method Pop(ghost s: seq<StkNode>) returns (nodep: StkNode?)
      requires Holds(s)
      modifies this`node, if node == null then {} else {node}
      ensures s == [] ==> nodep == null && Holds(s)
      ensures s != [] ==> nodep == s[0] && Holds(s[1..]) && Chain(nodep, [s[0]])
    {
      nodep := node;
      if nodep == null {
        return;
      }
      assert |s| > 1 ==> s[0].next == s[1];
      node := nodep.next;
      nodep.next := null;
    }

    /** set_spin */
    method SetSpin() returns (tmp: StkNode?)
      requires !spin
      modifies this`spin
      ensures spin && tmp == node
    {
      tmp := node;
      spin := true;
    }

    /** clear */
    method Clear(ghost s: seq<StkNode>) returns (ret: StkNode?)
      requires Holds(s)
      modifies this
      ensures Holds([]) && Chain(ret, s)
    {
      ret := SetSpin();
      node, spin := null, false;
    }
  }

  /** swap */
  method Swap(h1: StackHead, h2: StackHead, ghost s: seq<StkNode>, ghost t: seq<StkNode>)
    requires h1 != h2 && h1.Holds(s) && h2.Holds(t)
    modifies h1, h2
    ensures h1.Holds(t) && h2.Holds(s)
  {
    var ln := h1.SetSpin();
    var rn := h2.SetSpin();
    h1.node, h1.spin := rn, false;
    h2.node, h2.spin := ln, false;
  }
}
