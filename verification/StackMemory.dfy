/** The memory of the nodes: what leaves the stacks is retired for destruction, nothing is forgotten,
    and a node's memory is given back by the destruction and not before. */
module StackMemory {
  import opened Common
  import opened Stack
  import opened StackInvariant
  import opened StackTheorems

  /** Node n is in the i-th retired chain. */
  predicate RetiredIn(s: State, n: Node, i: nat) {
    i < |s.fin| && n in s.fin[i].nodes
  }

  ghost predicate MemInv(s: State) {
    && (forall n :: n in s.loc && s.loc[n] == Retired ==> exists i: nat :: RetiredIn(s, n, i))
    && (forall i: nat, n :: RetiredIn(s, n, i) && s.fin[i].destroyed ==> n !in s.next)
  }

  /** A node that a step retires is in the chain that the step finalizes. */
  lemma RetiredNow(s: State, a: Action, n: Node)
    requires Inv(s) && Enabled(s, a) && n in NextLoc(s, a) && NextLoc(s, a)[n] == Retired
    requires !(n in s.loc && s.loc[n] == Retired)
    ensures |NextFin(s, a)| == |s.fin| + 1 && n in NextFin(s, a)[|s.fin|].nodes
  {
    if a.t in s.threads {
      assert PcOk(s, a.t, s.threads[a.t].pc);
      if s.threads[a.t].pc.ClearStore? {
        assert HeadOk(s, s.heads[s.threads[a.t].pc.h]);
      }
    }
  }

  lemma StaysRetired(s: State, a: Action, n: Node, i: nat)
    requires Enabled(s, a) && RetiredIn(s, n, i)
    ensures RetiredIn(Step(s, a), n, i)
  {
  }

  /** No step brings back memory that has been given back. */
  lemma StaysFreed(s: State, a: Action, n: Node)
    requires Inv(s) && Enabled(s, a) && n in s.loc && n !in s.next
    ensures n !in NextNext(s, a)
  {
    if a.t in s.threads {
      assert PcOk(s, a.t, s.threads[a.t].pc);
    }
    if a.CallBatch? {
      BuildChainLinks(a.ns, 0);
    }
  }

  /** Chain i is destroyed after the step: its nodes have been or are now given back. */
  lemma DestroyedFreed(s: State, a: Action, n: Node, i: nat)
    requires Inv(s) && MemInv(s) && Enabled(s, a)
    requires RetiredIn(Step(s, a), n, i) && NextFin(s, a)[i].destroyed
    ensures n !in NextNext(s, a)
  {
    FinChange(s, a);
    if i < |s.fin| && s.fin[i].destroyed {
      assert RetiredIn(s, n, i);
      assert GarbageOk(s, s.fin[i]);
      StaysFreed(s, a, n);
    } else {
      DestroyFrees(s, a, n, i);
    }
  }

  lemma DestroyFrees(s: State, a: Action, n: Node, i: nat)
    requires Inv(s) && Enabled(s, a) && RetiredIn(Step(s, a), n, i) && NextFin(s, a)[i].destroyed
    requires !(i < |s.fin| && s.fin[i].destroyed)
    ensures a.Destroy? && a.i == i && n !in NextNext(s, a)
  {
    if a.Destroy? && a.i == i {
      DestroyExact(s, a);
    }
  }

  lemma MemStep(s: State, a: Action)
    requires Inv(s) && MemInv(s) && Enabled(s, a)
    ensures MemInv(Step(s, a))
  {
    var s' := Step(s, a);
    forall n | n in s'.loc && s'.loc[n] == Retired ensures exists i: nat :: RetiredIn(s', n, i) {
      if n in s.loc && s.loc[n] == Retired {
        var i: nat :| RetiredIn(s, n, i);
        StaysRetired(s, a, n, i);
      } else {
        RetiredNow(s, a, n);
        assert RetiredIn(s', n, |s.fin|);
      }
    }
    forall i: nat, n | RetiredIn(s', n, i) && s'.fin[i].destroyed ensures n !in s'.next {
      DestroyedFreed(s, a, n, i);
    }
  }

  lemma {:induction false} RunMem(states: seq<State>, acts: seq<Action>, k: nat)
    requires IsRun(states, acts) && k < |states|
    ensures MemInv(states[k])
  {
    if k > 0 {
      RunMem(states, acts, k - 1);
      RunInv(states, acts, k - 1);
      MemStep(states[k - 1], acts[k - 1]);
    }
  }

  /** In every run, a retired node is in a chain that has been finalized, and its memory is given back
      exactly when that chain is destroyed. */
  lemma NothingForgotten(states: seq<State>, acts: seq<Action>, k: nat, n: Node) returns (i: nat)
    requires IsRun(states, acts) && k < |states| && n in states[k].loc && states[k].loc[n] == Retired
    ensures RetiredIn(states[k], n, i)
    ensures n in states[k].next <==> !states[k].fin[i].destroyed
  {
    RunMem(states, acts, k);
    RunInv(states, acts, k);
    i :| RetiredIn(states[k], n, i);
    assert GarbageOk(states[k], states[k].fin[i]);
  }

  /** A node that a pop has taken and not retired yet is the one that its thread is about to unlink. */
  ghost predicate UnlinkInv(s: State) {
    forall n :: n in s.loc && s.loc[n].Unlinking? ==>
      s.loc[n].t in s.threads && s.threads[s.loc[n].t].pc == PopUnlink(n)
  }

  lemma UnlinkOne(s: State, a: Action, n: Node)
    requires UnlinkInv(s) && Enabled(s, a) && n in NextLoc(s, a) && NextLoc(s, a)[n].Unlinking?
    ensures
      var t := NextLoc(s, a)[n].t;
      t in Step(s, a).threads && Step(s, a).threads[t].pc == PopUnlink(n)
  {
  }

  lemma {:induction false} RunUnlink(states: seq<State>, acts: seq<Action>, k: nat)
    requires IsRun(states, acts) && k < |states|
    ensures UnlinkInv(states[k])
  {
    if k > 0 {
      RunUnlink(states, acts, k - 1);
      RunInv(states, acts, k - 1);
      var s, a := states[k - 1], acts[k - 1];
      forall n | n in NextLoc(s, a) && NextLoc(s, a)[n].Unlinking?
        ensures NextLoc(s, a)[n].t in Step(s, a).threads
        ensures Step(s, a).threads[NextLoc(s, a)[n].t].pc == PopUnlink(n)
      {
        UnlinkOne(s, a, n);
      }
    }
  }

  /** Every node that a pop or a clear has taken is retired as soon as no thread is about to unlink it. */
  lemma TakenIsRetired(states: seq<State>, acts: seq<Action>, i: nat, k: nat, n: Node)
    requires IsRun(states, acts) && i < k < |states| && TakesNode(states[i], acts[i], n)
    requires forall t :: t in states[k].threads ==> states[k].threads[t].pc != PopUnlink(n)
    ensures n in states[k].loc && states[k].loc[n] == Retired
  {
    TakenIsGone(states, acts, i, n);
    GoneStays(states, acts, i + 1, k, n);
    RunUnlink(states, acts, k);
  }
}
