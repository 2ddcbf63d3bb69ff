/** The memory of replaced arrays. A growth finalizes the old array and then installs the new one,
    inside the critical section of its push. So the old array may be destroyed as soon as none of
    the operations that were running at the installation is running any more; that the runtime
    waits for them is RcuTheorems.LaterSections, for the state before the installation. */
module QueueMemory {
  import opened Common
  import opened Queue
  import opened QueueInvariant
  import opened QueueTheorems
  import opened QueueDrained

  /** A replaced array: the operations that were running when it was replaced. */
  datatype Retired = Retired(guards: map<Tid, nat>, destroyed: bool)

  datatype Memory = Memory(queue: State, retired: map<nat, Retired>)

  datatype MemAction = Run(a: Action) | Destroy(q: nat)

  /** Every operation is one critical section; calls number those of a thread. */
  function OpenCalls(threads: map<Tid, Thread>): map<Tid, nat> {
    map t | t in threads && !threads[t].pc.Idle? :: threads[t].calls
  }

  predicate StillRunning(threads: map<Tid, Thread>, ops: map<Tid, nat>, t: Tid) {
    t in ops && t in threads && !threads[t].pc.Idle? && threads[t].calls == ops[t]
  }

  predicate MemEnabled(m: Memory, a: MemAction) {
    match a
    case Run(b) => Enabled(m.queue, b)
    case Destroy(q) =>
      && q in m.retired && !m.retired[q].destroyed
      && forall t :: t in m.retired[q].guards ==> !StillRunning(m.queue.threads, m.retired[q].guards, t)
  }

  function MemStep(m: Memory, a: MemAction): Memory
    requires MemEnabled(m, a)
  {
    match a
    case Run(b) =>
      var retired :=
        if Installs(m.queue, b)
        then m.retired[m.queue.threads[b.t].pc.q := Retired(OpenCalls(m.queue.threads), false)]
        else m.retired;
      Memory(Step(m.queue, b), retired)
    case Destroy(q) => m.(retired := m.retired[q := m.retired[q].(destroyed := true)])
  }

  /** Only replaced arrays are retired, and whoever works on one was running when it was replaced. */
  ghost predicate MemInv(m: Memory) {
    && m.queue.arrs != []
    && (forall q :: q in m.retired ==> q < Impl(m.queue))
    && (forall t :: t in m.queue.threads ==> HoldsSafe(m, t))
  }

  ghost predicate HoldsSafe(m: Memory, t: Tid)
    requires t in m.queue.threads
  {
    Target(m.queue.threads[t].pc).Some? ==>
      var q := m.queue.threads[t].pc.q;
      q < |m.queue.arrs|
      && (q in m.retired ==>
            !m.retired[q].destroyed && StillRunning(m.queue.threads, m.retired[q].guards, t))
  }

  /** An operation stays on its array, or takes the installed one, or is over. */
  lemma TargetStep(s: State, a: Action)
    requires Enabled(s, a) && Target(NextThread(s, a).pc).Some?
    ensures a.t in s.threads && NextThread(s, a).calls == s.threads[a.t].calls
    ensures NextThread(s, a).pc.q < |s.arrs|
    ensures Target(NextThread(s, a).pc) == Target(s.threads[a.t].pc) || NextThread(s, a).pc.q == Impl(s)
  {
  }

  lemma SafeStep(m: Memory, a: MemAction, t: Tid)
    requires MemInv(m) && MemEnabled(m, a) && t in MemStep(m, a).queue.threads
    ensures HoldsSafe(MemStep(m, a), t)
  {
    if a.Run? {
      if t == a.a.t {
        if Target(NextThread(m.queue, a.a).pc).Some? {
          TargetStep(m.queue, a.a);
        }
      } else {
        assert HoldsSafe(m, t);
      }
    } else {
      assert HoldsSafe(m, t);
    }
  }

  lemma MemInvStep(m: Memory, a: MemAction)
    requires MemInv(m) && MemEnabled(m, a)
    ensures MemInv(MemStep(m, a))
  {
    forall t | t in MemStep(m, a).queue.threads ensures HoldsSafe(MemStep(m, a), t) {
      SafeStep(m, a, t);
    }
  }

  // ----- Whole runs -----

  ghost predicate IsMemRun(cap: nat, states: seq<Memory>, acts: seq<MemAction>) {
    && |states| == |acts| + 1
    && states[0] == Memory(Init(cap), map[])
    && forall k {:trigger acts[k]} :: 0 <= k < |acts| ==>
         MemEnabled(states[k], acts[k]) && states[k + 1] == MemStep(states[k], acts[k])
  }

  lemma {:induction false} MemRunInv(cap: nat, states: seq<Memory>, acts: seq<MemAction>, k: nat)
    requires IsMemRun(cap, states, acts) && k < |states|
    ensures MemInv(states[k])
  {
    if k > 0 {
      MemRunInv(cap, states, acts, k - 1);
      MemInvStep(states[k - 1], acts[k - 1]);
    }
  }

  /** In every run, also after the growth of a drained array, no thread works on a destroyed array, and
      the installed array is never destroyed. */
  lemma NeverTouched(cap: nat, states: seq<Memory>, acts: seq<MemAction>, k: nat, t: Tid)
    requires IsMemRun(cap, states, acts) && k < |states|
    ensures
      var m := states[k];
      && m.queue.arrs != [] && Impl(m.queue) !in m.retired
      && (t in m.queue.threads && Target(m.queue.threads[t].pc).Some? ==>
            var q := m.queue.threads[t].pc.q;
            q < |m.queue.arrs| && (q in m.retired ==> !m.retired[q].destroyed))
  {
    MemRunInv(cap, states, acts, k);
    if t in states[k].queue.threads {
      assert HoldsSafe(states[k], t);
    }
  }

  lemma DestroyedStays(m: Memory, a: MemAction, q: nat)
    requires MemInv(m) && MemEnabled(m, a) && q in m.retired && m.retired[q].destroyed
    ensures q in MemStep(m, a).retired && MemStep(m, a).retired[q].destroyed
  {
    if a.Run? && Installs(m.queue, a.a) {
      assert HoldsSafe(m, a.a.t);
    }
  }

  lemma {:induction false} StaysDestroyed(cap: nat, states: seq<Memory>, acts: seq<MemAction>, i: nat, k: nat, q: nat)
    requires IsMemRun(cap, states, acts) && i < k < |states| && acts[i] == Destroy(q)
    ensures q in states[k].retired && states[k].retired[q].destroyed
  {
    if k > i + 1 {
      StaysDestroyed(cap, states, acts, i, k - 1, q);
      MemRunInv(cap, states, acts, k - 1);
      DestroyedStays(states[k - 1], acts[k - 1], q);
    }
  }

  /** No array is destroyed twice. */
  lemma ArrayDestroyedOnce(cap: nat, states: seq<Memory>, acts: seq<MemAction>, i: nat, j: nat, q: nat)
    requires IsMemRun(cap, states, acts) && i < j < |acts| && acts[i] == Destroy(q)
    ensures acts[j] != Destroy(q)
  {
    StaysDestroyed(cap, states, acts, i, j, q);
  }

  /** Destruction is invisible: the queues of such a run are reached by the step relation without it. */
  lemma {:induction false} SameQueues(cap: nat, states: seq<Memory>, acts: seq<MemAction>, k: nat)
    requires IsMemRun(cap, states, acts) && k < |states|
    ensures Reaches(cap, states[k].queue)
  {
    if k == 0 {
      assert IsRun(cap, [Init(cap)], []);
    } else {
      SameQueues(cap, states, acts, k - 1);
      if acts[k - 1].Run? {
        Extend(cap, states[k - 1].queue, acts[k - 1].a);
      }
    }
  }

  /** No array is grown from a drained one in the first k steps. */
  ghost predicate MemGoodUntil(cap: nat, states: seq<Memory>, acts: seq<MemAction>, k: nat)
    requires IsMemRun(cap, states, acts) && k <= |acts|
  {
    forall i :: 0 <= i < k && acts[i].Run? ==> Good(states[i].queue, acts[i].a)
  }

  ghost predicate RetiredExactly(m: Memory) {
    m.queue.arrs != [] && forall q: nat :: q in m.retired <==> q < Impl(m.queue)
  }

  lemma RetiredStep(m: Memory, a: MemAction)
    requires Inv(m.queue) && RetiredExactly(m) && MemEnabled(m, a)
    ensures RetiredExactly(MemStep(m, a))
  {
    if a.Run? && Installs(m.queue, a.a) {
      Working(m.queue, a.a.t);
      var pc := m.queue.threads[a.a.t].pc;
      BumpIsCurrent(m.queue.arrs[pc.q], pc.q == Impl(m.queue), pc.q, a.a.t, pc);
    }
  }

  /** As long as no drained array is grown, the arrays that can be destroyed are exactly those that
      have been replaced: none is forgotten. */
  lemma {:induction false} AllRetired(cap: nat, states: seq<Memory>, acts: seq<MemAction>, k: nat)
    requires cap >= 1 && IsMemRun(cap, states, acts) && k <= |acts| && MemGoodUntil(cap, states, acts, k)
    ensures Inv(states[k].queue) && RetiredExactly(states[k])
  {
    if k == 0 {
      InitInv(cap);
    } else {
      AllRetired(cap, states, acts, k - 1);
      RetiredStep(states[k - 1], acts[k - 1]);
      if acts[k - 1].Run? {
        assert Good(states[k - 1].queue, acts[k - 1].a);
        InvStep(states[k - 1].queue, acts[k - 1].a);
      }
    }
  }
}
