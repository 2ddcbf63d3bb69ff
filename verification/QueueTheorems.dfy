/** The growable queue is one FIFO queue, for any number of threads and any interleaving. */
module QueueTheorems {
  import opened Common
  import opened Queue
  import opened QueueInvariant

  // ----- One step -----

  lemma SameContents(arr: Arr, arr': Arr)
    requires arr'.dels == arr.dels <= arr.wr == arr'.wr <= |arr.slots| == |arr'.slots|
    requires forall i :: arr.dels <= i < arr.wr ==> arr'.slots[i].e == arr.slots[i].e
    ensures Contents(arr') == Contents(arr)
  {
  }

  predicate CasSucceeds(arr: Arr, pc: Pc) {
    pc.PopCas? && pc.curr < |arr.slots| && arr.slots[pc.curr] == pc.rv
  }

  lemma BumpAppends(arr: Arr, current: bool, q: nat, t: Tid, pc: Pc)
    requires WorksOn(arr, current, q, t, pc) && pc.PushBump? && arr.slots[arr.wr].e == Val(pc.v)
    ensures Contents(NextArr(arr, t, pc)) == Contents(arr) + [Val(pc.v)]
  {
  }

  lemma HeadRemoved(arr: Arr, arr': Arr)
    requires arr.dels < arr.wr == arr'.wr <= |arr.slots| == |arr'.slots| && arr'.dels == arr.dels + 1
    requires forall i :: arr'.dels <= i < arr.wr ==> arr'.slots[i] == arr.slots[i]
    ensures Contents(arr) == [arr.slots[arr.dels].e] + Contents(arr')
  {
    var all := [arr.slots[arr.dels].e] + Contents(arr');
    assert |all| == |Contents(arr)|;
    forall i | 0 <= i < |all| ensures Contents(arr)[i] == all[i] {
      assert i > 0 ==> all[i] == Contents(arr')[i - 1];
    }
  }

  lemma CasRemoves(arr: Arr, current: bool, q: nat, t: Tid, pc: Pc)
    requires WorksOn(arr, current, q, t, pc) && CasSucceeds(arr, pc)
    ensures current && pc.rv.e.Val? && Contents(arr) == [pc.rv.e] + Contents(NextArr(arr, t, pc))
  {
    PopCasHits(arr, current, pc.curr);
    HeadRemoved(arr, NextArr(arr, t, pc));
  }

  lemma OthersKeep(arr: Arr, current: bool, q: nat, t: Tid, pc: Pc)
    requires WorksOn(arr, current, q, t, pc) && !AtInstall(arr, pc)
    requires !pc.PushBump? && !CasSucceeds(arr, pc)
    ensures Contents(NextArr(arr, t, pc)) == Contents(arr)
  {
    Hits(arr, current, pc);
    SameContents(arr, NextArr(arr, t, pc));
  }

  /** An array on which a pop finds nothing is the installed one, and it is empty. */
  lemma EmptyIsCurrent(arr: Arr, current: bool, q: nat, t: Tid, pc: Pc)
    requires WorksOn(arr, current, q, t, pc) && pc.PopWr? && pc.curr >= arr.wr
    ensures current && Contents(arr) == []
  {
  }

  /** The push step of an array that is not installed cannot happen: such an array is full. */
  lemma BumpIsCurrent(arr: Arr, current: bool, q: nat, t: Tid, pc: Pc)
    requires WorksOn(arr, current, q, t, pc) && (pc.PushBump? || Growing(pc))
    ensures current
  {
  }

  /** The array of the moving thread, as a queue. */
  lemma ArrLinearizes(arr: Arr, current: bool, q: nat, t: Tid, pc: Pc)
    requires WorksOn(arr, current, q, t, pc) && !AtInstall(arr, pc)
    ensures pc.PushBump? ==> Contents(NextArr(arr, t, pc)) == Contents(arr) + [Val(pc.v)]
    ensures CasSucceeds(arr, pc) ==>
              current && pc.rv.e.Val? && Contents(arr) == [pc.rv.e] + Contents(NextArr(arr, t, pc))
    ensures !pc.PushBump? && !CasSucceeds(arr, pc) ==> Contents(NextArr(arr, t, pc)) == Contents(arr)
    ensures pc.PopWr? && pc.curr >= arr.wr ==> current && Contents(arr) == []
  {
    if pc.PushBump? {
      BumpAppends(arr, current, q, t, pc);
    } else if CasSucceeds(arr, pc) {
      CasRemoves(arr, current, q, t, pc);
    } else {
      OthersKeep(arr, current, q, t, pc);
      if pc.PopWr? && pc.curr >= arr.wr {
        EmptyIsCurrent(arr, current, q, t, pc);
      }
    }
  }

  /** What an event means for a FIFO queue of values. */
  predicate ActsOn(before: seq<Elem>, event: Event, after: seq<Elem>) {
    match event
    case Pushed(v) => after == before + [Val(v)]
    case Popped(e) => e.Val? && before == [e] + after
    case FoundEmpty => before == [] && after == []
    case Nothing => after == before
  }

  function PushOf(event: Event): seq<Elem> {
    if event.Pushed? then [Val(event.v)] else []
  }

  function PopOf(event: Event): seq<Elem> {
    if event.Popped? then [event.e] else []
  }

  /** The queue when a grown array is installed. */
  lemma InstalledQueue(s: State, a: Action)
    requires Inv(s) && Enabled(s, a) && Installs(s, a)
    ensures
      var pc := s.threads[a.t].pc;
      && QueueOf(Step(s, a)) == (if pc.ix < s.arrs[pc.q].cap then QueueOf(s) else [Free]) + [Val(pc.v)]
      && (pc.ix >= s.arrs[pc.q].cap ==> QueueOf(s) == [])
  {
    Working(s, a.t);
    var pc := s.threads[a.t].pc;
    BumpIsCurrent(s.arrs[pc.q], pc.q == Impl(s), pc.q, a.t, pc);
    InstalledContents(s.arrs[pc.q], pc.q == Impl(s), pc.q, a.t, pc);
  }

  /** Undoing the mark after a failed allocation changes no element. */
  lemma AllocFailQueue(s: State, a: Action)
    requires Inv(s) && Enabled(s, a) && a.AllocFail?
    ensures QueueOf(Step(s, a)) == QueueOf(s)
  {
    Working(s, a.t);
    var pc := s.threads[a.t].pc;
    SameContents(s.arrs[pc.q], Unmarked(s.arrs[pc.q], pc.ix));
  }

  /** A step on the array that a thread works on. */
  lemma WorkLinearizes(s: State, a: Action)
    requires Inv(s) && Enabled(s, a) && a.Go? && !Installs(s, a) && Target(s.threads[a.t].pc).Some?
    ensures ActsOn(QueueOf(s), EventOf(s, a), QueueOf(Step(s, a)))
  {
    Working(s, a.t);
    var pc := s.threads[a.t].pc;
    var arr, current := s.arrs[pc.q], pc.q == Impl(s);
    if pc.PushBump? {
      BumpIsCurrent(arr, current, pc.q, a.t, pc);
    }
    ArrLinearizes(arr, current, pc.q, a.t, pc);
  }

  /** Every step but the installation of an array grown from a drained one acts on the abstract
      queue as its event says. */
  lemma Linearizes(s: State, a: Action)
    requires Inv(s) && Enabled(s, a) && Good(s, a)
    ensures ActsOn(QueueOf(s), EventOf(s, a), QueueOf(Step(s, a)))
  {
    if Installs(s, a) {
      InstalledQueue(s, a);
    } else if a.AllocFail? {
      AllocFailQueue(s, a);
    } else if a.Go? && Target(s.threads[a.t].pc).Some? {
      WorkLinearizes(s, a);
    }
  }

  /** A growth appends the pushed value to the queue if and only if the old array was not drained
      when its slot at the read index was marked. From a drained array it also copies the FREE
      sentinel, as a first element. */
  lemma GrowthIsPushIff(s: State, a: Action)
    requires Inv(s) && Enabled(s, a) && Installs(s, a)
    ensures
      var pc := s.threads[a.t].pc;
      && (QueueOf(Step(s, a)) == QueueOf(s) + [Val(pc.v)] <==> pc.ix < s.arrs[pc.q].cap)
      && (pc.ix >= s.arrs[pc.q].cap ==> QueueOf(s) == [] && QueueOf(Step(s, a)) == [Free, Val(pc.v)])
  {
    InstalledQueue(s, a);
  }

  /** How far a slot has moved. */
  function Rank(e: Elem): nat {
    match e
    case Free => 0
    case Val(_) => 1
    case Delt => 2
  }

  lemma SlotForward(arr: Arr, current: bool, q: nat, t: Tid, pc: Pc, i: nat)
    requires WorksOn(arr, current, q, t, pc) && i < |arr.slots|
    ensures |NextArr(arr, t, pc).slots| == |arr.slots|
    ensures
      var e, e' := arr.slots[i].e, NextArr(arr, t, pc).slots[i].e;
      e' == e || Rank(e) < Rank(e')
  {
    Hits(arr, current, pc);
  }

  /** No slot moves backwards, and a value is never replaced by another one. */
  lemma SlotsMoveForward(s: State, a: Action, q: nat, i: nat)
    requires Inv(s) && Enabled(s, a) && q < |s.arrs| && i < |s.arrs[q].slots|
    ensures |Step(s, a).arrs[q].slots| == |s.arrs[q].slots|
    ensures
      var e, e' := s.arrs[q].slots[i].e, Step(s, a).arrs[q].slots[i].e;
      e' == e || Rank(e) < Rank(e')
  {
    if a.t in s.threads && Target(s.threads[a.t].pc) == Some(q) {
      Working(s, a.t);
      SlotForward(s.arrs[q], q == Impl(s), q, a.t, s.threads[a.t].pc, i);
    }
  }

  /** In any state at most one thread is between the CAS and the bump of a push, at most one
      between those of a pop, and at most one is growing an array. */
  lemma OneOwner(s: State, t: Tid, u: Tid)
    requires Inv(s) && t in s.threads && u in s.threads
    requires Target(s.threads[t].pc).Some? && Target(s.threads[u].pc) == Target(s.threads[t].pc)
    requires
      var p, r := s.threads[t].pc, s.threads[u].pc;
      (p.PushBump? && r.PushBump?) || (p.PopBump? && r.PopBump?) || (Growing(p) && Growing(r))
    ensures t == u
  {
    Working(s, t);
    Working(s, u);
  }

  // ----- Whole runs -----

  ghost predicate IsRun(cap: nat, states: seq<State>, acts: seq<Action>) {
    && |states| == |acts| + 1
    && states[0] == Init(cap)
    && forall k {:trigger acts[k]} :: 0 <= k < |acts| ==>
         Enabled(states[k], acts[k]) && states[k + 1] == Step(states[k], acts[k])
  }

  /** No array is grown from a drained one in the first k steps. */
  ghost predicate GoodUntil(cap: nat, states: seq<State>, acts: seq<Action>, k: nat)
    requires IsRun(cap, states, acts) && k <= |acts|
  {
    forall m :: 0 <= m < k ==> Good(states[m], acts[m])
  }

  lemma {:induction false} RunInv(cap: nat, states: seq<State>, acts: seq<Action>, k: nat)
    requires cap >= 1 && IsRun(cap, states, acts) && k <= |acts| && GoodUntil(cap, states, acts, k)
    ensures Inv(states[k])
  {
    if k == 0 {
      InitInv(cap);
    } else {
      RunInv(cap, states, acts, k - 1);
      assert Good(states[k - 1], acts[k - 1]);
      InvStep(states[k - 1], acts[k - 1]);
    }
  }

  /** The values pushed, and the elements popped, by the first k steps, in order. */
  ghost function PushesUpTo(cap: nat, states: seq<State>, acts: seq<Action>, k: nat): seq<Elem>
    requires IsRun(cap, states, acts) && k <= |acts|
  {
    if k == 0 then []
    else
      PushesUpTo(cap, states, acts, k - 1) + PushOf(EventOf(states[k - 1], acts[k - 1]))
  }

  ghost function PopsUpTo(cap: nat, states: seq<State>, acts: seq<Action>, k: nat): seq<Elem>
    requires IsRun(cap, states, acts) && k <= |acts|
  {
    if k == 0 then []
    else
      PopsUpTo(cap, states, acts, k - 1) + PopOf(EventOf(states[k - 1], acts[k - 1]))
  }

  /** First in, first out: what has been popped is exactly a prefix of what has been pushed, and
      the queue holds the rest. */
  ghost predicate FirstInFirstOut(cap: nat, states: seq<State>, acts: seq<Action>, k: nat)
    requires IsRun(cap, states, acts) && k <= |acts|
  {
    && states[k].arrs != []
    && PushesUpTo(cap, states, acts, k) == PopsUpTo(cap, states, acts, k) + QueueOf(states[k])
  }

  lemma {:induction false} Fifo(cap: nat, states: seq<State>, acts: seq<Action>, k: nat)
    requires cap >= 1 && IsRun(cap, states, acts) && k <= |acts| && GoodUntil(cap, states, acts, k)
    ensures FirstInFirstOut(cap, states, acts, k)
  {
    if k > 0 {
      Fifo(cap, states, acts, k - 1);
      RunInv(cap, states, acts, k - 1);
      var s, a := states[k - 1], acts[k - 1];
      assert Enabled(s, a) && states[k] == Step(s, a) && Good(s, a);
      Linearizes(s, a);
      FifoStep(PopsUpTo(cap, states, acts, k - 1), QueueOf(s), QueueOf(Step(s, a)), EventOf(s, a));
    }
  }

  /** An event that acts on the queue as it says keeps popped elements and queue together the
      pushed elements. */
  lemma FifoStep(popped: seq<Elem>, before: seq<Elem>, after: seq<Elem>, event: Event)
    requires ActsOn(before, event, after)
    ensures (popped + before) + PushOf(event) == (popped + PopOf(event)) + after
  {
  }

  /** The first growth from a drained array puts one element too many into the queue. */
  lemma DrainedBreaks(cap: nat, states: seq<State>, acts: seq<Action>, k: nat)
    requires cap >= 1 && IsRun(cap, states, acts) && k < |acts|
    requires GoodUntil(cap, states, acts, k) && !Good(states[k], acts[k])
    ensures !FirstInFirstOut(cap, states, acts, k + 1)
  {
    RunInv(cap, states, acts, k);
    Fifo(cap, states, acts, k);
    var s, a := states[k], acts[k];
    assert Enabled(s, a) && states[k + 1] == Step(s, a);
    GrowthIsPushIff(s, a);
    assert EventOf(s, a).Pushed?;
    assert |PushesUpTo(cap, states, acts, k + 1)| == |PushesUpTo(cap, states, acts, k)| + 1;
    assert PopsUpTo(cap, states, acts, k + 1) == PopsUpTo(cap, states, acts, k);
  }

  lemma {:induction false} FirstBad(cap: nat, states: seq<State>, acts: seq<Action>, n: nat) returns (k: nat)
    requires IsRun(cap, states, acts) && n <= |acts| && !GoodUntil(cap, states, acts, n)
    ensures k < n && GoodUntil(cap, states, acts, k) && !Good(states[k], acts[k])
  {
    if GoodUntil(cap, states, acts, n - 1) {
      k := n - 1;
    } else {
      k := FirstBad(cap, states, acts, n - 1);
    }
  }

  /** A run is first in, first out at every point if and only if it never grows a drained array. */
  lemma FifoIff(cap: nat, states: seq<State>, acts: seq<Action>)
    requires cap >= 1 && IsRun(cap, states, acts)
    ensures GoodUntil(cap, states, acts, |acts|)
            <==> forall k :: 0 <= k <= |acts| ==> FirstInFirstOut(cap, states, acts, k)
  {
    if GoodUntil(cap, states, acts, |acts|) {
      forall k | 0 <= k <= |acts| ensures FirstInFirstOut(cap, states, acts, k) {
        Fifo(cap, states, acts, k);
      }
    } else {
      var k := FirstBad(cap, states, acts, |acts|);
      DrainedBreaks(cap, states, acts, k);
    }
  }

  /** A pop that answers "empty" in step k does so when everything pushed has been popped. */
  lemma EmptyAnswers(cap: nat, states: seq<State>, acts: seq<Action>, k: nat)
    requires cap >= 1 && IsRun(cap, states, acts) && k < |acts| && GoodUntil(cap, states, acts, k)
    requires EventOf(states[k], acts[k]) == FoundEmpty
    ensures PushesUpTo(cap, states, acts, k) == PopsUpTo(cap, states, acts, k)
  {
    Fifo(cap, states, acts, k);
    RunInv(cap, states, acts, k);
    Linearizes(states[k], acts[k]);
  }

  /** The thread has begun an operation that has not taken effect. */
  predicate Pending(pc: Pc) {
    !pc.Idle? && !pc.PopBump?
  }

  /** Every operation takes effect exactly once, between its call and its return; only a push
      whose allocation failed takes none. */
  lemma {:induction false} TakesEffectOnce(cap: nat, states: seq<State>, acts: seq<Action>, k: nat, t: Tid)
    requires IsRun(cap, states, acts) && k < |states| && t in states[k].threads
    ensures
      var th := states[k].threads[t];
      th.calls == th.events + th.failed + (if Pending(th.pc) then 1 else 0)
  {
    if k > 0 {
      var s, a := states[k - 1], acts[k - 1];
      assert Enabled(s, a) && states[k] == Step(s, a);
      if t in s.threads {
        TakesEffectOnce(cap, states, acts, k - 1, t);
        EffectStep(s, a, t);
      }
    }
  }

  lemma EffectStep(s: State, a: Action, t: Tid)
    requires Enabled(s, a) && t in s.threads
    requires
      var th := s.threads[t];
      th.calls == th.events + th.failed + (if Pending(th.pc) then 1 else 0)
    ensures
      var th := Step(s, a).threads[t];
      th.calls == th.events + th.failed + (if Pending(th.pc) then 1 else 0)
  {
  }
}
