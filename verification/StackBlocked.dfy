/** Swaps that wait for each other. A swap keeps the spin bit of its first head while it waits for
    that of its second one; two swaps of the same heads in opposite order can so block each other,
    and everybody who waits for these heads, for good. */
module StackBlocked {
  import opened Common
  import opened Stack
  import opened StackInvariant
  import opened StackTheorems

  /** The head whose spin bit a thread is waiting for. */
  function WaitsFor(pc: Pc): Option<Hid> {
    match pc
    case SpinLoad(why) => Some(why.h)
    case PopLoad(h) => Some(h)
    case BatchLoad(h, _) => Some(h)
    case _ => None
  }

  /** Thread t waits for a head whose spin bit is held by a thread of ts. */
  predicate HeldUp(s: State, ts: set<Tid>, t: Tid) {
    && t in s.threads
    && var w := WaitsFor(s.threads[t].pc);
       w.Some? && w.value in s.heads && s.heads[w.value].word.spin
       && s.heads[w.value].owner.Some? && s.heads[w.value].owner.value in ts
  }

  /** The threads of ts wait for heads that other threads of ts hold. */
  predicate Deadlocked(s: State, ts: set<Tid>) {
    ts != {} && forall t {:trigger HeldUp(s, ts, t)} :: t in ts ==> HeldUp(s, ts, t)
  }

  /** A compare-and-exchange that succeeds has found the spin bit clear. */
  lemma CasFindsClear(s: State, t: Tid)
    requires PcInv(s) && t in s.threads && AtCas(s.threads[t].pc)
    requires Touchable(s, s.threads[t].pc) && CasHits(s, s.threads[t].pc)
    ensures
      var pc := s.threads[t].pc;
      var h := if pc.SpinCas? then pc.why.h else pc.h;
      h in s.heads && !s.heads[h].word.spin
  {
    assert PcOk(s, t, s.threads[t].pc);
  }

  /** A waiting thread keeps the spin bits that it holds, and nobody else can clear them. */
  lemma HeadStaysHeld(s: State, a: Action, h: Hid)
    requires PcInv(s) && OwnerInv(s) && Enabled(s, a)
    requires h in s.heads && s.heads[h].word.spin && s.heads[h].owner.Some?
    requires s.heads[h].owner == Some(a.t) ==> a.t in s.threads && WaitsFor(s.threads[a.t].pc).Some?
    ensures h in NextHeads(s, a)
    ensures NextHeads(s, a)[h].word.spin && NextHeads(s, a)[h].owner == s.heads[h].owner
  {
    if a.Go? {
      var pc := s.threads[a.t].pc;
      assert s.heads[h].owner == Some(a.t) <==> Holds(pc, h);
      if AtCas(pc) && CasHits(s, pc) {
        CasFindsClear(s, a.t);
      }
    }
  }

  /** A thread that waits for a set spin bit goes on waiting. */
  lemma WaiterStays(s: State, a: Action, t: Tid)
    requires Enabled(s, a) && t in s.threads && WaitsFor(s.threads[t].pc).Some?
    requires WaitsFor(s.threads[t].pc).value in s.heads
    requires s.heads[WaitsFor(s.threads[t].pc).value].word.spin
    ensures Step(s, a).threads[t].pc == s.threads[t].pc
  {
  }

  /** The thread that holds the head is in ts as well, so it waits, too. */
  lemma HolderWaits(s: State, ts: set<Tid>, t: Tid)
    requires Deadlocked(s, ts) && t in ts
    ensures HeldUp(s, ts, t)
    ensures HeldUp(s, ts, s.heads[WaitsFor(s.threads[t].pc).value].owner.value)
  {
    assert HeldUp(s, ts, t);
    assert HeldUp(s, ts, s.heads[WaitsFor(s.threads[t].pc).value].owner.value);
  }

  lemma HeldUpStays(s: State, a: Action, ts: set<Tid>, t: Tid)
    requires Inv(s) && Enabled(s, a)
    requires HeldUp(s, ts, t) && HeldUp(s, ts, s.heads[WaitsFor(s.threads[t].pc).value].owner.value)
    ensures HeldUp(Step(s, a), ts, t)
  {
    HeadStaysHeld(s, a, WaitsFor(s.threads[t].pc).value);
    WaiterStays(s, a, t);
  }

  /** No step of any thread ends a deadlock. */
  lemma DeadlockStays(s: State, a: Action, ts: set<Tid>)
    requires Inv(s) && Enabled(s, a) && Deadlocked(s, ts)
    ensures Deadlocked(Step(s, a), ts)
  {
    forall t | t in ts ensures HeldUp(Step(s, a), ts, t) {
      HolderWaits(s, ts, t);
      HeldUpStays(s, a, ts, t);
    }
  }

  lemma {:induction false} DeadlockedForGood(states: seq<State>, acts: seq<Action>, i: nat, k: nat, ts: set<Tid>)
    requires IsRun(states, acts) && i <= k < |states| && Deadlocked(states[i], ts)
    ensures Deadlocked(states[k], ts)
    decreases k
  {
    if k > i {
      DeadlockedForGood(states, acts, i, k - 1, ts);
      RunInv(states, acts, k - 1);
      DeadlockStays(states[k - 1], acts[k - 1], ts);
    }
  }

  // ----- What rules it out -----

  /** The swap that the thread is in names its heads in ascending order. */
  predicate Ascends(pc: Pc) {
    match pc
    case SpinLoad(why) => WhyAscends(why)
    case SpinCas(why, _) => WhyAscends(why)
    case _ => true
  }

  predicate WhyAscends(why: Why) {
    match why
    case Swap1(h, h2) => h < h2
    case Swap2(h, h1, _) => h1 < h
    case Clear(_) => true
  }

  ghost predicate AllAscend(s: State) {
    forall t :: t in s.threads ==> Ascends(s.threads[t].pc)
  }

  /** A deadlocked thread is held up by one that waits for a higher head. */
  lemma HigherUp(s: State, ts: set<Tid>, t: Tid) returns (u: Tid)
    requires Inv(s) && AllAscend(s) && Deadlocked(s, ts) && t in ts
    ensures u in ts && HeldUp(s, ts, t) && HeldUp(s, ts, u)
    ensures WaitsFor(s.threads[t].pc).value < WaitsFor(s.threads[u].pc).value
  {
    assert HeldUp(s, ts, t);
    var h := WaitsFor(s.threads[t].pc).value;
    u := s.heads[h].owner.value;
    assert HeldUp(s, ts, u);
    assert s.heads[h].owner == Some(u) <==> Holds(s.threads[u].pc, h);
    assert Ascends(s.threads[u].pc);
  }

  /** A thread of ts that waits for a head of at least n, for any n. */
  lemma {:induction false} Climbs(s: State, ts: set<Tid>, n: nat) returns (t: Tid)
    requires Inv(s) && AllAscend(s) && Deadlocked(s, ts)
    ensures t in ts && HeldUp(s, ts, t) && WaitsFor(s.threads[t].pc).value >= n
  {
    if n == 0 {
      t :| t in ts;
      assert HeldUp(s, ts, t);
    } else {
      var v := Climbs(s, ts, n - 1);
      t := HigherUp(s, ts, v);
    }
  }

  lemma {:induction false} AboveAll(hs: set<Hid>) returns (n: nat)
    ensures forall h :: h in hs ==> h < n
  {
    if hs == {} {
      n := 0;
    } else {
      var h :| h in hs;
      var m := AboveAll(hs - {h});
      n := if m <= h then h + 1 else m;
      forall g | g in hs ensures g < n {
        assert g == h || g in hs - {h};
      }
    }
  }

  lemma AscentFrees(s: State, ts: set<Tid>)
    requires Inv(s) && AllAscend(s)
    ensures !Deadlocked(s, ts)
  {
    if Deadlocked(s, ts) {
      var n := AboveAll(s.heads.Keys);
      var t := Climbs(s, ts, n);
    }
  }

  lemma AscentStep(s: State, a: Action)
    requires AllAscend(s) && Enabled(s, a) && (a.CallSwap? ==> a.h1 < a.h2)
    ensures AllAscend(Step(s, a))
  {
    if a.t in s.threads {
      assert Ascends(s.threads[a.t].pc);
    }
  }

  lemma {:induction false} AscentKept(states: seq<State>, acts: seq<Action>, k: nat)
    requires IsRun(states, acts) && k < |states|
    requires forall m :: 0 <= m < k && acts[m].CallSwap? ==> acts[m].h1 < acts[m].h2
    ensures AllAscend(states[k])
  {
    if k > 0 {
      AscentKept(states, acts, k - 1);
      AscentStep(states[k - 1], acts[k - 1]);
    }
  }

  /** If every swap names its heads in ascending order, there is never a deadlock. */
  lemma OrderedSwapsNeverDeadlock(states: seq<State>, acts: seq<Action>, k: nat, ts: set<Tid>)
    requires IsRun(states, acts) && k < |states|
    requires forall m :: 0 <= m < k && acts[m].CallSwap? ==> acts[m].h1 < acts[m].h2
    ensures !Deadlocked(states[k], ts)
  {
    RunInv(states, acts, k);
    AscentKept(states, acts, k);
    AscentFrees(states[k], ts);
  }

  // ----- A run into a deadlock: two swaps of two empty stacks -----

  ghost predicate Reaches(s: State) {
    exists states, acts :: IsRun(states, acts) && states[|acts|] == s
  }

  lemma Extend(s: State, a: Action)
    requires Reaches(s) && Enabled(s, a)
    ensures Reaches(Step(s, a))
  {
    var states, acts :| IsRun(states, acts) && states[|acts|] == s;
    assert IsRun(states + [Step(s, a)], acts + [a]);
  }

  const FREE_HEAD := Head(NULL, None, None, [])

  function Held(t: Tid): Head {
    Head(Word(None, true), Some(t), None, [])
  }

  /** Two stacks and two threads, and no nodes. */
  function Pair(g: Head, h: Head, a: Thread, b: Thread): State {
    State(map[0 := g, 1 := h], map[], map[0 := a, 1 := b], map[], [])
  }

  const IDLE := Thread(Idle, 0, 0)

  lemma Begins()
    ensures Reaches(Pair(FREE_HEAD, FREE_HEAD, IDLE, IDLE))
  {
    assert IsRun([INIT], []);
    Extend(INIT, Spawn(0));
    var s1 := State(map[], map[], map[0 := IDLE], map[], []);
    assert Step(INIT, Spawn(0)) == s1;
    Extend(s1, Spawn(1));
    var s2 := State(map[], map[], map[0 := IDLE, 1 := IDLE], map[], []);
    assert Step(s1, Spawn(1)) == s2;
    Extend(s2, NewStack(0, 0));
    var s3 := s2.(heads := map[0 := FREE_HEAD]);
    assert Step(s2, NewStack(0, 0)) == s3;
    Extend(s3, NewStack(0, 1));
    assert Step(s3, NewStack(0, 1)) == Pair(FREE_HEAD, FREE_HEAD, IDLE, IDLE);
  }

  /** Thread 0 has set the spin bit of head 0. */
  lemma FirstHolds()
    ensures Reaches(Pair(Held(0), FREE_HEAD, Thread(SpinLoad(Swap2(1, 0, None)), 1, 0), IDLE))
  {
    Begins();
    var s := Pair(FREE_HEAD, FREE_HEAD, IDLE, IDLE);
    Extend(s, CallSwap(0, 0, 1));
    var s1 := Pair(FREE_HEAD, FREE_HEAD, Thread(SpinLoad(Swap1(0, 1)), 1, 0), IDLE);
    assert Step(s, CallSwap(0, 0, 1)) == s1;
    Extend(s1, Go(0));
    var s2 := Pair(FREE_HEAD, FREE_HEAD, Thread(SpinCas(Swap1(0, 1), NULL), 1, 0), IDLE);
    assert Step(s1, Go(0)) == s2;
    Extend(s2, Go(0));
    assert Step(s2, Go(0)) == Pair(Held(0), FREE_HEAD, Thread(SpinLoad(Swap2(1, 0, None)), 1, 0), IDLE);
  }

  lemma SecondBegins()
    ensures Reaches(Pair(Held(0), FREE_HEAD, Thread(SpinLoad(Swap2(1, 0, None)), 1, 0),
                         Thread(SpinCas(Swap1(1, 0), NULL), 1, 0)))
  {
    FirstHolds();
    var a := Thread(SpinLoad(Swap2(1, 0, None)), 1, 0);
    var s0 := Pair(Held(0), FREE_HEAD, a, IDLE);
    Extend(s0, CallSwap(1, 1, 0));
    var s1 := Pair(Held(0), FREE_HEAD, a, Thread(SpinLoad(Swap1(1, 0)), 1, 0));
    assert Step(s0, CallSwap(1, 1, 0)) == s1;
    Extend(s1, Go(1));
    assert Step(s1, Go(1)) == Pair(Held(0), FREE_HEAD, a, Thread(SpinCas(Swap1(1, 0), NULL), 1, 0));
  }

  /** Each of the two swaps has one head and waits for the other one. */
  lemma SwapsDeadlock() returns (s: State)
    ensures Reaches(s) && Deadlocked(s, {0, 1}) && s.threads.Keys == {0, 1}
  {
    SecondBegins();
    var a := Thread(SpinLoad(Swap2(1, 0, None)), 1, 0);
    var s0 := Pair(Held(0), FREE_HEAD, a, Thread(SpinCas(Swap1(1, 0), NULL), 1, 0));
    Extend(s0, Go(1));
    s := Pair(Held(0), Held(1), a, Thread(SpinLoad(Swap2(0, 1, None)), 1, 0));
    assert Step(s0, Go(1)) == s;
    assert HeldUp(s, {0, 1}, 0) && HeldUp(s, {0, 1}, 1);
  }
}
