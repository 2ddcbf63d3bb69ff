/** Waits of the growable queue that nobody is left to end. A waiting push or pop is released by
    the installation of a new array and by nothing else, but the thread that would install one
    need not exist. */
module QueueBlocked {
  import opened Common
  import opened Queue
  import opened QueueInvariant
  import opened QueueTheorems
  import opened QueueDrained

  /** The thread is in the waiting loop of _Rearm or of pop, on array q. */
  predicate WaitsOn(pc: Pc, q: nat) {
    (pc.RearmWait? || pc.RearmPeek? || pc.PopWait?) && pc.q == q
  }

  /** Thread t waits on the installed array: a push at a slot that had been deleted when it was
      marked, so that no growth begins there, or any pop. */
  predicate Blocked(s: State, t: Tid) {
    && s.arrs != [] && t in s.threads
    && WaitsOn(s.threads[t].pc, Impl(s))
    && (!s.threads[t].pc.PopWait? ==> DeadMark(s.arrs[Impl(s)], s.threads[t].pc.ix))
  }

  /** The slot is deleted and marked, and both for good. */
  predicate DeadMark(arr: Arr, ix: nat) {
    ix < arr.dels && ix < |arr.slots| && arr.slots[ix].x
  }

  lemma DeadMarkKept(arr: Arr, current: bool, q: nat, t: Tid, pc: Pc, ix: nat)
    requires WorksOn(arr, current, q, t, pc) && DeadMark(arr, ix)
    ensures DeadMark(NextArr(arr, t, pc), ix)
    ensures pc.RearmAlloc? ==> DeadMark(Unmarked(arr, pc.ix), ix)
  {
    Hits(arr, current, pc);
  }

  lemma MarkStays(s: State, a: Action, ix: nat)
    requires Inv(s) && Enabled(s, a) && !Installs(s, a) && DeadMark(s.arrs[Impl(s)], ix)
    ensures |Step(s, a).arrs| == |s.arrs| && DeadMark(Step(s, a).arrs[Impl(s)], ix)
  {
    if a.t in s.threads && Target(s.threads[a.t].pc) == Some(Impl(s)) {
      Working(s, a.t);
      DeadMarkKept(s.arrs[Impl(s)], true, Impl(s), a.t, s.threads[a.t].pc, ix);
    }
  }

  /** No step but an installation ends such a wait, neither of the thread itself nor of another. */
  lemma BlockedStays(s: State, a: Action, t: Tid)
    requires Inv(s) && Enabled(s, a) && !Installs(s, a) && Blocked(s, t)
    ensures Blocked(Step(s, a), t)
  {
    if !s.threads[t].pc.PopWait? {
      MarkStays(s, a, s.threads[t].pc.ix);
    }
  }

  /** The marking step of _Rearm leaves a dead mark exactly if it meets a deleted slot, marked or not. */
  lemma DeadMarkIff(arr: Arr, current: bool, q: nat, t: Tid, pc: Pc)
    requires WorksOn(arr, current, q, t, pc) && pc.RearmMark?
    ensures DeadMark(NextArr(arr, t, pc), pc.ix) <==> arr.slots[pc.ix].e == Delt
  {
    Hits(arr, current, pc);
  }

  /** When nobody is growing the installed array, a waiting push is blocked exactly if the slot at
      which it waits is marked; otherwise its next look at the slot ends the wait. */
  lemma BlockedIff(s: State, t: Tid)
    requires Inv(s) && t in s.threads && (s.threads[t].pc.RearmWait? || s.threads[t].pc.RearmPeek?)
    requires s.threads[t].pc.q == Impl(s) && s.arrs[Impl(s)].grower == None
    ensures
      var ix := s.threads[t].pc.ix;
      ix < |s.arrs[Impl(s)].slots| && (Blocked(s, t) <==> s.arrs[Impl(s)].slots[ix].x)
  {
    Working(s, t);
  }

  // ----- Whole runs -----

  ghost predicate InstallAt(cap: nat, states: seq<State>, acts: seq<Action>, m: nat)
    requires IsRun(cap, states, acts) && m < |acts|
  {
    Installs(states[m], acts[m])
  }

  /** An array is installed in one of the steps from i up to k. */
  ghost predicate InstalledBy(cap: nat, states: seq<State>, acts: seq<Action>, i: nat, k: nat)
    requires IsRun(cap, states, acts) && k <= |acts|
  {
    exists m: nat :: i <= m < k && InstallAt(cap, states, acts, m)
  }

  lemma BlockedNext(cap: nat, states: seq<State>, acts: seq<Action>, k: nat, t: Tid)
    requires cap >= 1 && IsRun(cap, states, acts) && k < |acts|
    requires GoodUntil(cap, states, acts, k) && Blocked(states[k], t) && !InstallAt(cap, states, acts, k)
    ensures GoodUntil(cap, states, acts, k + 1) && Blocked(states[k + 1], t)
    ensures |states[k + 1].arrs| == |states[k].arrs|
  {
    RunInv(cap, states, acts, k);
    BlockedStays(states[k], acts[k], t);
  }

  lemma {:induction false} BlockedUntil(cap: nat, states: seq<State>, acts: seq<Action>, i: nat, k: nat, t: Tid)
    requires cap >= 1 && IsRun(cap, states, acts) && i <= k <= |acts|
    requires GoodUntil(cap, states, acts, i) && Blocked(states[i], t) && !InstalledBy(cap, states, acts, i, k)
    ensures GoodUntil(cap, states, acts, k) && Blocked(states[k], t) && |states[k].arrs| == |states[i].arrs|
    decreases k
  {
    if k > i {
      BlockedUntil(cap, states, acts, i, k - 1, t);
      BlockedNext(cap, states, acts, k - 1, t);
    }
  }

  /** How many steps thread t takes in the steps from i up to k. */
  function OwnSteps(acts: seq<Action>, t: Tid, i: nat, k: nat): nat
    requires i <= k <= |acts|
    decreases k
  {
    if k == i then 0 else OwnSteps(acts, t, i, k - 1) + if acts[k - 1].t == t then 1 else 0
  }

  lemma {:induction false} FewerSteps(acts: seq<Action>, t: Tid, i: nat, j: nat, k: nat)
    requires i <= j <= k <= |acts|
    ensures OwnSteps(acts, t, j, k) <= OwnSteps(acts, t, i, k)
    decreases k
  {
    if k > j {
      FewerSteps(acts, t, i, j, k - 1);
    }
  }

  lemma {:induction false} ArraysStay(cap: nat, states: seq<State>, acts: seq<Action>, i: nat, k: nat)
    requires IsRun(cap, states, acts) && i <= k <= |acts|
    ensures |states[i].arrs| <= |states[k].arrs|
    decreases k
  {
    if k > i {
      ArraysStay(cap, states, acts, i, k - 1);
      assert states[k] == Step(states[k - 1], acts[k - 1]);
    }
  }

  /** How many more steps a thread can take in its loop when its array has been replaced. */
  function LoopSteps(pc: Pc): nat {
    if pc.RearmPeek? then 1 else 0
  }

  lemma WaitsLess(s: State, a: Action, t: Tid, q: nat)
    requires Enabled(s, a) && t in s.threads && WaitsOn(s.threads[t].pc, q) && q + 1 < |s.arrs|
    requires WaitsOn(Step(s, a).threads[t].pc, q)
    ensures LoopSteps(Step(s, a).threads[t].pc) + (if a.t == t then 1 else 0) <= LoopSteps(s.threads[t].pc)
  {
  }

  /** A thread that waits on a replaced array takes at most one more step in its loop. */
  lemma {:induction false} Released(cap: nat, states: seq<State>, acts: seq<Action>, i: nat, k: nat, t: Tid, q: nat)
    requires IsRun(cap, states, acts) && i <= k <= |acts| && q + 1 < |states[i].arrs|
    requires forall l :: i <= l <= k ==> t in states[l].threads && WaitsOn(states[l].threads[t].pc, q)
    ensures OwnSteps(acts, t, i, k) + LoopSteps(states[k].threads[t].pc) <= LoopSteps(states[i].threads[t].pc)
    decreases k
  {
    if k > i {
      Released(cap, states, acts, i, k - 1, t, q);
      ArraysStay(cap, states, acts, i, k - 1);
      assert states[k] == Step(states[k - 1], acts[k - 1]);
      WaitsLess(states[k - 1], acts[k - 1], t, q);
    }
  }

  /** The thread has been seen outside its loop on array q in one of the states from i to k. */
  ghost predicate LeftBy(states: seq<State>, i: nat, k: nat, t: Tid, q: nat)
    requires k < |states|
  {
    exists l :: i <= l <= k && !(t in states[l].threads && WaitsOn(states[l].threads[t].pc, q))
  }

  lemma InstallReleases(cap: nat, states: seq<State>, acts: seq<Action>, i: nat, m: nat, k: nat, t: Tid)
    requires IsRun(cap, states, acts) && i <= m < k <= |acts| && states[i].arrs != []
    requires InstallAt(cap, states, acts, m) && OwnSteps(acts, t, m + 1, k) >= 2
    ensures LeftBy(states, i, k, t, Impl(states[i]))
  {
    ArraysStay(cap, states, acts, i, m);
    assert states[m + 1] == Step(states[m], acts[m]);
    if !LeftBy(states, i, k, t, Impl(states[i])) {
      Released(cap, states, acts, m + 1, k, t, Impl(states[i]));
    }
  }

  /** An installation releases the thread within two of its own steps. */
  lemma OneReleases(cap: nat, states: seq<State>, acts: seq<Action>, i: nat, j: nat, k: nat, t: Tid)
    requires IsRun(cap, states, acts) && i <= j <= k <= |acts| && Blocked(states[i], t)
    requires InstalledBy(cap, states, acts, i, j) && OwnSteps(acts, t, j, k) >= 2
    ensures LeftBy(states, i, k, t, Impl(states[i]))
  {
    var m: nat :| i <= m < j && InstallAt(cap, states, acts, m);
    FewerSteps(acts, t, m + 1, j, k);
    InstallReleases(cap, states, acts, i, m, k, t);
  }

  /** Nothing else does. */
  lemma NoneReleases(cap: nat, states: seq<State>, acts: seq<Action>, i: nat, k: nat, t: Tid)
    requires cap >= 1 && IsRun(cap, states, acts) && i <= k <= |acts|
    requires GoodUntil(cap, states, acts, i) && Blocked(states[i], t) && !InstalledBy(cap, states, acts, i, k)
    ensures !LeftBy(states, i, k, t, Impl(states[i]))
  {
    forall l | i <= l <= k
      ensures t in states[l].threads && WaitsOn(states[l].threads[t].pc, Impl(states[i]))
    {
      BlockedUntil(cap, states, acts, i, l, t);
    }
  }

  /** A blocked thread leaves its loop if and only if an array is installed: when it has taken two
      steps since step j, it has left by then exactly if there was an installation before. */
  lemma LeavesIff(cap: nat, states: seq<State>, acts: seq<Action>, i: nat, j: nat, k: nat, t: Tid)
    requires cap >= 1 && IsRun(cap, states, acts) && i <= j <= k <= |acts|
    requires GoodUntil(cap, states, acts, i) && Blocked(states[i], t)
    requires !InstalledBy(cap, states, acts, j, k) && OwnSteps(acts, t, j, k) >= 2
    ensures LeftBy(states, i, k, t, Impl(states[i])) <==> InstalledBy(cap, states, acts, i, j)
  {
    if InstalledBy(cap, states, acts, i, j) {
      OneReleases(cap, states, acts, i, j, k, t);
    } else {
      NoneReleases(cap, states, acts, i, k, t);
    }
  }

  // ----- A run into such a state: one push and one pop -----

  /** One array of capacity one and two threads. */
  function Pair(arr: Arr, a: Thread, b: Thread): State {
    State([arr], map[0 := a, 1 := b])
  }

  predicate CanGo(arr: Arr, a: Thread, b: Thread, t: Tid) {
    var s := Pair(arr, a, b);
    t < 2 && !s.threads[t].pc.Idle? && InBounds(s, s.threads[t].pc) && !Installs(s, Go(t))
  }

  function NextOne(arr: Arr, t: Tid, pc: Pc): Arr
    requires InBounds(State([arr], map[]), pc)
  {
    if Target(pc).Some? then NextArr(arr, t, pc) else arr
  }

  lemma GoFirst(arr: Arr, a: Thread, b: Thread)
    requires CanGo(arr, a, b, 0) && Reaches(1, Pair(arr, a, b))
    ensures Reaches(1, Pair(NextOne(arr, 0, a.pc), NextThread(Pair(arr, a, b), Go(0)), b))
  {
    Extend(1, Pair(arr, a, b), Go(0));
    assert Step(Pair(arr, a, b), Go(0)) == Pair(NextOne(arr, 0, a.pc), NextThread(Pair(arr, a, b), Go(0)), b);
  }

  lemma GoSecond(arr: Arr, a: Thread, b: Thread)
    requires CanGo(arr, a, b, 1) && Reaches(1, Pair(arr, a, b))
    ensures Reaches(1, Pair(NextOne(arr, 1, b.pc), a, NextThread(Pair(arr, a, b), Go(1))))
  {
    Extend(1, Pair(arr, a, b), Go(1));
    assert Step(Pair(arr, a, b), Go(1)) == Pair(NextOne(arr, 1, b.pc), a, NextThread(Pair(arr, a, b), Go(1)));
  }

  lemma Begun(a: Action, arr: Arr, x: Thread, y: Thread, x': Thread, y': Thread)
    requires Reaches(1, Pair(arr, x, y)) && Enabled(Pair(arr, x, y), a) && (a.CallPush? || a.CallPop?)
    requires if a.t == 0 then x' == NextThread(Pair(arr, x, y), a) && y' == y
             else x' == x && y' == NextThread(Pair(arr, x, y), a)
    ensures Reaches(1, Pair(arr, x', y'))
  {
    Extend(1, Pair(arr, x, y), a);
    assert Step(Pair(arr, x, y), a) == Pair(arr, x', y');
  }

  /** Thread 0 has pushed 7. */
  const FIRST := Thread(Idle, 1, 1, 0)
  const SECOND := Thread(Idle, 0, 0, 0)

  lemma Meet()
    ensures Reaches(1, Pair(FULL_ARR, FIRST, SECOND))
  {
    PushSeven();
    var s := Solo([] + [FULL_ARR], Idle, 1, 1);
    Extend(1, s, Spawn(1));
    assert Step(s, Spawn(1)) == Pair(FULL_ARR, FIRST, SECOND);
  }

  /** The array with the slot of 7 deleted and marked. */
  function Dead(rd: nat, popper: Option<Tid>): Arr {
    Small(Slot(Delt, true), EMPTY, 1, rd, 1, 1).(popper := popper)
  }

  lemma PopBegins()
    ensures Reaches(1, Pair(FULL_ARR, FIRST, Thread(PopWr(0, 0), 1, 0, 0)))
  {
    Meet();
    var b := Thread(PopData, 1, 0, 0);
    Begun(CallPop(1), FULL_ARR, FIRST, SECOND, FIRST, b);
    GoSecond(FULL_ARR, FIRST, b);
    GoSecond(FULL_ARR, FIRST, b.(pc := PopRd(0)));
  }

  /** Thread 1 has exchanged the slot and not yet moved the read index. */
  lemma PopHalfway()
    ensures Reaches(1, Pair(Small(DELETED, EMPTY, 1, 0, 1, 1).(popper := Some(1)), FIRST,
                            Thread(PopBump(0, SEVEN), 1, 1, 0)))
  {
    PopBegins();
    var b := Thread(PopWr(0, 0), 1, 0, 0);
    GoSecond(FULL_ARR, FIRST, b);
    GoSecond(FULL_ARR, FIRST, b.(pc := PopSlot(0, 0)));
    assert FULL_ARR.slots[0 := DELETED] == [DELETED, EMPTY];
    GoSecond(FULL_ARR, FIRST, b.(pc := PopCas(0, 0, SEVEN)));
  }

  /** Thread 0 pushes 8, marks the deleted slot, and meets its own mark. */
  lemma PushMarks()
    ensures Reaches(1, Pair(Dead(0, Some(1)), Thread(RearmMark(8, 0, 0), 2, 1, 0),
                            Thread(PopBump(0, SEVEN), 1, 1, 0)))
  {
    PopHalfway();
    var arr := Small(DELETED, EMPTY, 1, 0, 1, 1).(popper := Some(1));
    var a, b := Thread(PushData(8), 2, 1, 0), Thread(PopBump(0, SEVEN), 1, 1, 0);
    Begun(CallPush(0, 8), arr, FIRST, b, a, b);
    GoFirst(arr, a, b);
    GoFirst(arr, a.(pc := PushIdx(8, 0)), b);
    GoFirst(arr, a.(pc := RearmIdx(8, 0)), b);
    assert arr.slots[0 := Slot(Delt, true)] == [Slot(Delt, true), EMPTY];
    GoFirst(arr, a.(pc := RearmMark(8, 0, 0)), b);
    GoFirst(Dead(0, Some(1)), a.(pc := RearmIdx(8, 0)), b);
  }

  /** The queue is empty, nobody else is doing anything, and the push waits for its own mark. */
  lemma PushBlocked() returns (s: State)
    ensures Reaches(1, s) && s.arrs != [] && QueueOf(s) == [] && s.threads.Keys == {0, 1}
    ensures Blocked(s, 0) && s.threads[0].pc == RearmWait(8, 0, 0) && s.threads[1].pc == Idle
  {
    PushMarks();
    var a, b := Thread(RearmMark(8, 0, 0), 2, 1, 0), Thread(PopBump(0, SEVEN), 1, 1, 0);
    assert [Slot(Delt, true), EMPTY][0 := Slot(Delt, true)] == [Slot(Delt, true), EMPTY];
    GoFirst(Dead(0, Some(1)), a, b);
    GoSecond(Dead(0, Some(1)), a.(pc := RearmWait(8, 0, 0)), b);
    s := Pair(Dead(1, None), a.(pc := RearmWait(8, 0, 0)), b.(pc := Idle));
  }

  // ----- A run into such a state: a pop and a failed allocation -----

  /** The array as thread 1 has marked it to grow it. */
  const GROWING := Small(Slot(Val(7), true), EMPTY, 1, 0, 0, 1).(grower := Some(1))

  lemma PushBegins()
    ensures Reaches(1, Pair(FULL_ARR, FIRST, Thread(RearmIdx(8, 0), 1, 0, 0)))
  {
    Meet();
    var b := Thread(PushData(8), 1, 0, 0);
    Begun(CallPush(1, 8), FULL_ARR, FIRST, SECOND, FIRST, b);
    GoSecond(FULL_ARR, FIRST, b);
    GoSecond(FULL_ARR, FIRST, b.(pc := PushIdx(8, 0)));
  }

  lemma GrowthBegins()
    ensures Reaches(1, Pair(GROWING, FIRST, Thread(RearmAlloc(8, 0, 0, SEVEN), 1, 0, 0)))
  {
    PushBegins();
    var b := Thread(RearmIdx(8, 0), 1, 0, 0);
    GoSecond(FULL_ARR, FIRST, b);
    assert FULL_ARR.slots[0 := Slot(Val(7), true)] == [Slot(Val(7), true), EMPTY];
    GoSecond(FULL_ARR, FIRST, b.(pc := RearmMark(8, 0, 0)));
  }

  lemma PopMeetsGrowth()
    ensures Reaches(1, Pair(GROWING, Thread(PopWr(0, 0), 2, 1, 0), Thread(RearmAlloc(8, 0, 0, SEVEN), 1, 0, 0)))
  {
    GrowthBegins();
    var a, b := Thread(PopData, 2, 1, 0), Thread(RearmAlloc(8, 0, 0, SEVEN), 1, 0, 0);
    Begun(CallPop(0), GROWING, FIRST, b, a, b);
    GoFirst(GROWING, a, b);
    GoFirst(GROWING, a.(pc := PopRd(0)), b);
  }

  lemma PopWaits()
    ensures Reaches(1, Pair(GROWING, Thread(PopWait(0), 2, 1, 0), Thread(RearmAlloc(8, 0, 0, SEVEN), 1, 0, 0)))
  {
    PopMeetsGrowth();
    var a, b := Thread(PopWr(0, 0), 2, 1, 0), Thread(RearmAlloc(8, 0, 0, SEVEN), 1, 0, 0);
    GoFirst(GROWING, a, b);
    GoFirst(GROWING, a.(pc := PopSlot(0, 0)), b);
  }

  /** The growth has been given up and its mark undone, the queue holds 7, nobody else is doing
      anything, and the pop waits for an array that nobody is making. */
  lemma PopBlocked() returns (s: State)
    ensures Reaches(1, s) && s.arrs != [] && QueueOf(s) == [Val(7)] && s.threads.Keys == {0, 1}
    ensures Blocked(s, 0) && s.threads[0].pc == PopWait(0) && s.threads[1].pc == Idle
  {
    PopWaits();
    var a, b := Thread(PopWait(0), 2, 1, 0), Thread(RearmAlloc(8, 0, 0, SEVEN), 1, 0, 0);
    var s0 := Pair(GROWING, a, b);
    Extend(1, s0, AllocFail(1));
    assert GROWING.slots[0 := SEVEN] == [SEVEN, EMPTY];
    s := Pair(FULL_ARR, a, Thread(Idle, 1, 0, 1));
    assert Step(s0, AllocFail(1)) == s;
  }
}
