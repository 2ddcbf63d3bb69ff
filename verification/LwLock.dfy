/** The futex lock of src/lwlock.cpp, for any number of threads.

    A step is one access to the lock word or one futex call. FUTEX_WAIT compares the word with 2
    and sleeps in one step; a sleeper may also wake for no reason. */
module LwLock {
  import opened Common

  type Tid = nat

  /** Spinning is the loop before the swap, Waiting the point between the swap and FUTEX_WAIT,
      Waking the point between the swap of a release and FUTEX_WAKE. */
  datatype Pc = Idle | Spinning | Waiting | Asleep | Holding | Waking

  datatype State = State(word: nat, pcs: map<Tid, Pc>)

  datatype Action =
    | Arrive(t: Tid)
    | TryCas(t: Tid)
    | SwapTwo(t: Tid)
    | FutexWait(t: Tid)
    | Release(t: Tid)
    | Wake(t: Tid, woken: Option<Tid>)
    | Spurious(t: Tid)

  const INIT := State(0, map[])

  predicate At(s: State, t: Tid, pc: Pc) {
    t in s.pcs && s.pcs[t] == pc
  }

  /** FUTEX_WAKE wakes one sleeper when there is one. */
  predicate Enabled(s: State, a: Action) {
    match a
    case Arrive(t) => t !in s.pcs
    case TryCas(t) => At(s, t, Idle)
    case SwapTwo(t) => At(s, t, Spinning)
    case FutexWait(t) => At(s, t, Waiting)
    case Release(t) => At(s, t, Holding)
    case Wake(t, woken) =>
      && At(s, t, Waking)
      && (match woken
          case Some(w) => At(s, w, Asleep)
          case None => forall w :: w in s.pcs ==> s.pcs[w] != Asleep)
    case Spurious(t) => At(s, t, Asleep)
  }

  function Step(s: State, a: Action): State
    requires Enabled(s, a)
  {
    match a
    case Arrive(t) => s.(pcs := s.pcs[t := Idle])
    case TryCas(t) =>
      if s.word == 0 then State(1, s.pcs[t := Holding]) else s.(pcs := s.pcs[t := Spinning])
    case SwapTwo(t) => State(2, s.pcs[t := if s.word == 0 then Holding else Waiting])
    case FutexWait(t) => s.(pcs := s.pcs[t := if s.word == 2 then Asleep else Spinning])
    case Release(t) => State(0, s.pcs[t := if s.word != 1 then Waking else Idle])
    case Wake(t, woken) =>
      var pcs := s.pcs[t := Idle];
      s.(pcs := if woken.Some? then pcs[woken.value := Spinning] else pcs)
    case Spurious(t) => s.(pcs := s.pcs[t := Spinning])
  }

  /** The word is zero exactly when nobody holds the lock, and there is one holder at most. */
  ghost predicate Exclusive(s: State) {
    && s.word <= 2
    && (s.word != 0 <==> exists t :: At(s, t, Holding))
    && (forall t, u :: At(s, t, Holding) && At(s, u, Holding) ==> t == u)
  }

  /** A sleeper is never forgotten: the word tells the holder to wake it, or a releaser still owes
      a wake, or an awake contender is about to swap in 2. */
  ghost predicate SleepersCovered(s: State) {
    (exists t :: At(s, t, Asleep)) ==>
      s.word == 2 || (exists t :: At(s, t, Waking)) || (exists t :: At(s, t, Spinning))
  }

  ghost predicate Inv(s: State) {
    Exclusive(s) && SleepersCovered(s)
  }

  /** A step moves the thread that takes it, and the sleeper that it wakes. */
  lemma Others(s: State, a: Action, u: Tid, pc: Pc)
    requires Enabled(s, a) && u != a.t && !(a.Wake? && a.woken == Some(u))
    ensures At(Step(s, a), u, pc) <==> At(s, u, pc)
  {
  }

  lemma ExclusiveStep(s: State, a: Action)
    requires Exclusive(s) && Enabled(s, a)
    ensures Exclusive(Step(s, a))
  {
    var s' := Step(s, a);
    forall u | u != a.t ensures At(s', u, Holding) <==> At(s, u, Holding) {
      if !(a.Wake? && a.woken == Some(u)) {
        Others(s, a, u, Holding);
      }
    }
    if s.word != 0 {
      var t :| At(s, t, Holding);
      assert a == Release(t) || At(s', t, Holding);
    } else {
      assert !At(s, a.t, Holding);
      assert s'.word != 0 ==> At(s', a.t, Holding);
    }
  }

  /** Somebody other than the sleepers has their wakeup in hand, the word apart. */
  ghost predicate Helper(s: State) {
    (exists t :: At(s, t, Waking)) || (exists t :: At(s, t, Spinning))
  }

  lemma HelperStep(s: State, a: Action)
    requires Helper(s) && Enabled(s, a)
    ensures Helper(Step(s, a)) || Step(s, a).word == 2 || forall z :: !At(Step(s, a), z, Asleep)
  {
    var s' := Step(s, a);
    var t :| At(s, t, Waking) || At(s, t, Spinning);
    assert t != a.t || At(s, a.t, Waking) || At(s, a.t, Spinning);
    match a
    case Wake(_, Some(w)) => assert At(s', w, Spinning);
    case Wake(_, None) =>
      forall z ensures !At(s', z, Asleep) {
        assert z in s.pcs ==> s.pcs[z] != Asleep;
      }
    case _ =>
      if t != a.t {
        Others(s, a, t, Waking);
        Others(s, a, t, Spinning);
        assert At(s', t, Waking) || At(s', t, Spinning);
      }
  }

  lemma CoveredStep(s: State, a: Action)
    requires Inv(s) && Enabled(s, a)
    ensures SleepersCovered(Step(s, a))
  {
    var s' := Step(s, a);
    if z :| At(s', z, Asleep) {
      if At(s, z, Asleep) && s.word != 2 {
        HelperStep(s, a);
      } else if a.Release? {
        assert At(s', a.t, Waking);
      } else {
        assert s.word == 2 || a.FutexWait?;
      }
    }
  }

  ghost predicate IsRun(states: seq<State>, acts: seq<Action>) {
    && |states| == |acts| + 1
    && states[0] == INIT
    && forall k {:trigger acts[k]} :: 0 <= k < |acts| ==>
         Enabled(states[k], acts[k]) && states[k + 1] == Step(states[k], acts[k])
  }

  lemma {:induction false} RunInv(states: seq<State>, acts: seq<Action>, k: nat)
    requires IsRun(states, acts) && k < |states|
    ensures Inv(states[k])
  {
    if k > 0 {
      RunInv(states, acts, k - 1);
      ExclusiveStep(states[k - 1], acts[k - 1]);
      CoveredStep(states[k - 1], acts[k - 1]);
    }
  }

  /** Mutual exclusion in every reachable state. */
  lemma MutualExclusion(states: seq<State>, acts: seq<Action>, k: nat, t: Tid, u: Tid)
    requires IsRun(states, acts) && k < |states|
    requires At(states[k], t, Holding) && At(states[k], u, Holding)
    ensures t == u && states[k].word != 0
  {
    RunInv(states, acts, k);
  }

  /** No lost wakeup: while somebody sleeps, some other thread holds the lock and will see 2 when
      it releases, or is on its way to wake a sleeper, or is spinning and will swap in 2. In
      particular a state in which all other threads have finished has no sleeper. */
  lemma NoLostWakeup(states: seq<State>, acts: seq<Action>, k: nat, z: Tid)
    requires IsRun(states, acts) && k < |states| && At(states[k], z, Asleep)
    ensures exists t :: t != z && t in states[k].pcs && states[k].pcs[t] != Idle && states[k].pcs[t] != Asleep
    ensures
      || (states[k].word == 2 && exists t :: At(states[k], t, Holding))
      || (exists t :: At(states[k], t, Waking))
      || (exists t :: At(states[k], t, Spinning))
  {
    RunInv(states, acts, k);
    var s := states[k];
    assert exists t :: At(s, t, Holding) || At(s, t, Waking) || At(s, t, Spinning);
  }

  // ----- The calls -----

  predicate Acquiring(pc: Pc) {
    pc == Spinning || pc == Waiting || pc == Asleep
  }

  lemma {:induction false} AcquireGoesOn(states: seq<State>, acts: seq<Action>, i: nat, k: nat, t: Tid)
    requires IsRun(states, acts) && i < k < |states| && acts[i] == TryCas(t)
    requires forall m :: i <= m < k ==> acts[m] != Release(t)
    ensures t in states[k].pcs && (Acquiring(states[k].pcs[t]) || states[k].pcs[t] == Holding)
    decreases k
  {
    var s, a := states[k - 1], acts[k - 1];
    assert Enabled(s, a) && states[k] == Step(s, a);
    if k > i + 1 {
      AcquireGoesOn(states, acts, i, k - 1, t);
    }
  }

  /** An acquire returns only as the holder: until its thread releases the lock, the thread is not idle,
      and when it is not in the call any more it holds the lock, alone. */
  lemma AcquireHolds(states: seq<State>, acts: seq<Action>, i: nat, k: nat, t: Tid, u: Tid)
    requires IsRun(states, acts) && i < k < |states| && acts[i] == TryCas(t)
    requires forall m :: i <= m < k ==> acts[m] != Release(t)
    ensures t in states[k].pcs && states[k].pcs[t] != Idle
    ensures !Acquiring(states[k].pcs[t]) ==>
              At(states[k], t, Holding) && (u != t ==> !At(states[k], u, Holding))
  {
    AcquireGoesOn(states, acts, i, k, t);
    if At(states[k], t, Holding) && At(states[k], u, Holding) {
      MutualExclusion(states, acts, k, t, u);
    }
  }

  lemma {:induction false} NotHeldUntil(states: seq<State>, acts: seq<Action>, i: nat, k: nat, t: Tid)
    requires IsRun(states, acts) && i < k < |states| && acts[i] == Release(t)
    requires forall m :: i < m < k ==> acts[m] != TryCas(t)
    ensures t in states[k].pcs && (states[k].pcs[t] == Idle || states[k].pcs[t] == Waking)
    decreases k
  {
    var s, a := states[k - 1], acts[k - 1];
    assert Enabled(s, a) && states[k] == Step(s, a);
    if k > i + 1 {
      NotHeldUntil(states, acts, i, k - 1, t);
    }
  }

  lemma FreedNow(s: State, a: Action, u: Tid)
    requires Exclusive(s) && Enabled(s, a) && a.Release?
    ensures Step(s, a).word == 0 && !At(Step(s, a), u, Holding)
  {
    assert At(s, a.t, Holding);
    if u != a.t {
      Others(s, a, u, Holding);
    }
  }

  /** A release leaves the lock free for everybody, and its thread does not hold it again without
      another acquire. */
  lemma ReleaseFrees(states: seq<State>, acts: seq<Action>, i: nat, k: nat, t: Tid, u: Tid)
    requires IsRun(states, acts) && i < k < |states| && acts[i] == Release(t)
    requires forall m :: i < m < k ==> acts[m] != TryCas(t)
    ensures !At(states[k], t, Holding) && !At(states[i + 1], u, Holding) && states[i + 1].word == 0
  {
    NotHeldUntil(states, acts, i, k, t);
    RunInv(states, acts, i);
    FreedNow(states[i], acts[i], u);
  }

  /** Without contention, an acquire and a release are one exchange each and no futex call, and leave
      everything as it was. */
  lemma Uncontended(s: State, t: Tid)
    requires At(s, t, Idle) && s.word == 0
    ensures
      var s1 := Step(s, TryCas(t));
      At(s1, t, Holding) && Enabled(s1, Release(t)) && Step(s1, Release(t)) == s
  {
    assert s.pcs[t := Holding][t := Idle] == s.pcs;
  }

  /** A contender that finds the lock held, and keeps finding it so, is put to sleep and not left to
      spin, and the release by the holder must then wake somebody before it returns. */
  lemma ContenderSleeps(s: State, t: Tid, h: Tid)
    requires Exclusive(s) && At(s, t, Spinning) && At(s, h, Holding)
    ensures
      var s1 := Step(s, SwapTwo(t));
      && s1.word == 2 && At(s1, h, Holding) && Enabled(s1, FutexWait(t))
      && At(Step(s1, FutexWait(t)), t, Asleep) && At(Step(s1, FutexWait(t)), h, Holding)
      && At(Step(Step(s1, FutexWait(t)), Release(h)), h, Waking)
  {
    assert s.word != 0;
  }

  /** Whoever comes out of FUTEX_WAIT, or does not get into it, tries the swap again, and has the lock
      if it is free by then. */
  lemma TriesAgain(s: State, a: Action)
    requires Enabled(s, a) && s.word == 0 && (a.Spurious? || a.FutexWait?)
    ensures Enabled(Step(s, a), SwapTwo(a.t)) && At(Step(Step(s, a), SwapTwo(a.t)), a.t, Holding)
  {
  }
}
