/** A run in which a thread leaves its objects behind: it enters a section, finalizes 2^32 objects
    there, so that its counter wraps to zero, and exits without leaving the section. */
module RcuLeak {
  import opened Common
  import opened ReaderRings
  import opened ReaderWord
  import opened Rcu
  import opened RcuTheorems

  ghost predicate Reaches(s: State) {
    exists states, acts :: IsRun(states, acts) && states[|acts|] == s
  }

  lemma Extend(s: State, a: Action)
    requires Reaches(s) && Enabled(s, a)
    ensures Reaches(Step(s, a))
  {
    var states, acts :| IsRun(states, acts) && states[|acts|] == s;
    assert IsRun(states + [Step(s, a)], acts + [a]);
  }

  /** The objects 0 to n - 1, in order. */
  function Objects(n: nat): seq<Obj> {
    if n == 0 then [] else Objects(n - 1) + [n - 1]
  }

  lemma {:induction false} ObjectsLength(n: nat)
    ensures |Objects(n)| == n
  {
    if n > 0 {
      ObjectsLength(n - 1);
    }
  }

  function Guards(n: nat): (m: map<Obj, map<Tid, nat>>)
    ensures forall o :: o in m ==> o < n
  {
    if n == 0 then map[] else Guards(n - 1)[n - 1 := map[0 := 1]]
  }

  function Registered(th: Thread, n: nat): State {
    State(ONE, map[0 := th], None, None, Places({0}, {}, {}), Guards(n))
  }

  /** The thread in its section, after n calls of finalize. */
  function Piled(n: nat): Thread {
    Thread(ONE, true, Idle, Objects(n), n % UINT_RANGE, n >= MAX_FINS, 1, Objects(n), [])
  }

  const LINKED := NEW_THREAD.(linked := true)

  lemma Begins()
    ensures Reaches(Registered(LINKED, 0))
  {
    assert IsRun([INIT], []);
    Extend(INIT, Spawn(0));
    var s := State(ONE, map[0 := NEW_THREAD], None, None, Places({}, {}, {}), map[]);
    assert Step(INIT, Spawn(0)) == s;
    Extend(s, Register(0));
    assert Step(s, Register(0)) == Registered(LINKED, 0);
  }

  lemma Enters()
    ensures Reaches(Registered(Piled(0), 0))
  {
    Begins();
    Extend(Registered(LINKED, 0), EnterLoad(0));
    var entering := LINKED.(pc := Entering(ONE));
    assert Step(Registered(LINKED, 0), EnterLoad(0)) == Registered(entering, 0);
    Extend(Registered(entering, 0), EnterStore(0));
    assert Step(Registered(entering, 0), EnterStore(0)) == Registered(Piled(0), 0);
  }

  lemma OneMore(n: nat)
    ensures FinalizeThread(Registered(Piled(n), n), 0, Piled(n), n) == Piled(n + 1)
  {
    WrappedNext(n);
  }

  lemma {:induction false} Piling(n: nat)
    ensures Reaches(Registered(Piled(n), n))
  {
    if n == 0 {
      Enters();
    } else {
      Piling(n - 1);
      var s := Registered(Piled(n - 1), n - 1);
      Extend(s, Finalize(0, n - 1));
      OneMore(n - 1);
      assert OpenSections(s.threads) == map[0 := 1];
      assert Step(s, Finalize(0, n - 1)).guards == Guards(n);
      assert Step(s, Finalize(0, n - 1)) == Registered(Piled(n), n);
    }
  }

  /** The thread is gone, and none of its objects has been destroyed or ever will be. */
  lemma LeftBehind() returns (s: State)
    ensures Reaches(s) && 0 in s.threads
    ensures
      var th := s.threads[0];
      th.pc.Dead? && |th.fin| == |th.fins| == UINT_RANGE && th.des == []
  {
    var n := UINT_RANGE;
    ObjectsLength(n);
    Piling(n);
    var s0 := Registered(Piled(n), n);
    Extend(s0, ThreadExit(0));
    var th1 := Piled(n).(word := ZERO, pc := Deleting);
    assert Step(s0, ThreadExit(0)) == Registered(th1, n);
    Extend(Registered(th1, n), Del(0));
    s := Step(Registered(th1, n), Del(0));
  }
}
