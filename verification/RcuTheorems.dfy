/** What the RCU runtime guarantees over whole runs of any number of threads. */
module RcuTheorems {
  import opened Common
  import opened ReaderRings
  import opened ReaderWord
  import opened Rcu
  import opened RcuInvariant

  /** A run from the initial state; `states[k + 1]` is the state after `acts[k]`. */
  ghost predicate IsRun(states: seq<State>, acts: seq<Action>) {
    && |states| == |acts| + 1
    && states[0] == INIT
    && forall k {:trigger acts[k]} :: 0 <= k < |acts| ==>
         Enabled(states[k], acts[k]) && states[k + 1] == Step(states[k], acts[k])
  }

  lemma {:induction false} RunInv(states: seq<State>, acts: seq<Action>, k: nat)
    requires IsRun(states, acts) && k < |states|
    ensures Inv(states[k])
  {
    if k == 0 {
      InitInv();
    } else {
      RunInv(states, acts, k - 1);
      InvStep(states[k - 1], acts[k - 1]);
    }
  }

  predicate InSync(s: State, x: Tid) {
    x in s.threads && s.threads[x].pc.Syncing?
  }

  lemma SnapshotTaken(s: State, a: Action, x: Tid)
    requires WordInv(s) && Enabled(s, a) && !InSync(s, x) && InSync(Step(s, a), x)
    ensures Step(s, a).threads[x].pc.snap == OpenSections(Step(s, a).threads)
  {
    WordStep(s, a);
    SnapOwn(s, a);
    OpenElsewhere(s.threads, x, NextThread(s, a));
  }

  lemma OpenElsewhere(threads: map<Tid, Thread>, t: Tid, th: Thread)
    requires !InCs(th.word)
    ensures OpenSections(threads[t := th]) == OpenSections(threads - {t})
  {
  }

  lemma SnapshotStep(s: State, a: Action, x: Tid)
    requires Enabled(s, a) && InSync(s, x) && InSync(Step(s, a), x)
    ensures Step(s, a).threads[x].pc.snap == s.threads[x].pc.snap
  {
    if a.t == x {
      SnapOwn(s, a);
    }
  }

  lemma SnapshotBegins(states: seq<State>, acts: seq<Action>, x: Tid, i: nat)
    requires IsRun(states, acts) && i < |acts|
    requires !InSync(states[i], x) && InSync(states[i + 1], x)
    ensures states[i + 1].threads[x].pc.snap == OpenSections(states[i + 1].threads)
  {
    RunInv(states, acts, i);
    SnapshotTaken(states[i], acts[i], x);
  }

  lemma SnapshotGoesOn(states: seq<State>, acts: seq<Action>, x: Tid, k: nat)
    requires IsRun(states, acts) && k < |acts|
    requires InSync(states[k], x) && InSync(states[k + 1], x)
    ensures states[k + 1].threads[x].pc.snap == states[k].threads[x].pc.snap
  {
    SnapshotStep(states[k], acts[k], x);
  }

  /** Throughout one call of sync by x the snapshot is the set of sections open at the call. */
  lemma {:induction false} SnapshotKept(states: seq<State>, acts: seq<Action>, x: Tid, i: nat, k: nat)
    requires IsRun(states, acts) && i < k < |states|
    requires !InSync(states[i], x)
    requires forall m :: i < m <= k ==> InSync(states[m], x)
    ensures InSync(states[k], x) && states[k].threads[x].pc.snap == OpenSections(states[i + 1].threads)
  {
    if k == i + 1 {
      SnapshotBegins(states, acts, x, i);
    } else {
      SnapshotKept(states, acts, x, i, k - 1);
      SnapshotGoesOn(states, acts, x, k - 1);
    }
  }

  /** The grace period. Thread x calls sync in step i and returns in step j: every critical
      section of every thread t that was open at the call has ended at the return. */
  lemma GracePeriod(states: seq<State>, acts: seq<Action>, x: Tid, i: nat, j: nat, t: Tid)
    requires IsRun(states, acts) && i < j < |acts|
    requires !InSync(states[i], x) && !InSync(states[j + 1], x)
    requires forall m :: i < m <= j ==> InSync(states[m], x)
    ensures !StillOpen(states[j + 1].threads, OpenSections(states[i + 1].threads), t)
  {
    SnapshotKept(states, acts, x, i, j);
    RunInv(states, acts, j);
    SyncReturns(states[j], acts[j], t);
  }

  lemma {:induction false} GuardsKept(states: seq<State>, acts: seq<Action>, i: nat, k: nat, o: Obj)
    requires IsRun(states, acts) && i < k < |states|
    requires acts[i].Finalize? && acts[i].o == o
    ensures o in states[k].guards && states[k].guards[o] == OpenSections(states[i].threads)
    ensures acts[i].t in states[k].threads && o in states[k].threads[acts[i].t].fin
  {
    if k == i + 1 {
      FinGrows(states[i], acts[i]);
    } else {
      GuardsKept(states, acts, i, k - 1, o);
      if acts[k - 1].t == acts[i].t {
        FinGrows(states[k - 1], acts[k - 1]);
      }
    }
  }

  /** Reclamation safety. An object finalized in step i is destroyed in step j, whatever made its
      thread flush: no critical section open at the finalize is open any more, and the thread
      that destroys the object is the one that finalized it. */
  lemma Reclamation(states: seq<State>, acts: seq<Action>, i: nat, j: nat, o: Obj, t: Tid)
    requires IsRun(states, acts) && i < j < |acts|
    requires acts[i].Finalize? && acts[i].o == o
    requires acts[j].Destroy? && states[j].threads[acts[j].t].pc.rest[0] == o
    ensures !StillOpen(states[j].threads, OpenSections(states[i].threads), t)
    ensures acts[j].t == acts[i].t
  {
    RunInv(states, acts, j);
    GuardsKept(states, acts, i, j, o);
    var s, y := states[j], acts[j].t;
    assert o in Remaining(s.threads[y]);
    assert Guarded(s, s.threads[y], s.guards[o]);
    assert o in s.threads[y].fin;
    assert acts[i].t == y || Disjoint(s.threads[y].fin, s.threads[acts[i].t].fin);
  }

  lemma {:induction false} SectionsGuarded(states: seq<State>, acts: seq<Action>, e: nat, k: nat, x: Tid)
    requires IsRun(states, acts) && e <= k < |states|
    requires x in states[e].threads && InCs(states[e].threads[x].word)
    ensures x in states[k].threads
    ensures PastSections(states[k], OpenSections(states[e].threads))
    ensures Guarded(states[k], states[k].threads[x], OpenSections(states[e].threads))
    decreases k
  {
    if k == e {
      RunInv(states, acts, e);
    } else {
      SectionsGuarded(states, acts, e, k - 1, x);
      RunInv(states, acts, k - 1);
      GuardedStep(states[k - 1], acts[k - 1], x, OpenSections(states[e].threads));
    }
  }

  /** What protects the readers of an object that is finalized while it can still be found, and taken
      out of reach later in the same section of thread x: when x destroys an object in step j,
      no section that was open in any state e in which x was inside a section is open any more. */
  lemma LaterSections(states: seq<State>, acts: seq<Action>, e: nat, j: nat, t: Tid)
    requires IsRun(states, acts) && e < j < |acts| && acts[j].Destroy?
    requires acts[j].t in states[e].threads && InCs(states[e].threads[acts[j].t].word)
    ensures !StillOpen(states[j].threads, OpenSections(states[e].threads), t)
  {
    SectionsGuarded(states, acts, e, j, acts[j].t);
  }

  /** Deferred destruction accounting for any thread in any reachable state: objects are
      destroyed at most once and in the order of their finalize, the rest is pending, the counter
      is the length of the pending list as a 32-bit number, and the list itself reaches the limit
      only inside a critical section whose end will flush, or while flushing or exiting. */
  lemma Accounting(states: seq<State>, acts: seq<Action>, k: nat, t: Tid)
    requires IsRun(states, acts) && k < |states| && t in states[k].threads
    ensures
      var th := states[k].threads[t];
      && Distinct(th.fin)
      && th.fin == th.des + Remaining(th)
      && th.nFins == |th.fins| % UINT_RANGE
      && (|th.fins| >= MAX_FINS ==>
            (InCs(th.word) && th.mustFlush) || Flushing(th) || th.pc.Deleting? || th.pc.Dead?)
  {
    RunInv(states, acts, k);
  }

  // ----- What an exiting thread leaves behind -----

  /** The exit of a thread whose list is `before`, on the way or done: the list is flushed unless the
      counter had wrapped to zero over it. */
  predicate Exiting(th: Thread, before: seq<Obj>) {
    if |before| % UINT_RANGE == 0 then (th.pc.Deleting? || th.pc.Dead?) && th.fins == before
    else
      || (th.pc.Syncing? && th.pc.why == ForExit)
      || (th.pc.Destroying? && th.pc.final)
      || ((th.pc.Deleting? || th.pc.Dead?) && th.fins == [])
  }

  lemma ExitBegins(s: State, a: Action)
    requires Inv(s) && Enabled(s, a) && a.ThreadExit?
    ensures Exiting(NextThread(s, a), s.threads[a.t].fins)
  {
    assert FinOk(s.threads[a.t]);
  }

  lemma ExitGoesOn(s: State, a: Action, before: seq<Obj>)
    requires Enabled(s, a) && a.t in s.threads && Exiting(s.threads[a.t], before)
    ensures Exiting(NextThread(s, a), before)
  {
  }

  lemma {:induction false} ExitLasts(states: seq<State>, acts: seq<Action>, i: nat, k: nat, t: Tid)
    requires IsRun(states, acts) && i < k < |states|
    requires acts[i] == ThreadExit(t)
    ensures t in states[i].threads && t in states[k].threads
    ensures Exiting(states[k].threads[t], states[i].threads[t].fins)
  {
    var s, a := states[k - 1], acts[k - 1];
    assert Enabled(s, a) && states[k] == Step(s, a);
    if k == i + 1 {
      RunInv(states, acts, i);
      ExitBegins(s, a);
    } else {
      ExitLasts(states, acts, i, k - 1, t);
      if a.t == t {
        ExitGoesOn(s, a, states[i].threads[t].fins);
      }
    }
  }

  /** A thread that exits with a list of L pending objects has destroyed everything when it is gone
      if and only if L is zero or no multiple of 2^32; otherwise it destroys none of them. Only
      the exit out of an open critical section can find such a list. */
  lemma ExitDestroysAll(states: seq<State>, acts: seq<Action>, i: nat, k: nat, t: Tid)
    requires IsRun(states, acts) && i < k < |states|
    requires acts[i] == ThreadExit(t) && t in states[k].threads && states[k].threads[t].pc.Dead?
    ensures t in states[i].threads
    ensures
      var before, gone := states[i].threads[t], states[k].threads[t];
      var n := |before.fins|;
      && (gone.des == gone.fin <==> n == 0 || n % UINT_RANGE != 0)
      && (gone.des != gone.fin ==> gone.fins == before.fins && InCs(before.word))
  {
    ExitLasts(states, acts, i, k, t);
    RunInv(states, acts, i);
    RunInv(states, acts, k);
    assert FinOk(states[i].threads[t]) && FinOk(states[k].threads[t]);
    assert Enabled(states[i], acts[i]);
  }

  /** Ring conservation: in every reachable state, also between the passes of poll_readers, a
      thread lies in exactly one of the three rings if it is registered and in none otherwise;
      whenever no sync is running they are all in the root ring. */
  lemma RingConservation(states: seq<State>, acts: seq<Action>, k: nat, t: Tid)
    requires IsRun(states, acts) && k < |states|
    ensures
      var s := states[k];
      var places := (if t in s.rings.root then 1 else 0) + (if t in s.rings.out then 1 else 0)
                    + (if t in s.rings.qs then 1 else 0);
      && places == (if t in s.threads && s.threads[t].linked then 1 else 0)
      && (s.gp == None ==> (t in s.rings.root <==> t in s.threads && s.threads[t].linked))
  {
    RunInv(states, acts, k);
    assert t in states[k].rings.Members() <==> t in states[k].threads && states[k].threads[t].linked;
  }

  // ----- Progress of the two waits -----

  function OldWorkOf(th: Thread, ctr: Word): nat {
    (if InCs(th.word) && !SamePhase(th.word, ctr) then 1 else 0)
    + (if th.pc.Entering? && !SamePhase(th.pc.val, ctr) then 1 else 0)
  }

  /** Thread t is in, or is about to enter, a section with the phase that is not current. */
  function OldWork(s: State, t: Tid): nat {
    if t in s.threads then OldWorkOf(s.threads[t], s.ctr) else 0
  }

  /** Step a of state s ends an outermost section of t with the phase that is not current. */
  predicate EndsOldSection(s: State, a: Action, t: Tid)
    requires Enabled(s, a)
  {
    && a.t == t && t in s.threads
    && InCs(s.threads[t].word) && !SamePhase(s.threads[t].word, s.ctr)
    && !InCs(NextThread(s, a).word)
  }

  lemma OldWorkOwn(s: State, a: Action)
    requires WordInv(s) && Enabled(s, a)
    ensures OldWorkOf(NextThread(s, a), s.ctr) + (if EndsOldSection(s, a, a.t) then 1 else 0) <= OldWork(s, a.t)
  {
  }

  lemma OldWorkStep(s: State, a: Action, t: Tid)
    requires WordInv(s) && Enabled(s, a) && !a.Flip?
    ensures OldWork(Step(s, a), t) + (if EndsOldSection(s, a, t) then 1 else 0) <= OldWork(s, t)
  {
    if t == a.t {
      OldWorkOwn(s, a);
    }
  }

  /** How often thread t ends an old section in the steps from i up to k. */
  ghost function OldSectionsEnded(states: seq<State>, acts: seq<Action>, t: Tid, i: nat, k: nat): nat
    requires IsRun(states, acts) && i <= k <= |acts|
    decreases k
  {
    if k == i then 0
    else
      OldSectionsEnded(states, acts, t, i, k - 1)
      + (if EndsOldSection(states[k - 1], acts[k - 1], t) then 1 else 0)
  }

  lemma {:induction false} OldWorkShrinks(states: seq<State>, acts: seq<Action>, t: Tid, i: nat, k: nat)
    requires IsRun(states, acts) && i <= k <= |acts|
    requires forall m :: i <= m < k ==> !acts[m].Flip?
    ensures OldSectionsEnded(states, acts, t, i, k) + OldWork(states[k], t) <= OldWork(states[i], t)
    decreases k
  {
    if k > i {
      OldWorkShrinks(states, acts, t, i, k - 1);
      RunInv(states, acts, k - 1);
      OldWorkStep(states[k - 1], acts[k - 1], t);
    }
  }

  /** Between two flips of the phase a thread ends at most one section with the phase that is not
      current, however long it sat on the counter value it had loaded. */
  lemma AtMostOneOldSection(states: seq<State>, acts: seq<Action>, t: Tid, i: nat, k: nat)
    requires IsRun(states, acts) && i <= k <= |acts|
    requires forall m :: i <= m < k ==> !acts[m].Flip?
    ensures OldSectionsEnded(states, acts, t, i, k) <= 1
  {
    OldWorkShrinks(states, acts, t, i, k);
    RunInv(states, acts, i);
  }

  /** The threads that have old work. */
  function OldThreads(s: State): set<Tid> {
    set t | t in s.threads && OldWork(s, t) > 0
  }

  /** How often any thread ends an old section in the steps from i up to k. */
  ghost function AllOldSectionsEnded(states: seq<State>, acts: seq<Action>, i: nat, k: nat): nat
    requires IsRun(states, acts) && i <= k <= |acts|
    decreases k
  {
    if k == i then 0
    else
      AllOldSectionsEnded(states, acts, i, k - 1)
      + (if EndsOldSection(states[k - 1], acts[k - 1], acts[k - 1].t) then 1 else 0)
  }

  lemma OldThreadsStep(s: State, a: Action)
    requires WordInv(s) && Enabled(s, a) && !a.Flip?
    ensures |OldThreads(Step(s, a))| + (if EndsOldSection(s, a, a.t) then 1 else 0) <= |OldThreads(s)|
  {
    var before, after := OldThreads(s), OldThreads(Step(s, a));
    forall t | t in after ensures t in before {
      OldWorkStep(s, a, t);
    }
    OldWorkStep(s, a, a.t);
    if EndsOldSection(s, a, a.t) {
      assert a.t in before && a.t !in after;
      SmallerSet(after, before - {a.t});
    } else {
      SmallerSet(after, before);
    }
  }

  lemma {:induction false} SmallerSet(a: set<Tid>, b: set<Tid>)
    requires a <= b
    ensures |a| <= |b|
  {
    assert b == a + (b - a);
  }

  lemma {:induction false} OldThreadsShrink(states: seq<State>, acts: seq<Action>, i: nat, k: nat)
    requires IsRun(states, acts) && i <= k <= |acts|
    requires forall m :: i <= m < k ==> !acts[m].Flip?
    ensures AllOldSectionsEnded(states, acts, i, k) + |OldThreads(states[k])| <= |OldThreads(states[i])|
    decreases k
  {
    if k > i {
      OldThreadsShrink(states, acts, i, k - 1);
      RunInv(states, acts, k - 1);
      OldThreadsStep(states[k - 1], acts[k - 1]);
    }
  }

  /** So between two flips all threads together, also those that are started meanwhile, end at most
      as many old sections as there were threads with old work at the first flip: a sync can be made
      to wait for no more than the number of threads. */
  lemma OldSectionsBounded(states: seq<State>, acts: seq<Action>, i: nat, k: nat)
    requires IsRun(states, acts) && i <= k <= |acts|
    requires forall m :: i <= m < k ==> !acts[m].Flip?
    ensures AllOldSectionsEnded(states, acts, i, k) <= |OldThreads(states[i])| <= |states[i].threads|
  {
    OldThreadsShrink(states, acts, i, k);
    SmallerSet(OldThreads(states[i]), states[i].threads.Keys);
  }
}
