/** The inductive invariant of the RCU runtime and its preservation by every step. */
module RcuInvariant {
  import opened Common
  import opened ReaderRings
  import opened ReaderWord
  import opened Rcu

  // ----- The invariant -----

  predicate HoldsGp(th: Thread) {
    th.pc.Syncing? && th.pc.stage != WantGp
  }

  predicate HoldsTd(th: Thread) {
    th.pc.Syncing? && (th.pc.stage.Polling? || th.pc.stage.Flipping? || th.pc.stage.Splicing?)
  }

  /** Each mutex is held by exactly the thread whose program counter says so. */
  ghost predicate LockInv(s: State) {
    && (forall t :: t in s.threads ==> (HoldsGp(s.threads[t]) <==> s.gp == Some(t)))
    && (forall t :: t in s.threads ==> (HoldsTd(s.threads[t]) <==> s.td == Some(t)))
    && (s.gp.Some? ==> s.gp.value in s.threads)
    && (s.td.Some? ==> s.td.value in s.threads)
  }

  /** What the stage of the running grace period says about the three rings. */
  ghost predicate StageRings(rings: Places<Tid>, stage: Stage) {
    match stage
    case WantGp => true
    case HaveGp => rings.out == {} && rings.qs == {}
    case Polling(second, todo) => todo <= rings.Readers(second)
    case Dropped(_) => true
    case Flipping => rings.root == {}
    case Splicing => rings.out == {}
    case Spliced => rings.out == {} && rings.qs == {}
  }

  /** Every registered thread lies in exactly one ring, and nothing else lies in any. */
  ghost predicate RingInv(s: State) {
    && s.rings.root !! s.rings.out && s.rings.root !! s.rings.qs && s.rings.out !! s.rings.qs
    && (forall t :: t in s.rings.Members() <==> t in s.threads && s.threads[t].linked)
    && (s.gp == None ==> s.rings.out == {} && s.rings.qs == {})
    && (forall t :: t in s.threads && s.threads[t].pc.Syncing? ==> StageRings(s.rings, s.threads[t].pc.stage))
  }

  ghost predicate WordOk(th: Thread) {
    && (!th.linked ==> !InCs(th.word) && (th.pc.Idle? || th.pc.Dead? || (th.pc.Syncing? && th.pc.why == ForSync)))
    && (th.pc.Entering? ==> th.pc.val.nest == 1)
    && (!th.pc.Idle? ==> !InCs(th.word))
  }

  ghost predicate WordInv(s: State) {
    && s.ctr.nest == 1
    && (forall t :: t in s.threads ==> WordOk(s.threads[t]))
  }

  /** Where a reader may be whose section was open before the sync and still is. */
  ghost predicate Waited(s: State, stage: Stage, t: Tid)
    requires t in s.threads
  {
    match stage
    case WantGp => true
    case HaveGp => true
    case Spliced => false
    case Flipping => t in s.rings.out && SamePhase(s.threads[t].word, s.ctr)
    case Splicing => false
    case Polling(second, _) => InFront(s, second, t)
    case Dropped(second) => InFront(s, second, t)
  }

  ghost predicate InFront(s: State, second: bool, t: Tid)
    requires t in s.threads
  {
    if second then t in s.rings.out && !SamePhase(s.threads[t].word, s.ctr)
    else t in s.rings.root || (t in s.rings.out && SamePhase(s.threads[t].word, s.ctr))
  }

  ghost predicate PastSections(s: State, secs: map<Tid, nat>) {
    forall t :: t in secs ==> t in s.threads && secs[t] <= s.threads[t].cs
  }

  ghost predicate GraceInv(s: State) {
    && (forall x :: x in s.threads && s.threads[x].pc.Syncing? ==> PastSections(s, s.threads[x].pc.snap))
    && (s.gp.Some? && s.gp.value in s.threads && s.threads[s.gp.value].pc.Syncing? ==>
          HolderGrace(s, s.threads[s.gp.value].pc.snap, s.threads[s.gp.value].pc.stage))
  }

  /** Every section of snap that is still open is being waited for. */
  ghost predicate HolderGrace(s: State, snap: map<Tid, nat>, stage: Stage) {
    forall t :: StillOpen(s.threads, snap, t) ==> Waited(s, stage, t)
  }

  /** The objects thread th has finalized and not destroyed yet. */
  function Remaining(th: Thread): seq<Obj> {
    if th.pc.Destroying? then th.pc.rest else th.fins
  }

  /** How a flush protects its objects: their open guards are waited for, then there are none. */
  ghost predicate Guarded(s: State, th: Thread, secs: map<Tid, nat>) {
    && (th.pc.Syncing? ==>
          forall t :: StillOpen(s.threads, secs, t) ==> t in th.pc.snap && th.pc.snap[t] == secs[t])
    && (th.pc.Destroying? ==> forall t :: !StillOpen(s.threads, secs, t))
  }

  ghost predicate GuardInv(s: State) {
    && (forall o :: o in s.guards ==> PastSections(s, s.guards[o]))
    && (forall x, o :: x in s.threads && o in Remaining(s.threads[x]) ==>
          o in s.guards && Guarded(s, s.threads[x], s.guards[o]))
  }

  /** The thread has taken on the flush of its objects. */
  predicate Flushing(th: Thread) {
    th.pc.Destroying? || (th.pc.Syncing? && th.pc.why != ForSync)
  }

  ghost predicate FinOk(th: Thread) {
    && th.fin == th.des + Remaining(th)
    && th.nFins == |th.fins| % UINT_RANGE
    && (|th.fins| >= MAX_FINS ==>
          (th.mustFlush && InCs(th.word)) || Flushing(th) || th.pc.Deleting? || th.pc.Dead?)
    && (th.mustFlush ==> InCs(th.word) || Flushing(th) || th.pc.Deleting? || th.pc.Dead?)
    && (th.pc.Deleting? || th.pc.Dead? ==> th.nFins == 0)
    && (!th.linked && !th.pc.Dead? ==> th.fins == [])
  }

  /** No object is finalized twice, by one thread or by two. */
  ghost predicate DistinctFins(s: State) {
    && (forall x :: x in s.threads ==> Distinct(s.threads[x].fin))
    && (forall x, o :: x in s.threads && o in s.threads[x].fin ==> o in s.guards)
    && (forall x, y :: x in s.threads && y in s.threads && x != y ==> Disjoint(s.threads[x].fin, s.threads[y].fin))
  }

  ghost predicate FinInv(s: State) {
    (forall t :: t in s.threads ==> FinOk(s.threads[t])) && DistinctFins(s)
  }

  ghost predicate Inv(s: State) {
    LockInv(s) && RingInv(s) && WordInv(s) && GraceInv(s) && GuardInv(s) && FinInv(s)
  }

  // ----- Preservation -----

  lemma InitInv()
    ensures Inv(INIT)
  {
  }

  /** Sections that have ended, or that have not begun, are not reopened. */
  ghost predicate Later(ts: map<Tid, Thread>, ts': map<Tid, Thread>) {
    forall t :: t in ts ==>
      && t in ts'
      && ts[t].cs <= ts'[t].cs
      && (InCs(ts'[t].word) && ts'[t].cs == ts[t].cs ==> InCs(ts[t].word))
  }

  lemma LaterOwn(s: State, a: Action)
    requires Enabled(s, a) && a.t in s.threads
    ensures s.threads[a.t].cs <= NextThread(s, a).cs
    ensures InCs(NextThread(s, a).word) && NextThread(s, a).cs == s.threads[a.t].cs ==> InCs(s.threads[a.t].word)
  {
  }

  lemma LaterStep(s: State, a: Action)
    requires Enabled(s, a)
    ensures Later(s.threads, Step(s, a).threads)
  {
    if a.t in s.threads {
      LaterOwn(s, a);
    }
  }

  /** A thread acquires a mutex only when it is free, and lets go only of one it holds. */
  lemma GpOwn(s: State, a: Action)
    requires LockInv(s) && Enabled(s, a)
    ensures HoldsGp(NextThread(s, a)) <==> NextGp(s, a) == Some(a.t)
    ensures NextGp(s, a) == s.gp || (s.gp in {None, Some(a.t)} && NextGp(s, a) in {None, Some(a.t)})
  {
  }

  lemma TdOwn(s: State, a: Action)
    requires LockInv(s) && Enabled(s, a)
    ensures HoldsTd(NextThread(s, a)) <==> NextTd(s, a) == Some(a.t)
    ensures NextTd(s, a) == s.td || (s.td in {None, Some(a.t)} && NextTd(s, a) in {None, Some(a.t)})
  {
  }

  lemma LockStep(s: State, a: Action)
    requires LockInv(s) && Enabled(s, a)
    ensures LockInv(Step(s, a))
  {
    GpOwn(s, a);
    TdOwn(s, a);
    var s' := Step(s, a);
    forall t | t in s'.threads
      ensures HoldsGp(s'.threads[t]) <==> s'.gp == Some(t)
      ensures HoldsTd(s'.threads[t]) <==> s'.td == Some(t)
    {
      if t != a.t {
        assert s'.threads[t] == s.threads[t];
      }
    }
  }

  lemma WordOwn(s: State, a: Action)
    requires s.ctr.nest == 1 && Enabled(s, a)
    requires a.t in s.threads ==> WordOk(s.threads[a.t])
    ensures WordOk(NextThread(s, a))
  {
  }

  lemma WordStep(s: State, a: Action)
    requires WordInv(s) && Enabled(s, a)
    ensures WordInv(Step(s, a))
  {
    WordOwn(s, a);
  }

  /** Who is registered changes only by registering and unregistering. */
  lemma RingOwn(s: State, a: Action)
    requires RingInv(s) && WordInv(s) && Enabled(s, a)
    ensures NextRings(s, a).root !! NextRings(s, a).out && NextRings(s, a).root !! NextRings(s, a).qs
    ensures NextRings(s, a).out !! NextRings(s, a).qs
    ensures forall t :: t in NextRings(s, a).Members() <==>
              if t == a.t then NextThread(s, a).linked else t in s.rings.Members()
  {
  }

  lemma StageOwn(s: State, a: Action)
    requires RingInv(s) && LockInv(s) && Enabled(s, a)
    ensures NextThread(s, a).pc.Syncing? ==> StageRings(NextRings(s, a), NextThread(s, a).pc.stage)
  {
  }

  lemma IdleRings(s: State, a: Action)
    requires RingInv(s) && LockInv(s) && Enabled(s, a)
    ensures NextGp(s, a) == None ==> NextRings(s, a).out == {} && NextRings(s, a).qs == {}
  {
  }

  lemma StageOther(s: State, a: Action, x: Tid)
    requires RingInv(s) && LockInv(s) && Enabled(s, a)
    requires x != a.t && x in s.threads && s.threads[x].pc.Syncing?
    ensures StageRings(NextRings(s, a), s.threads[x].pc.stage)
  {
  }

  lemma RingStep(s: State, a: Action)
    requires RingInv(s) && LockInv(s) && WordInv(s) && Enabled(s, a)
    ensures RingInv(Step(s, a))
  {
    RingOwn(s, a);
    StageOwn(s, a);
    IdleRings(s, a);
    forall x | x != a.t && x in s.threads && s.threads[x].pc.Syncing?
      ensures StageRings(NextRings(s, a), s.threads[x].pc.stage)
    {
      StageOther(s, a, x);
    }
  }

  /** A snapshot names sections that have begun, and keeps its value throughout the sync. */
  lemma SnapOwn(s: State, a: Action)
    requires Enabled(s, a) && NextThread(s, a).pc.Syncing?
    ensures a.t in s.threads
    ensures if s.threads[a.t].pc.Syncing?
            then NextThread(s, a).pc.snap == s.threads[a.t].pc.snap
            else NextThread(s, a).pc.snap == OpenSections(s.threads - {a.t})
  {
  }

  lemma SnapStep(s: State, a: Action)
    requires GraceInv(s) && Enabled(s, a)
    ensures forall x :: x in Step(s, a).threads && Step(s, a).threads[x].pc.Syncing? ==>
              PastSections(Step(s, a), Step(s, a).threads[x].pc.snap)
  {
    LaterStep(s, a);
    if NextThread(s, a).pc.Syncing? {
      SnapOwn(s, a);
    }
  }

  /** A section keeps the phase with which it was entered. */
  lemma PhaseKept(s: State, a: Action, c: Word)
    requires Enabled(s, a) && a.t in s.threads
    requires InCs(s.threads[a.t].word) && InCs(NextThread(s, a).word)
    requires NextThread(s, a).cs == s.threads[a.t].cs
    ensures SamePhase(NextThread(s, a).word, c) == SamePhase(s.threads[a.t].word, c)
  {
  }

  /** A thread that does not run the grace period leaves the phase alone, and takes at most
      itself out of a ring. */
  lemma Bystander(s: State, a: Action, x: Tid, t: Tid)
    requires LockInv(s) && WordInv(s) && Enabled(s, a) && s.gp == Some(x) && a.t != x
    requires t in s.threads && InCs(s.threads[t].word)
    ensures NextCtr(s, a) == s.ctr
    ensures t in s.rings.root ==> t in NextRings(s, a).root
    ensures t in s.rings.out ==> t in NextRings(s, a).out
  {
    BystanderCtr(s, a, x);
  }

  lemma BystanderCtr(s: State, a: Action, x: Tid)
    requires LockInv(s) && Enabled(s, a) && s.gp == Some(x) && a.t != x
    ensures NextCtr(s, a) == s.ctr
  {
  }

  /** While another thread moves, a section of the snapshot that is still open stays where the
      running poll will find it. */
  lemma HolderOther(s: State, a: Action, x: Tid, t: Tid)
    requires LockInv(s) && WordInv(s) && Enabled(s, a) && a.t != x
    requires x in s.threads && s.gp == Some(x) && s.threads[x].pc.Syncing?
    requires t in s.threads && InCs(s.threads[t].word)
    requires Waited(s, s.threads[x].pc.stage, t)
    requires t in Step(s, a).threads
    requires InCs(Step(s, a).threads[t].word) && Step(s, a).threads[t].cs == s.threads[t].cs
    ensures Waited(Step(s, a), s.threads[x].pc.stage, t)
  {
    Bystander(s, a, x, t);
    if t == a.t {
      PhaseKept(s, a, s.ctr);
    }
  }

  /** The moves of the thread that runs the grace period: a reader is dropped from the wait only
      when its word shows that the old section is over. */
  lemma HolderOwn(s: State, a: Action, t: Tid)
    requires LockInv(s) && RingInv(s) && WordInv(s) && Enabled(s, a)
    requires a.t in s.threads && s.threads[a.t].pc.Syncing? && NextThread(s, a).pc.Syncing?
    requires t in s.threads && InCs(s.threads[t].word)
    requires Waited(s, s.threads[a.t].pc.stage, t)
    ensures Waited(Step(s, a), NextThread(s, a).pc.stage, t)
  {
  }

  lemma GraceSectionOwn(s: State, a: Action, t: Tid)
    requires LockInv(s) && RingInv(s) && WordInv(s) && GraceInv(s) && Enabled(s, a)
    requires NextGp(s, a) == Some(a.t) && NextThread(s, a).pc.Syncing?
    requires StillOpen(Step(s, a).threads, NextThread(s, a).pc.snap, t)
    ensures Waited(Step(s, a), NextThread(s, a).pc.stage, t)
  {
    LaterStep(s, a);
    GpOwn(s, a);
    SnapOwn(s, a);
    if NextThread(s, a).pc.stage != HaveGp {
      assert StillOpen(s.threads, s.threads[a.t].pc.snap, t);
      HolderOwn(s, a, t);
    }
  }

  lemma GraceSection(s: State, a: Action, x: Tid, t: Tid)
    requires LockInv(s) && RingInv(s) && WordInv(s) && GraceInv(s) && Enabled(s, a)
    requires NextGp(s, a) == Some(x) && x in Step(s, a).threads && Step(s, a).threads[x].pc.Syncing?
    requires StillOpen(Step(s, a).threads, Step(s, a).threads[x].pc.snap, t)
    ensures Waited(Step(s, a), Step(s, a).threads[x].pc.stage, t)
  {
    if x == a.t {
      GraceSectionOwn(s, a, t);
    } else {
      LaterStep(s, a);
      GpOwn(s, a);
      assert StillOpen(s.threads, s.threads[x].pc.snap, t);
      HolderOther(s, a, x, t);
    }
  }

  lemma GraceStep(s: State, a: Action)
    requires LockInv(s) && RingInv(s) && WordInv(s) && GraceInv(s) && Enabled(s, a)
    ensures GraceInv(Step(s, a))
  {
    SnapStep(s, a);
    LockStep(s, a);
    var s' := Step(s, a);
    if s'.gp.Some? {
      var x := s'.gp.value;
      forall t | StillOpen(s'.threads, s'.threads[x].pc.snap, t)
        ensures Waited(s', s'.threads[x].pc.stage, t)
      {
        GraceSection(s, a, x, t);
      }
    }
  }

  lemma EmptyRoot(s: State, t: Tid)
    requires RingInv(s) && WordInv(s) && s.rings == Places({}, {}, {})
    requires t in s.threads
    ensures !InCs(s.threads[t].word)
  {
    assert t !in s.rings.Members();
  }

  /** When sync returns, none of the sections that were open at its call is open. */
  lemma SyncReturns(s: State, a: Action, t: Tid)
    requires LockInv(s) && RingInv(s) && GraceInv(s) && WordInv(s) && Enabled(s, a)
    requires a.t in s.threads && s.threads[a.t].pc.Syncing? && !NextThread(s, a).pc.Syncing?
    ensures !StillOpen(Step(s, a).threads, s.threads[a.t].pc.snap, t)
  {
    LaterStep(s, a);
    if StillOpen(Step(s, a).threads, s.threads[a.t].pc.snap, t) {
      assert StillOpen(s.threads, s.threads[a.t].pc.snap, t);
      if a.LockTd? {
        EmptyRoot(s, t);
      }
      assert false;
    }
  }

  lemma RemainingOwn(s: State, a: Action, o: Obj)
    requires Enabled(s, a) && o in Remaining(NextThread(s, a))
    ensures a.t in s.threads
    ensures o in Remaining(s.threads[a.t]) || (a.Finalize? && o == a.o)
  {
  }

  /** A section that is open after a step and has begun before it was open before it. */
  lemma SectionShrinks(s: State, a: Action, secs: map<Tid, nat>, t: Tid)
    requires PastSections(s, secs) && Enabled(s, a) && StillOpen(Step(s, a).threads, secs, t)
    ensures StillOpen(s.threads, secs, t)
  {
    LaterStep(s, a);
  }

  /** A thread's own steps keep the sections secs guarded, also that with which it calls sync. */
  lemma GuardedOwn(s: State, a: Action, secs: map<Tid, nat>, t: Tid)
    requires LockInv(s) && RingInv(s) && WordInv(s) && GraceInv(s) && Enabled(s, a)
    requires a.t in s.threads && PastSections(s, secs) && Guarded(s, s.threads[a.t], secs)
    requires StillOpen(Step(s, a).threads, secs, t)
    ensures NextThread(s, a).pc.Syncing? ==>
              t in NextThread(s, a).pc.snap && NextThread(s, a).pc.snap[t] == secs[t]
    ensures !NextThread(s, a).pc.Destroying?
  {
    SectionShrinks(s, a, secs, t);
    var th, th' := s.threads[a.t], NextThread(s, a);
    if th'.pc.Syncing? {
      SnapOwn(s, a);
    }
    if th'.pc.Destroying? {
      StartDestroying(s, a);
      if th.pc.Syncing? {
        SyncReturns(s, a, t);
      }
      assert false;
    }
  }

  lemma GuardedStep(s: State, a: Action, x: Tid, secs: map<Tid, nat>)
    requires LockInv(s) && RingInv(s) && WordInv(s) && GraceInv(s) && Enabled(s, a)
    requires x in s.threads && PastSections(s, secs) && Guarded(s, s.threads[x], secs)
    ensures PastSections(Step(s, a), secs) && Guarded(Step(s, a), Step(s, a).threads[x], secs)
  {
    LaterStep(s, a);
    forall t | StillOpen(Step(s, a).threads, secs, t)
      ensures !Step(s, a).threads[x].pc.Destroying?
      ensures Step(s, a).threads[x].pc.Syncing? ==>
                t in Step(s, a).threads[x].pc.snap && Step(s, a).threads[x].pc.snap[t] == secs[t]
    {
      if x == a.t {
        GuardedOwn(s, a, secs, t);
      } else {
        SectionShrinks(s, a, secs, t);
      }
    }
  }

  /** Destruction starts when a sync returns. */
  lemma StartDestroying(s: State, a: Action)
    requires Enabled(s, a) && NextThread(s, a).pc.Destroying?
    ensures a.t in s.threads && !a.Finalize?
    ensures s.threads[a.t].pc.Destroying? || s.threads[a.t].pc.Syncing?
  {
  }

  /** The sections recorded for an object that thread x has not destroyed, before the step. */
  lemma GuardBefore(s: State, a: Action, x: Tid, o: Obj)
    requires WordInv(s) && GuardInv(s) && Enabled(s, a)
    requires x in Step(s, a).threads && o in Remaining(Step(s, a).threads[x])
    ensures x in s.threads && o in NextGuards(s, a)
    ensures PastSections(s, NextGuards(s, a)[o]) && Guarded(s, s.threads[x], NextGuards(s, a)[o])
  {
    if x == a.t {
      RemainingOwn(s, a, o);
    }
  }

  lemma GuardObject(s: State, a: Action, x: Tid, o: Obj)
    requires LockInv(s) && RingInv(s) && WordInv(s) && GraceInv(s) && GuardInv(s) && Enabled(s, a)
    requires x in Step(s, a).threads && o in Remaining(Step(s, a).threads[x])
    ensures o in NextGuards(s, a) && Guarded(Step(s, a), Step(s, a).threads[x], NextGuards(s, a)[o])
  {
    GuardBefore(s, a, x, o);
    GuardedStep(s, a, x, NextGuards(s, a)[o]);
  }

  lemma GuardsOld(s: State, a: Action)
    requires GuardInv(s) && Enabled(s, a)
    ensures forall o :: o in NextGuards(s, a) ==> PastSections(Step(s, a), NextGuards(s, a)[o])
  {
    LaterStep(s, a);
  }

  lemma GuardStep(s: State, a: Action)
    requires LockInv(s) && RingInv(s) && WordInv(s) && GraceInv(s) && GuardInv(s) && Enabled(s, a)
    ensures GuardInv(Step(s, a))
  {
    var s' := Step(s, a);
    GuardsOld(s, a);
    forall x, o | x in s'.threads && o in Remaining(s'.threads[x])
      ensures o in s'.guards && Guarded(s', s'.threads[x], s'.guards[o])
    {
      GuardObject(s, a, x, o);
    }
  }

  /** An object moves from the pending list to the destroyed ones in the order of its finalize. */
  lemma FinOrder(s: State, a: Action)
    requires Enabled(s, a)
    requires a.t in s.threads ==> FinOk(s.threads[a.t]) && WordOk(s.threads[a.t])
    ensures NextThread(s, a).fin == NextThread(s, a).des + Remaining(NextThread(s, a))
  {
    if a.t in s.threads {
      var th := s.threads[a.t];
      match a
      case Finalize(_, o) => assert th.des + (th.fins + [o]) == (th.des + th.fins) + [o];
      case Destroy(_) => assert th.pc.rest == [th.pc.rest[0]] + th.pc.rest[1..];
      case _ =>
    }
  }

  /** The list stays below its limit unless its thread cannot flush it yet. */
  lemma FinLimit(s: State, a: Action)
    requires Enabled(s, a)
    requires a.t in s.threads ==> FinOk(s.threads[a.t]) && WordOk(s.threads[a.t])
    ensures
      var th := NextThread(s, a);
      |th.fins| >= MAX_FINS ==> (th.mustFlush && InCs(th.word)) || Flushing(th) || th.pc.Deleting? || th.pc.Dead?
  {
    if a.Finalize? {
      WrappedNext(|s.threads[a.t].fins|);
    }
  }

  lemma FinCount(s: State, a: Action)
    requires Enabled(s, a)
    requires a.t in s.threads ==> FinOk(s.threads[a.t])
    ensures NextThread(s, a).nFins == |NextThread(s, a).fins| % UINT_RANGE
  {
    if a.Finalize? {
      WrappedNext(|s.threads[a.t].fins|);
    }
  }

  lemma FinOwn(s: State, a: Action)
    requires Enabled(s, a)
    requires a.t in s.threads ==> FinOk(s.threads[a.t]) && WordOk(s.threads[a.t])
    ensures FinOk(NextThread(s, a))
  {
    FinOrder(s, a);
    FinLimit(s, a);
    FinCount(s, a);
  }

  lemma FinGrows(s: State, a: Action)
    requires Enabled(s, a) && a.t in s.threads
    ensures NextThread(s, a).fin == if a.Finalize? then s.threads[a.t].fin + [a.o] else s.threads[a.t].fin
  {
  }

  lemma DistinctStep(s: State, a: Action)
    requires DistinctFins(s) && Enabled(s, a)
    ensures DistinctFins(Step(s, a))
  {
    if a.t in s.threads {
      FinGrows(s, a);
    }
  }

  lemma FinStep(s: State, a: Action)
    requires FinInv(s) && WordInv(s) && Enabled(s, a)
    ensures FinInv(Step(s, a))
  {
    FinOwn(s, a);
    DistinctStep(s, a);
  }

  lemma InvStep(s: State, a: Action)
    requires Inv(s) && Enabled(s, a)
    ensures Inv(Step(s, a))
  {
    LockStep(s, a);
    RingStep(s, a);
    WordStep(s, a);
    GraceStep(s, a);
    GuardStep(s, a);
    FinStep(s, a);
  }
}
