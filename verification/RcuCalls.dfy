/** The calls of the RCU interface, from the call to its return: what a thread that calls sync,
    enter_cs, exit_cs, finalize or flush_finalizers has obtained when it goes on. */
module RcuCalls {
  import opened Common
  import opened ReaderRings
  import opened ReaderWord
  import opened Rcu
  import opened RcuInvariant
  import opened RcuTheorems

  lemma RunThread(states: seq<State>, acts: seq<Action>, k: nat, t: Tid)
    requires IsRun(states, acts) && k < |states| && t in states[k].threads
    ensures FinOk(states[k].threads[t]) && WordOk(states[k].threads[t])
  {
    RunInv(states, acts, k);
  }

  lemma RunWord(states: seq<State>, acts: seq<Action>, k: nat, t: Tid)
    requires IsRun(states, acts) && k < |states|
    ensures t in states[k].threads ==> WordOk(states[k].threads[t])
  {
    RunInv(states, acts, k);
  }

  // ----- sync -----

  /** Thread t has called sync with the record `before`, when the sections secs were open: it is
      waiting for them, or back with its record as it was and none of them open. */
  ghost predicate SyncUnderWay(s: State, t: Tid, before: Thread, secs: map<Tid, nat>) {
    && t in s.threads && PastSections(s, secs) && Guarded(s, s.threads[t], secs)
    && s.threads[t].pc.Syncing? && s.threads[t].pc.why == ForSync
    && s.threads[t].(pc := Idle) == before
  }

  lemma SyncBegins(s: State, t: Tid)
    requires Inv(s) && Enabled(s, CallSync(t)) && !InCs(s.threads[t].word)
    ensures SyncUnderWay(Step(s, CallSync(t)), t, s.threads[t], OpenSections(s.threads))
  {
    var secs := OpenSections(s.threads);
    assert PastSections(s, secs) && Guarded(s, s.threads[t], secs);
    GuardedStep(s, CallSync(t), t, secs);
  }

  lemma SyncGoesOn(s: State, a: Action, t: Tid, before: Thread, secs: map<Tid, nat>)
    requires Inv(s) && Enabled(s, a) && SyncUnderWay(s, t, before, secs)
    ensures
      var s' := Step(s, a);
      if s'.threads[t].pc.Syncing? then SyncUnderWay(s', t, before, secs)
      else s'.threads[t] == before && forall u :: !StillOpen(s'.threads, secs, u)
  {
    GuardedStep(s, a, t, secs);
    var s' := Step(s, a);
    if !s'.threads[t].pc.Syncing? {
      forall u ensures !StillOpen(s'.threads, secs, u) {
        if StillOpen(s'.threads, secs, u) {
          SectionShrinks(s, a, secs, u);
          SyncReturns(s, a, u);
        }
      }
    }
  }

  /** What the call of sync in step i has come to in state k. */
  ghost predicate SyncAt(states: seq<State>, i: nat, k: nat, t: Tid)
    requires i < |states| && k < |states| && t in states[i].threads
  {
    var before, secs := states[i].threads[t], OpenSections(states[i].threads);
    && t in states[k].threads
    && (if states[k].threads[t].pc.Syncing? then SyncUnderWay(states[k], t, before, secs)
        else states[k].threads[t] == before && forall u :: !StillOpen(states[k].threads, secs, u))
  }

  lemma SyncFirst(states: seq<State>, acts: seq<Action>, i: nat, t: Tid)
    requires IsRun(states, acts) && i < |acts|
    requires acts[i] == CallSync(t) && !InCs(states[i].threads[t].word)
    ensures SyncAt(states, i, i + 1, t)
  {
    RunInv(states, acts, i);
    SyncBegins(states[i], t);
  }

  lemma SyncNext(states: seq<State>, acts: seq<Action>, i: nat, k: nat, t: Tid)
    requires IsRun(states, acts) && i < |states| && k < |acts| && t in states[i].threads
    requires SyncAt(states, i, k, t) && states[k].threads[t].pc.Syncing?
    ensures SyncAt(states, i, k + 1, t)
  {
    RunInv(states, acts, k);
    SyncGoesOn(states[k], acts[k], t, states[i].threads[t], OpenSections(states[i].threads));
  }

  predicate IdleAt(s: State, t: Tid) {
    t in s.threads && s.threads[t].pc.Idle?
  }

  /** Up to the state in which t is idle again, and in that state. */
  lemma {:induction false} SyncWaits(states: seq<State>, acts: seq<Action>, i: nat, k: nat, t: Tid)
    requires IsRun(states, acts) && i < k < |states| && t in states[i].threads
    requires acts[i] == CallSync(t) && !InCs(states[i].threads[t].word)
    requires IdleAt(states[i], t) && forall m :: i < m < k ==> !IdleAt(states[m], t)
    ensures SyncAt(states, i, k, t)
    decreases k
  {
    if k == i + 1 {
      SyncFirst(states, acts, i, t);
    } else {
      SyncWaits(states, acts, i, k - 1, t);
      SyncNext(states, acts, i, k - 1, t);
    }
  }

  /** Sections that have ended stay so. */
  lemma {:induction false} StaysEnded(states: seq<State>, acts: seq<Action>, secs: map<Tid, nat>, i: nat, k: nat,
                                      u: Tid)
    requires IsRun(states, acts) && i <= k < |states|
    requires PastSections(states[i], secs) && !StillOpen(states[i].threads, secs, u)
    ensures PastSections(states[k], secs) && !StillOpen(states[k].threads, secs, u)
    decreases k
  {
    if k > i {
      StaysEnded(states, acts, secs, i, k - 1, u);
      LaterStep(states[k - 1], acts[k - 1]);
      if StillOpen(states[k].threads, secs, u) {
        SectionShrinks(states[k - 1], acts[k - 1], secs, u);
      }
    }
  }

  lemma {:induction false} FirstIdle(states: seq<State>, i: nat, k: nat, t: Tid) returns (m: nat)
    requires i < k < |states| && IdleAt(states[k], t)
    ensures i < m <= k && IdleAt(states[m], t) && forall l :: i < l < m ==> !IdleAt(states[l], t)
    decreases k
  {
    if l :| i < l < k && IdleAt(states[l], t) {
      m := FirstIdle(states, i, l, t);
    } else {
      m := k;
    }
  }

  lemma {:induction false} SectionsPast(states: seq<State>, acts: seq<Action>, i: nat, k: nat)
    requires IsRun(states, acts) && i <= k < |states|
    ensures PastSections(states[k], OpenSections(states[i].threads))
    decreases k
  {
    if k > i {
      SectionsPast(states, acts, i, k - 1);
      LaterStep(states[k - 1], acts[k - 1]);
    }
  }

  /** A call of sync outside a section: whenever its thread is idle again, no section that was open at
      the call is open, and when it has just returned its record is as it was. */
  lemma SyncCall(states: seq<State>, acts: seq<Action>, i: nat, k: nat, t: Tid, u: Tid)
    requires IsRun(states, acts) && i < k < |states| && acts[i] == CallSync(t)
    requires !InCs(states[i].threads[t].word) && IdleAt(states[k], t)
    ensures !StillOpen(states[k].threads, OpenSections(states[i].threads), u)
    ensures (forall m :: i < m < k ==> !IdleAt(states[m], t)) ==> states[k].threads[t] == states[i].threads[t]
  {
    var m := FirstIdle(states, i, k, t);
    SyncWaits(states, acts, i, m, t);
    SectionsPast(states, acts, i, m);
    StaysEnded(states, acts, OpenSections(states[i].threads), m, k, u);
  }

  /** Inside a section a call of sync does nothing. */
  lemma SyncInside(s: State, t: Tid)
    requires Enabled(s, CallSync(t)) && InCs(s.threads[t].word)
    ensures Step(s, CallSync(t)) == s
  {
    assert s.threads[t := s.threads[t]] == s.threads;
  }

  // ----- enter_cs and exit_cs -----

  /** The steps of a run that store words are the bit operations of the code on the packed words x of
      the thread and c of the runtime. */
  lemma StepsOnPackedWords(s: State, a: Action, x: bv64, c: bv64)
    requires Enabled(s, a) && a.t in s.threads && Unpack(x) == s.threads[a.t].word && Unpack(c) == s.ctr
    ensures a.EnterLoad? ==> NextThread(s, a).pc == Entering(Unpack(c))
    ensures a.EnterStore? ==> NextThread(s, a).word == s.threads[a.t].pc.val
    ensures a.EnterNested? ==> NextThread(s, a).word == Unpack(x + 1)
    ensures a.Exit? ==> NextThread(s, a).word == Unpack(x - 1)
    ensures a.Flip? ==> NextCtr(s, a) == Unpack(c ^ GP_PHASE_BIT)
    ensures !a.EnterStore? && !a.EnterNested? && !a.Exit? && !a.ThreadExit? ==> NextThread(s, a).word == Unpack(x)
    ensures !a.Flip? ==> NextCtr(s, a) == Unpack(c)
  {
    if a.EnterNested? {
      PackedEnter(x);
    } else if a.Exit? {
      PackedExit(x);
    } else if a.Flip? {
      PackedFlip(c);
    }
  }

  /** What a poll makes of a reader is the test of tl_data::state on the packed words. */
  lemma StateOnPackedWords(x: bv64, c: bv64)
    ensures StateOf(Unpack(x), Unpack(c)) ==
            if x & GP_NEST_MASK == 0 then Inactive
            else if (x ^ c) & GP_PHASE_BIT == 0 then Active
            else Old
  {
    PackedTests(x, c);
  }

  /** The machine word w is the number n: it can be counted down n times to 0. */
  predicate Counts(w: bv64, n: nat)
    decreases n
  {
    if n == 0 then w == 0 else w != 0 && Counts(w - 1, n - 1)
  }

  lemma NextIsNotZero(w: bv64)
    requires w < GP_NEST_MASK
    ensures w + 1 != 0 && (w + 1) - 1 == w
  {
  }

  lemma CountUp(w: bv64, n: nat)
    requires Counts(w, n) && w < GP_NEST_MASK
    ensures Counts(w + 1, n + 1)
  {
    NextIsNotZero(w);
  }

  lemma CountDown(w: bv64, n: nat)
    requires Counts(w, n) && w != 0
    ensures n > 0 && Counts(w - 1, n - 1)
  {
  }

  function Entries(acts: seq<Action>, t: Tid, k: nat): nat
    requires k <= |acts|
  {
    if k == 0 then 0
    else Entries(acts, t, k - 1) + if acts[k - 1] == EnterStore(t) || acts[k - 1] == EnterNested(t) then 1 else 0
  }

  function Exits(acts: seq<Action>, t: Tid, k: nat): nat
    requires k <= |acts|
  {
    if k == 0 then 0 else Exits(acts, t, k - 1) + if acts[k - 1] == Exit(t) then 1 else 0
  }

  lemma NestStep(s: State, a: Action, n: nat)
    requires Enabled(s, a) && a.t in s.threads && WordOk(s.threads[a.t]) && Counts(s.threads[a.t].word.nest, n)
    requires !a.ThreadExit?
    ensures a.Exit? ==> n > 0
    ensures
      var n' := if a.EnterStore? || a.EnterNested? then n + 1 else if a.Exit? then n - 1 else n;
      Counts(NextThread(s, a).word.nest, n')
  {
    var w := s.threads[a.t].word.nest;
    if a.EnterStore? {
      assert Counts(0, 0);
    } else if a.EnterNested? {
      CountUp(w, n);
    } else if a.Exit? {
      CountDown(w, n);
    }
  }

  /** The nesting count is the number of entries minus the number of exits so far. */
  ghost predicate NestAt(s: State, t: Tid, entries: nat, exits: nat) {
    && exits <= entries
    && (if t in s.threads then Counts(s.threads[t].word.nest, entries - exits) else entries == 0)
  }

  lemma NestNext(s: State, a: Action, t: Tid, entries: nat, exits: nat, entries': nat, exits': nat)
    requires t in s.threads ==> WordOk(s.threads[t])
    requires Enabled(s, a) && a != ThreadExit(t) && NestAt(s, t, entries, exits)
    requires entries' == entries + if a == EnterStore(t) || a == EnterNested(t) then 1 else 0
    requires exits' == exits + if a == Exit(t) then 1 else 0
    ensures NestAt(Step(s, a), t, entries', exits')
  {
    if a.t == t && t in s.threads {
      NestStep(s, a, entries - exits);
    }
  }

  /** Until its exit, the nesting count of a thread is the number of times it has entered minus the
      number of times it has left. */
  lemma {:induction false} NestCounts(states: seq<State>, acts: seq<Action>, k: nat, t: Tid)
    requires IsRun(states, acts) && k < |states| && forall m :: 0 <= m < k ==> acts[m] != ThreadExit(t)
    ensures NestAt(states[k], t, Entries(acts, t, k), Exits(acts, t, k))
  {
    if k > 0 {
      NestCounts(states, acts, k - 1, t);
      RunWord(states, acts, k - 1, t);
      NestNext(states[k - 1], acts[k - 1], t, Entries(acts, t, k - 1), Exits(acts, t, k - 1),
               Entries(acts, t, k), Exits(acts, t, k));
    }
  }

  /** It is inside a section exactly while it has entered more often than left. */
  lemma InsideIff(states: seq<State>, acts: seq<Action>, k: nat, t: Tid)
    requires IsRun(states, acts) && k < |states| && t in states[k].threads
    requires forall m :: 0 <= m < k ==> acts[m] != ThreadExit(t)
    ensures InCs(states[k].threads[t].word) <==> Entries(acts, t, k) > Exits(acts, t, k)
  {
    NestCounts(states, acts, k, t);
  }

  lemma {:induction false} EntersOn(states: seq<State>, acts: seq<Action>, i: nat, k: nat, t: Tid)
    requires IsRun(states, acts) && i < k < |states| && acts[i] == EnterLoad(t)
    requires forall m :: i < m < k ==> !IdleAt(states[m], t)
    ensures t in states[k].threads
    ensures
      var th := states[k].threads[t];
      if th.pc.Idle? then InCs(th.word) && th.word == states[i].ctr
      else th.pc == Entering(states[i].ctr)
    decreases k
  {
    var s, a := states[k - 1], acts[k - 1];
    assert Enabled(s, a) && states[k] == Step(s, a);
    RunWord(states, acts, k - 1, t);
    if k == i + 1 {
      assert !IdleAt(states[k], t);
    } else {
      EntersOn(states, acts, i, k - 1, t);
    }
  }

  /** enter_cs returns inside a section, with the phase of the runtime that it has loaded. */
  lemma EnterCall(states: seq<State>, acts: seq<Action>, i: nat, k: nat, t: Tid)
    requires IsRun(states, acts) && i < k < |states| && acts[i] == EnterLoad(t)
    requires IdleAt(states[k], t) && forall m :: i < m < k ==> !IdleAt(states[m], t)
    ensures InCs(states[k].threads[t].word) && states[k].threads[t].word == states[i].ctr
  {
    EntersOn(states, acts, i, k, t);
  }

  // ----- finalize and flush_finalizers -----

  /** The objects that thread t finalizes in the first k steps, in order. */
  function Finalizes(acts: seq<Action>, t: Tid, k: nat): seq<Obj>
    requires k <= |acts|
  {
    if k == 0 then []
    else Finalizes(acts, t, k - 1) + if acts[k - 1].Finalize? && acts[k - 1].t == t then [acts[k - 1].o] else []
  }

  /** The record of finalized objects that the other theorems speak of is that of the calls. */
  lemma {:induction false} FinalizedInOrder(states: seq<State>, acts: seq<Action>, k: nat, t: Tid)
    requires IsRun(states, acts) && k < |states|
    ensures if t in states[k].threads then states[k].threads[t].fin == Finalizes(acts, t, k)
            else Finalizes(acts, t, k) == []
  {
    if k > 0 {
      FinalizedInOrder(states, acts, k - 1, t);
      var s, a := states[k - 1], acts[k - 1];
      assert Enabled(s, a) && states[k] == Step(s, a);
      if a.t == t && t in s.threads {
        FinGrows(s, a);
      }
    }
  }

  lemma FinalizedBy(states: seq<State>, acts: seq<Action>, k: nat, t: Tid)
    requires IsRun(states, acts) && k < |states|
    ensures t in states[k].threads ==> states[k].threads[t].fin == Finalizes(acts, t, k)
  {
    FinalizedInOrder(states, acts, k, t);
  }

  /** The call asks for a flush: flush_finalizers, or a finalize with which the list reaches its limit,
      as the 32-bit counter sees it. */
  predicate AsksForFlush(s: State, a: Action)
    requires Enabled(s, a)
  {
    a.FlushFinalizers? || (a.Finalize? && (|s.threads[a.t].fins| + 1) % UINT_RANGE >= MAX_FINS)
  }

  /** The first n objects that th has finalized are destroyed, or their flush is under way or due at the
      end of the section; an exiting thread is the subject of RcuTheorems.ExitDestroysAll. */
  predicate FlushOwed(th: Thread, n: nat) {
    || |th.des| >= n
    || (|th.fin| >= n && ((th.mustFlush && InCs(th.word)) || Flushing(th)))
    || th.pc.Deleting? || th.pc.Dead?
  }

  lemma FlushBegins(s: State, a: Action)
    requires Enabled(s, a) && a.t in s.threads && FinOk(s.threads[a.t]) && AsksForFlush(s, a)
    ensures FlushOwed(NextThread(s, a), |NextThread(s, a).fin|)
  {
    WrappedNext(|s.threads[a.t].fins|);
  }

  lemma FlushGoesOn(s: State, a: Action, n: nat)
    requires Enabled(s, a) && a.t in s.threads && FinOk(s.threads[a.t]) && WordOk(s.threads[a.t])
    requires FlushOwed(s.threads[a.t], n)
    ensures FlushOwed(NextThread(s, a), n)
  {
    FinGrows(s, a);
  }

  /** Step i is a call of t that asks for a flush. */
  ghost predicate AsksAt(states: seq<State>, acts: seq<Action>, i: nat, t: Tid)
    requires IsRun(states, acts) && i < |acts|
  {
    acts[i].t == t && t in states[i].threads && AsksForFlush(states[i], acts[i])
  }

  lemma FlushFirst(states: seq<State>, acts: seq<Action>, i: nat, t: Tid)
    requires IsRun(states, acts) && i < |acts| && AsksAt(states, acts, i, t)
    ensures t in states[i + 1].threads
    ensures FlushOwed(states[i + 1].threads[t], |states[i + 1].threads[t].fin|)
  {
    RunThread(states, acts, i, t);
    FlushBegins(states[i], acts[i]);
  }

  lemma FlushNext(states: seq<State>, acts: seq<Action>, k: nat, t: Tid, n: nat)
    requires IsRun(states, acts) && k < |acts| && t in states[k].threads && FlushOwed(states[k].threads[t], n)
    ensures t in states[k + 1].threads && FlushOwed(states[k + 1].threads[t], n)
    ensures states[k].threads[t].fin <= states[k + 1].threads[t].fin
  {
    if acts[k].t == t {
      RunThread(states, acts, k, t);
      FlushGoesOn(states[k], acts[k], n);
      FinGrows(states[k], acts[k]);
    }
  }

  lemma {:induction false} FlushLasts(states: seq<State>, acts: seq<Action>, i: nat, k: nat, t: Tid)
    requires IsRun(states, acts) && i < k < |states| && AsksAt(states, acts, i, t)
    ensures t in states[i + 1].threads && t in states[k].threads
    ensures states[i + 1].threads[t].fin <= states[k].threads[t].fin
    ensures FlushOwed(states[k].threads[t], |states[i + 1].threads[t].fin|)
    decreases k
  {
    if k == i + 1 {
      FlushFirst(states, acts, i, t);
    } else {
      FlushLasts(states, acts, i, k - 1, t);
      FlushNext(states, acts, k - 1, t, |states[i + 1].threads[t].fin|);
    }
  }

  lemma FlushDone(th: Thread, done: seq<Obj>)
    requires FinOk(th) && th.pc.Idle? && !InCs(th.word) && done <= th.fin && FlushOwed(th, |done|)
    ensures done <= th.des
  {
    assert th.fin == th.des + th.fins;
  }

  lemma FlushDoneAt(states: seq<State>, acts: seq<Action>, k: nat, t: Tid, done: seq<Obj>)
    requires IsRun(states, acts) && k < |states| && IdleAt(states[k], t) && !InCs(states[k].threads[t].word)
    requires done <= states[k].threads[t].fin && FlushOwed(states[k].threads[t], |done|)
    ensures done <= states[k].threads[t].des
  {
    RunThread(states, acts, k, t);
    FlushDone(states[k].threads[t], done);
  }

  lemma FlushedSince(states: seq<State>, acts: seq<Action>, i: nat, k: nat, t: Tid, done: seq<Obj>)
    requires IsRun(states, acts) && i < k < |states| && AsksAt(states, acts, i, t)
    requires t in states[i + 1].threads ==> states[i + 1].threads[t].fin == done
    requires IdleAt(states[k], t) && !InCs(states[k].threads[t].word)
    ensures done <= states[k].threads[t].des
  {
    FlushLasts(states, acts, i, k, t);
    FlushDoneAt(states, acts, k, t, done);
  }

  /** When a thread has asked for a flush, inside a section or outside, then whenever it is idle and
      outside of all sections, everything that it had finalized up to the call is destroyed. */
  lemma FlushDestroys(states: seq<State>, acts: seq<Action>, i: nat, k: nat, t: Tid)
    requires IsRun(states, acts) && i < k < |states| && AsksAt(states, acts, i, t)
    requires IdleAt(states[k], t) && !InCs(states[k].threads[t].word)
    ensures Finalizes(acts, t, i + 1) <= states[k].threads[t].des
  {
    FinalizedBy(states, acts, i + 1, t);
    FlushedSince(states, acts, i, k, t, Finalizes(acts, t, i + 1));
  }

  /** Thread t has asked for a flush in step m, in the section in which it is in state k. */
  ghost predicate AskedInSection(states: seq<State>, acts: seq<Action>, m: nat, k: nat, t: Tid)
    requires IsRun(states, acts) && m < k < |states| && t in states[k].threads
  {
    && acts[m].t == t && t in states[m].threads && InCs(states[m].threads[t].word)
    && states[m].threads[t].cs == states[k].threads[t].cs && AsksForFlush(states[m], acts[m])
  }

  lemma MustFlushOwn(s: State, a: Action)
    requires Enabled(s, a) && a.t in s.threads && FinOk(s.threads[a.t]) && WordOk(s.threads[a.t])
    requires InCs(NextThread(s, a).word)
    ensures
      var th, th' := s.threads[a.t], NextThread(s, a);
      if InCs(th.word) then th'.cs == th.cs && (th'.mustFlush <==> th.mustFlush || AsksForFlush(s, a))
      else th'.cs == th.cs + 1 && !th'.mustFlush
  {
    if a.Finalize? {
      WrappedNext(|s.threads[a.t].fins|);
    }
  }

  lemma {:induction false} CsGrows(states: seq<State>, acts: seq<Action>, i: nat, k: nat, t: Tid)
    requires IsRun(states, acts) && i <= k < |states| && t in states[i].threads
    ensures t in states[k].threads && states[i].threads[t].cs <= states[k].threads[t].cs
    decreases k
  {
    if k > i {
      CsGrows(states, acts, i, k - 1, t);
      LaterStep(states[k - 1], acts[k - 1]);
    }
  }

  ghost predicate AskedBefore(states: seq<State>, acts: seq<Action>, k: nat, t: Tid)
    requires IsRun(states, acts) && k < |states| && t in states[k].threads
  {
    exists m: nat :: m < k && AskedInSection(states, acts, m, k, t)
  }

  lemma AskedSame(states: seq<State>, acts: seq<Action>, m: nat, k: nat, t: Tid)
    requires IsRun(states, acts) && m < k < |acts| && t in states[k].threads && t in states[k + 1].threads
    requires states[k + 1].threads[t].cs == states[k].threads[t].cs
    ensures AskedInSection(states, acts, m, k + 1, t) <==> AskedInSection(states, acts, m, k, t)
  {
  }

  lemma AskedNext(states: seq<State>, acts: seq<Action>, k: nat, t: Tid)
    requires IsRun(states, acts) && k < |acts| && t in states[k].threads && t in states[k + 1].threads
    requires states[k + 1].threads[t].cs == states[k].threads[t].cs
    ensures AskedBefore(states, acts, k + 1, t)
            <==> AskedBefore(states, acts, k, t) || AskedInSection(states, acts, k, k + 1, t)
  {
    if AskedBefore(states, acts, k, t) {
      var m: nat :| m < k && AskedInSection(states, acts, m, k, t);
      AskedSame(states, acts, m, k, t);
    }
    if AskedBefore(states, acts, k + 1, t) {
      var n := k + 1;
      var m: nat :| m < n && AskedInSection(states, acts, m, n, t);
      if m < k {
        AskedSame(states, acts, m, k, t);
      }
    }
  }

  lemma NoneAskedYet(states: seq<State>, acts: seq<Action>, k: nat, t: Tid)
    requires IsRun(states, acts) && k < |acts| && t in states[k].threads && t in states[k + 1].threads
    requires states[k + 1].threads[t].cs == states[k].threads[t].cs + 1
    ensures !AskedBefore(states, acts, k + 1, t)
  {
    if AskedBefore(states, acts, k + 1, t) {
      var n := k + 1;
      var m: nat :| m < n && AskedInSection(states, acts, m, n, t);
      CsGrows(states, acts, m, k, t);
    }
  }

  lemma NewThreadOutside(s: State, a: Action)
    requires Enabled(s, a) && a.t !in s.threads
    ensures !InCs(NextThread(s, a).word)
  {
  }

  lemma FlushDueNext(states: seq<State>, acts: seq<Action>, k: nat, t: Tid)
    requires IsRun(states, acts) && k < |acts| && t in states[k].threads
    requires t in states[k + 1].threads && InCs(states[k + 1].threads[t].word)
    requires InCs(states[k].threads[t].word) ==> (states[k].threads[t].mustFlush <==> AskedBefore(states, acts, k, t))
    ensures states[k + 1].threads[t].mustFlush <==> AskedBefore(states, acts, k + 1, t)
  {
    RunInv(states, acts, k);
    if acts[k].t == t {
      MustFlushOwn(states[k], acts[k]);
    }
    if InCs(states[k].threads[t].word) {
      AskedNext(states, acts, k, t);
    } else {
      NoneAskedYet(states, acts, k, t);
    }
  }

  /** Inside a section a flush is due if and only if it has been asked for in this section. */
  lemma {:induction false} FlushDueIff(states: seq<State>, acts: seq<Action>, k: nat, t: Tid)
    requires IsRun(states, acts) && k < |states| && t in states[k].threads && InCs(states[k].threads[t].word)
    ensures states[k].threads[t].mustFlush <==> AskedBefore(states, acts, k, t)
  {
    if k > 0 {
      if t !in states[k - 1].threads {
        NewThreadOutside(states[k - 1], acts[k - 1]);
      } else {
        if InCs(states[k - 1].threads[t].word) {
          FlushDueIff(states, acts, k - 1, t);
        }
        FlushDueNext(states, acts, k - 1, t);
      }
    }
  }

  /** What starts a flush: a call that asks for one outside a section, the end of a section in which one
      is due, and the exit of a registered thread with objects on its list, as the counter sees it. */
  lemma FlushStartsIff(s: State, a: Action)
    requires Enabled(s, a) && a.t in s.threads && FinOk(s.threads[a.t]) && WordOk(s.threads[a.t])
    requires !Flushing(s.threads[a.t])
    ensures
      var th := s.threads[a.t];
      Flushing(NextThread(s, a)) <==>
      || (AsksForFlush(s, a) && !InCs(th.word))
      || (a.Exit? && th.mustFlush && !InCs(NextThread(s, a).word))
      || (a.ThreadExit? && th.linked && |th.fins| % UINT_RANGE != 0)
  {
    if a.Finalize? {
      WrappedNext(|s.threads[a.t].fins|);
    }
  }
}
