/** Grace periods that nothing stands in the way of: with the mutexes free and no thread inside a
    section, a sync comes to its end by the steps of its own thread, and so does a flush. */
module RcuAlone {
  import opened Common
  import opened ReaderRings
  import opened ReaderWord
  import opened Rcu
  import opened RcuInvariant

  /** The steps lead from s to s', and all are taken by t. */
  ghost predicate Alone(s: State, t: Tid, acts: seq<Action>, s': State)
    decreases |acts|
  {
    if acts == [] then s' == s
    else Enabled(s, acts[0]) && acts[0].t == t && Alone(Step(s, acts[0]), t, acts[1..], s')
  }

  lemma Then(s: State, t: Tid, a: Action, s1: State, acts: seq<Action>, s': State)
    requires Enabled(s, a) && a.t == t && s1 == Step(s, a) && Alone(s1, t, acts, s')
    ensures Alone(s, t, [a] + acts, s')
  {
    assert ([a] + acts)[1..] == acts;
  }

  lemma {:induction false} Joined(s: State, t: Tid, a: seq<Action>, s1: State, b: seq<Action>, s': State)
    requires Alone(s, t, a, s1) && Alone(s1, t, b, s')
    ensures Alone(s, t, a + b, s')
    decreases |a|
  {
    if a == [] {
      assert a + b == b;
    } else {
      Joined(Step(s, a[0]), t, a[1..], s1, b, s');
      assert (a + b)[1..] == a[1..] + b;
    }
  }

  /** Nobody is inside a section. */
  ghost predicate Quiet(s: State) {
    Inv(s) && forall u :: u in s.threads ==> !InCs(s.threads[u].word)
  }

  predicate Polls(s: State, t: Tid, second: bool) {
    && t in s.threads && s.threads[t].pc.Syncing? && s.threads[t].pc.stage.Polling?
    && s.threads[t].pc.stage.second == second
  }

  lemma OneStep(s: State, a: Action) returns (s': State)
    requires Quiet(s) && Enabled(s, a) && a.t in s.threads && s.threads[a.t].pc.Syncing?
    ensures s' == Step(s, a) && Quiet(s')
  {
    InvStep(s, a);
    s' := Step(s, a);
    SyncWord(s, a);
  }

  lemma SyncWord(s: State, a: Action)
    requires Enabled(s, a) && a.t in s.threads && s.threads[a.t].pc.Syncing?
    ensures NextThread(s, a).word == s.threads[a.t].word
  {
  }

  lemma VisitOne(s: State, t: Tid, second: bool, u: Tid) returns (s': State)
    requires Quiet(s) && Polls(s, t, second) && s.rings.Readers(second) == s.threads[t].pc.stage.todo
    requires u in s.threads[t].pc.stage.todo
    ensures Enabled(s, Visit(t, u)) && s' == Step(s, Visit(t, u)) && Quiet(s') && Polls(s', t, second)
    ensures s'.rings.Readers(second) == s'.threads[t].pc.stage.todo == s.threads[t].pc.stage.todo - {u}
    ensures !second ==> s'.rings.out == s.rings.out
    ensures s'.threads[t].pc.why == s.threads[t].pc.why
  {
    assert u in s.rings.Members();
    s' := OneStep(s, Visit(t, u));
  }

  /** A pass sends all readers to qs. */
  lemma {:induction false} VisitAll(s: State, t: Tid, second: bool) returns (acts: seq<Action>, s': State)
    requires Quiet(s) && Polls(s, t, second) && s.rings.Readers(second) == s.threads[t].pc.stage.todo
    ensures Alone(s, t, acts, s') && Quiet(s') && Polls(s', t, second)
    ensures s'.rings.Readers(second) == s'.threads[t].pc.stage.todo == {}
    ensures !second ==> s'.rings.out == s.rings.out
    ensures s'.threads[t].pc.why == s.threads[t].pc.why
    decreases s.threads[t].pc.stage.todo
  {
    if s.threads[t].pc.stage.todo == {} {
      return [], s;
    }
    var u :| u in s.threads[t].pc.stage.todo;
    var s1 := VisitOne(s, t, second, u);
    acts, s' := VisitAll(s1, t, second);
    Then(s, t, Visit(t, u), s1, acts, s');
    acts := [Visit(t, u)] + acts;
  }

  /** Where a thread is after a sync that was made for the given purpose. */
  predicate Returned(pc: Pc, why: Why) {
    if why == ForSync then pc.Idle? else pc.Destroying?
  }

  /** The end of the last pass, the splice and the return. */
  lemma Ending(s: State, t: Tid) returns (acts: seq<Action>, s': State)
    requires Quiet(s) && Polls(s, t, true) && s.rings.out == s.threads[t].pc.stage.todo == {}
    ensures Alone(s, t, acts, s') && Quiet(s') && t in s'.threads && Returned(s'.threads[t].pc, s.threads[t].pc.why)
  {
    var s1 := OneStep(s, EndPass(t));
    var s2 := OneStep(s1, Splice(t));
    s' := OneStep(s2, UnlockGp(t));
    Then(s2, t, UnlockGp(t), s', [], s');
    Then(s1, t, Splice(t), s2, [UnlockGp(t)] + [], s');
    Then(s, t, EndPass(t), s1, [Splice(t)] + ([UnlockGp(t)] + []), s');
    acts := [EndPass(t)] + ([Splice(t)] + ([UnlockGp(t)] + []));
  }

  lemma SecondHalf(s: State, t: Tid) returns (acts: seq<Action>, s': State)
    requires Quiet(s) && Polls(s, t, true) && s.rings.out == s.threads[t].pc.stage.todo
    ensures Alone(s, t, acts, s') && Quiet(s') && t in s'.threads && Returned(s'.threads[t].pc, s.threads[t].pc.why)
  {
    var a, s1 := VisitAll(s, t, true);
    var b;
    b, s' := Ending(s1, t);
    Joined(s, t, a, s1, b, s');
    acts := a + b;
  }

  /** The end of the last pass of the first poll, and the flip. */
  lemma Turning(s: State, t: Tid) returns (acts: seq<Action>, s': State)
    requires Quiet(s) && Polls(s, t, false) && s.rings.root == s.threads[t].pc.stage.todo == {}
    ensures Alone(s, t, acts, s') && Quiet(s') && Polls(s', t, true) && s'.rings.out == s'.threads[t].pc.stage.todo
    ensures s'.threads[t].pc.why == s.threads[t].pc.why
  {
    var s1 := OneStep(s, EndPass(t));
    s' := OneStep(s1, Flip(t));
    Then(s1, t, Flip(t), s', [], s');
    Then(s, t, EndPass(t), s1, [Flip(t)] + [], s');
    acts := [EndPass(t)] + ([Flip(t)] + []);
  }

  lemma FirstHalf(s: State, t: Tid) returns (acts: seq<Action>, s': State)
    requires Quiet(s) && Polls(s, t, false) && s.rings.root == s.threads[t].pc.stage.todo
    ensures Alone(s, t, acts, s') && Quiet(s') && Polls(s', t, true) && s'.rings.out == s'.threads[t].pc.stage.todo
    ensures s'.threads[t].pc.why == s.threads[t].pc.why
  {
    var a, s1 := VisitAll(s, t, false);
    var b;
    b, s' := Turning(s1, t);
    Joined(s, t, a, s1, b, s');
    acts := a + b;
  }

  /** With the mutexes free and nobody inside a section, a thread that has called sync returns from it,
      or goes on to destroy what it has come to destroy, by its own steps. */
  lemma SyncEnds(s: State, t: Tid) returns (acts: seq<Action>, s': State)
    requires Quiet(s) && s.gp == None && s.td == None && t in s.threads
    requires AtStage(s.threads[t], WantGp)
    ensures Alone(s, t, acts, s') && Quiet(s') && t in s'.threads && Returned(s'.threads[t].pc, s.threads[t].pc.why)
  {
    var s1 := OneStep(s, LockGp(t));
    var s2 := OneStep(s1, LockTd(t));
    if s1.rings.root == {} {
      acts, s' := [], s2;
    } else {
      var a, s3 := FirstHalf(s2, t);
      var b;
      b, s' := SecondHalf(s3, t);
      Joined(s2, t, a, s3, b, s');
      acts := a + b;
    }
    Then(s1, t, LockTd(t), s2, acts, s');
    Then(s, t, LockGp(t), s1, [LockTd(t)] + acts, s');
    acts := [LockGp(t)] + ([LockTd(t)] + acts);
  }

  /** A flush whose grace period is over destroys all its objects and comes to its end, whatever the other
      threads do. */
  lemma {:induction false} DestroyEnds(s: State, t: Tid) returns (acts: seq<Action>, s': State)
    requires t in s.threads && s.threads[t].pc.Destroying?
    ensures Alone(s, t, acts, s') && t in s'.threads
    ensures s'.threads[t].des == s.threads[t].des + s.threads[t].pc.rest && s'.threads[t].fins == []
    ensures if s.threads[t].pc.final then s'.threads[t].pc.Deleting? else s'.threads[t].pc.Idle?
    decreases |s.threads[t].pc.rest|
  {
    var pc := s.threads[t].pc;
    if pc.rest == [] {
      s' := Step(s, EndFlush(t));
      Then(s, t, EndFlush(t), s', [], s');
      return [EndFlush(t)] + [], s';
    }
    var s1 := Step(s, Destroy(t));
    acts, s' := DestroyEnds(s1, t);
    assert pc.rest == [pc.rest[0]] + pc.rest[1..];
    Then(s, t, Destroy(t), s1, acts, s');
    acts := [Destroy(t)] + acts;
  }
}
