/** Operations on a queue that nobody else is using: they come to their end, also a push that has to
    grow the array. */
module QueueAlone {
  import opened Common
  import opened Queue
  import opened QueueInvariant
  import opened QueueTheorems
  import opened QueueDrained
  import opened QueueBlocked

  /** Thread t takes n steps from s to s'. */
  ghost predicate Alone(s: State, t: Tid, n: nat, s': State)
    decreases n
  {
    if n == 0 then s' == s else Enabled(s, Go(t)) && Alone(Step(s, Go(t)), t, n - 1, s')
  }

  lemma Then(s: State, t: Tid, s1: State, n: nat, s': State)
    requires Enabled(s, Go(t)) && s1 == Step(s, Go(t)) && Alone(s1, t, n, s')
    ensures Alone(s, t, n + 1, s')
  {
  }

  /** Thread t gets back from where it is in s within n steps, with one effect. */
  ghost predicate Finishes(s: State, t: Tid, n: nat, s': State) {
    && t in s.threads && Alone(s, t, n, s') && t in s'.threads
    && s'.threads[t].pc.Idle? && s'.threads[t].events == s.threads[t].events + 1
  }

  lemma FinishesThen(s: State, t: Tid, s1: State, n: nat, s': State)
    requires t in s.threads && Enabled(s, Go(t)) && s1 == Step(s, Go(t)) && t in s1.threads
    requires s1.threads[t].events == s.threads[t].events && Finishes(s1, t, n, s')
    ensures Finishes(s, t, n + 1, s')
  {
    Then(s, t, s1, n, s');
  }

  /** Thread t is in an operation and all others are idle. */
  ghost predicate Quiet(s: State, t: Tid) {
    && Inv(s) && t in s.threads && !s.threads[t].pc.Idle?
    && forall u :: u in s.threads && u != t ==> s.threads[u].pc.Idle?
  }

  lemma CanGo(s: State, t: Tid)
    requires Inv(s) && t in s.threads && !s.threads[t].pc.Idle?
    ensures Enabled(s, Go(t))
  {
    AlwaysInBounds(s, t);
  }

  lemma OneStep(s: State, t: Tid) returns (s': State)
    requires Quiet(s, t)
    ensures Enabled(s, Go(t)) && s' == Step(s, Go(t)) && t in s'.threads
    ensures s'.threads[t].pc == NextPc(s, s.threads[t].pc)
    ensures s'.threads[t].events == s.threads[t].events + if EventOf(s, Go(t)) == Nothing then 0 else 1
    ensures !Installs(s, Go(t)) && !s'.threads[t].pc.Idle? ==> Quiet(s', t)
    ensures !Installs(s, Go(t)) ==> Impl(s') == Impl(s)
  {
    CanGo(s, t);
    s' := Step(s, Go(t));
    if !Installs(s, Go(t)) {
      InvStep(s, Go(t));
    }
  }

  /** The installed array of a queue in which no other thread is under way. */
  lemma Settled(s: State, t: Tid)
    requires Quiet(s, t) && !s.threads[t].pc.PushBump? && !s.threads[t].pc.PopBump? && !Growing(s.threads[t].pc)
    ensures
      var arr := s.arrs[Impl(s)];
      && ArrShape(arr) && arr.pusher == None && arr.popper == None && arr.grower == None
      && forall i :: arr.dels <= i <= arr.cap ==> !arr.slots[i].x
  {
    var arr := s.arrs[Impl(s)];
    assert ArrOk(arr, true);
    forall u | u in s.threads ensures arr.pusher != Some(u) && arr.popper != Some(u) && arr.grower != Some(u) {
      assert OwnerOk(arr, Impl(s), u, s.threads[u].pc);
    }
  }

  // ----- pop -----

  lemma PopTakes(s: State, t: Tid) returns (s': State)
    requires Quiet(s, t) && s.threads[t].pc == PopSlot(Impl(s), s.arrs[Impl(s)].rd)
    requires s.arrs[Impl(s)].rd < s.arrs[Impl(s)].wr
    ensures Finishes(s, t, 3, s')
  {
    Settled(s, t);
    var s1 := OneStep(s, t);
    var s2 := OneStep(s1, t);
    s' := OneStep(s2, t);
    Then(s2, t, s', 0, s');
    Then(s1, t, s2, 1, s');
    Then(s, t, s1, 2, s');
  }

  /** A pop that runs alone returns within six steps. */
  lemma PopEnds(s: State, t: Tid) returns (n: nat, s': State)
    requires Quiet(s, t) && s.threads[t].pc.PopData?
    ensures n <= 6 && Finishes(s, t, n, s')
  {
    var s1 := OneStep(s, t);
    var s2 := OneStep(s1, t);
    var s3 := OneStep(s2, t);
    if s3.threads[t].pc.Idle? {
      n, s' := 3, s3;
      Then(s2, t, s3, 0, s3);
    } else {
      s' := PopTakes(s3, t);
      n := 6;
      FinishesThen(s2, t, s3, 3, s');
    }
    FinishesThen(s1, t, s2, n - 2, s');
    FinishesThen(s, t, s1, n - 1, s');
  }

  // ----- push -----

  lemma PushFills(s: State, t: Tid) returns (s': State)
    requires Quiet(s, t) && s.threads[t].pc.PushSlot? && s.threads[t].pc.q == Impl(s)
    requires s.threads[t].pc.curr == s.arrs[Impl(s)].wr < s.arrs[Impl(s)].cap
    ensures Finishes(s, t, 3, s')
  {
    Settled(s, t);
    var s1 := OneStep(s, t);
    var s2 := OneStep(s1, t);
    s' := OneStep(s2, t);
    Then(s2, t, s', 0, s');
    Then(s1, t, s2, 1, s');
    Then(s, t, s1, 2, s');
  }

  /** The copy loop of a growth, and the installation. */
  lemma {:induction false} CopyEnds(s: State, t: Tid) returns (n: nat, s': State)
    requires Quiet(s, t) && s.threads[t].pc.Copying? && s.threads[t].pc.q < |s.arrs|
    ensures Finishes(s, t, n, s')
    ensures
      var pc := s.threads[t].pc;
      n == 1 + if pc.i < s.arrs[pc.q].cap then s.arrs[pc.q].cap - pc.i else 0
    decreases
      var pc := s.threads[t].pc;
      if pc.i < s.arrs[pc.q].cap then s.arrs[pc.q].cap - pc.i else 0
  {
    var pc := s.threads[t].pc;
    var s1 := OneStep(s, t);
    if pc.i >= s.arrs[pc.q].cap {
      Then(s, t, s1, 0, s1);
      return 1, s1;
    }
    var m;
    m, s' := CopyEnds(s1, t);
    FinishesThen(s, t, s1, m, s');
    n := m + 1;
  }

  lemma MarkSucceeds(s: State, t: Tid) returns (s': State)
    requires Quiet(s, t) && s.threads[t].pc.RearmMark? && s.threads[t].pc.q == Impl(s)
    requires s.threads[t].pc.ix == s.arrs[Impl(s)].rd
    ensures Enabled(s, Go(t)) && s' == Step(s, Go(t)) && Quiet(s', t) && s'.threads[t].pc.RearmAlloc?
    ensures s'.threads[t].pc.q == Impl(s') == Impl(s) && s'.threads[t].events == s.threads[t].events
    ensures s'.arrs[Impl(s)].cap == s.arrs[Impl(s)].cap
  {
    Settled(s, t);
    s' := OneStep(s, t);
  }

  /** A step that only loads an index or a pointer. */
  lemma LoadStep(s: State, t: Tid) returns (s': State)
    requires Quiet(s, t)
    requires
      var pc := s.threads[t].pc;
      || pc.PushData?
      || ((pc.PushIdx? || pc.RearmIdx? || pc.RearmWait? || pc.RearmPeek? || pc.RearmAlloc?) && pc.q == Impl(s))
    ensures Enabled(s, Go(t)) && s' == Step(s, Go(t)) && s'.arrs == s.arrs && Quiet(s', t)
    ensures s'.threads[t].pc == NextPc(s, s.threads[t].pc) && s'.threads[t].events == s.threads[t].events
  {
    s' := OneStep(s, t);
    assert s.arrs[Impl(s) := s.arrs[Impl(s)]] == s.arrs;
  }

  lemma AllocEnds(s: State, t: Tid) returns (n: nat, s': State)
    requires Quiet(s, t) && s.threads[t].pc.RearmAlloc? && s.threads[t].pc.q == Impl(s)
    ensures n <= s.arrs[Impl(s)].cap + 2 && Finishes(s, t, n, s')
  {
    var s1 := LoadStep(s, t);
    var m;
    m, s' := CopyEnds(s1, t);
    FinishesThen(s, t, s1, m, s');
    n := m + 1;
  }

  lemma MarkEnds(s: State, t: Tid) returns (n: nat, s': State)
    requires Quiet(s, t) && s.threads[t].pc.RearmMark? && s.threads[t].pc.q == Impl(s)
    requires s.threads[t].pc.ix == s.arrs[Impl(s)].rd
    ensures n <= s.arrs[Impl(s)].cap + 3 && Finishes(s, t, n, s')
  {
    var s1 := MarkSucceeds(s, t);
    var m, s2 := AllocEnds(s1, t);
    FinishesThen(s, t, s1, m, s2);
    return m + 1, s2;
  }

  lemma GrowEnds(s: State, t: Tid) returns (n: nat, s': State)
    requires Quiet(s, t) && s.threads[t].pc.RearmIdx? && s.threads[t].pc.q == Impl(s)
    ensures n <= s.arrs[Impl(s)].cap + 4 && Finishes(s, t, n, s')
  {
    var s1 := LoadStep(s, t);
    var m;
    m, s' := MarkEnds(s1, t);
    FinishesThen(s, t, s1, m, s');
    n := m + 1;
  }

  lemma FullEnds(s: State, t: Tid) returns (n: nat, s': State)
    requires Quiet(s, t) && s.threads[t].pc.PushIdx? && s.threads[t].pc.q == Impl(s)
    requires s.arrs[Impl(s)].wr >= s.arrs[Impl(s)].cap
    ensures n <= s.arrs[Impl(s)].cap + 5 && Finishes(s, t, n, s')
  {
    var s1 := LoadStep(s, t);
    var m;
    m, s' := GrowEnds(s1, t);
    FinishesThen(s, t, s1, m, s');
    n := m + 1;
  }

  lemma RoomEnds(s: State, t: Tid) returns (s': State)
    requires Quiet(s, t) && s.threads[t].pc.PushIdx? && s.threads[t].pc.q == Impl(s)
    requires s.arrs[Impl(s)].wr < s.arrs[Impl(s)].cap
    ensures Finishes(s, t, 4, s')
  {
    var s1 := LoadStep(s, t);
    s' := PushFills(s1, t);
    FinishesThen(s, t, s1, 3, s');
  }

  /** A push that runs alone returns within a number of steps that the capacity bounds. */
  lemma PushEnds(s: State, t: Tid) returns (n: nat, s': State)
    requires Quiet(s, t) && s.threads[t].pc.PushData?
    ensures n <= s.arrs[Impl(s)].cap + 6 && Finishes(s, t, n, s')
  {
    var s1 := LoadStep(s, t);
    if s.arrs[Impl(s)].wr >= s.arrs[Impl(s)].cap {
      var m;
      m, s' := FullEnds(s1, t);
      n := m + 1;
    } else {
      s' := RoomEnds(s1, t);
      n := 5;
    }
    FinishesThen(s, t, s1, n - 1, s');
  }

  // ----- Waiting operations -----

  /** A push that waits at an unmarked slot starts over. */
  lemma PeekEnds(s: State, t: Tid) returns (n: nat, s': State)
    requires Quiet(s, t) && s.threads[t].pc.RearmPeek? && s.threads[t].pc.q == Impl(s)
    requires !Blocked(s, t)
    ensures Finishes(s, t, n, s')
  {
    Settled(s, t);
    BlockedIff(s, t);
    var s1 := LoadStep(s, t);
    var m;
    m, s' := GrowEnds(s1, t);
    FinishesThen(s, t, s1, m, s');
    n := m + 1;
  }

  lemma WaitEnds(s: State, t: Tid) returns (n: nat, s': State)
    requires Quiet(s, t) && s.threads[t].pc.RearmWait? && s.threads[t].pc.q == Impl(s)
    requires !Blocked(s, t)
    ensures Finishes(s, t, n, s')
  {
    var s1 := LoadStep(s, t);
    var m;
    m, s' := PeekEnds(s1, t);
    FinishesThen(s, t, s1, m, s');
    n := m + 1;
  }

  /** A push or pop that has waited for a new array, when it is there, starts over on it. */
  lemma StartsOver(s: State, t: Tid) returns (n: nat, s': State)
    requires Quiet(s, t) && (s.threads[t].pc.RearmWait? || s.threads[t].pc.PopWait?)
    requires s.threads[t].pc.q != Impl(s)
    ensures Finishes(s, t, n, s')
  {
    var s1 := OneStep(s, t);
    var m;
    if s.threads[t].pc.RearmWait? {
      m, s' := PushEnds(s1, t);
    } else {
      m, s' := PopEnds(s1, t);
    }
    FinishesThen(s, t, s1, m, s');
    n := m + 1;
  }

  /** When all others are idle, a waiting operation comes to its end alone if and only if it is not
      blocked. */
  lemma EndsUnlessBlocked(s: State, t: Tid)
    requires Quiet(s, t) && (s.threads[t].pc.RearmWait? || s.threads[t].pc.PopWait?)
    ensures Blocked(s, t) <==> !exists n, s' :: Finishes(s, t, n, s')
  {
    if Blocked(s, t) {
      forall n: nat, s': State ensures !Finishes(s, t, n, s') {
        if Alone(s, t, n, s') {
          StaysBlocked(s, t, n, s');
        }
      }
    } else if s.threads[t].pc.q != Impl(s) {
      var n, s' := StartsOver(s, t);
    } else {
      var n, s' := WaitEnds(s, t);
    }
  }

  lemma {:induction false} StaysBlocked(s: State, t: Tid, n: nat, s': State)
    requires Inv(s) && Blocked(s, t) && Alone(s, t, n, s')
    ensures t in s'.threads && !s'.threads[t].pc.Idle?
    decreases n
  {
    if n > 0 {
      BlockedStays(s, Go(t), t);
      InvStep(s, Go(t));
      StaysBlocked(Step(s, Go(t)), t, n - 1, s');
    }
  }
}
