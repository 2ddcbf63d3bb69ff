/** Operations on stacks that run without interruption: none of them waits or retries for ever when
    the spin bits that it needs are clear, wherever the other threads have stopped. */
module StackAlone {
  import opened Common
  import opened Stack
  import opened StackInvariant
  import opened StackTheorems
  import opened StackCalls

  /** Thread t takes n steps from s to s'. */
  ghost predicate Alone(s: State, t: Tid, n: nat, s': State)
    decreases n
  {
    if n == 0 then s' == s else Enabled(s, Go(t)) && Alone(Step(s, Go(t)), t, n - 1, s')
  }

  lemma Then(s: State, t: Tid, s1: State, n: nat, s': State)
    requires Enabled(s, Go(t)) && s1 == Step(s, Go(t)) && Alone(s1, t, n, s')
    ensures Alone(s, t, n + 1, s')
  {
  }

  predicate Clear(s: State, h: Hid) {
    h in s.heads && !s.heads[h].word.spin
  }

  /** Thread t gets back from where it is in s within n steps, with one effect. */
  ghost predicate Finishes(s: State, t: Tid, n: nat, s': State) {
    && t in s.threads && Alone(s, t, n, s') && t in s'.threads
    && s'.threads[t].pc.Idle? && s'.threads[t].events == s.threads[t].events + 1
  }

  lemma OneStep(s: State, t: Tid) returns (s': State)
    requires Inv(s) && t in s.threads && !s.threads[t].pc.Idle?
    ensures Inv(s') && Enabled(s, Go(t)) && s' == Step(s, Go(t)) && t in s'.threads
    ensures s'.threads[t].pc == NextPc(s, s.threads[t].pc)
    ensures s'.threads[t].events == s.threads[t].events + if EventOf(s, Go(t)) == Nothing then 0 else 1
  {
    assert PcOk(s, t, s.threads[t].pc);
    InvStep(s, Go(t));
    s' := Step(s, Go(t));
  }

  lemma PushFrom(s: State, t: Tid) returns (s': State)
    requires Inv(s) && t in s.threads && s.threads[t].pc.PushLoad? && Clear(s, s.threads[t].pc.h)
    ensures Finishes(s, t, 2, s')
  {
    var s1 := OneStep(s, t);
    s' := OneStep(s1, t);
    Then(s1, t, s', 0, s');
    Then(s, t, s1, 1, s');
  }

  lemma BatchFrom(s: State, t: Tid) returns (s': State)
    requires Inv(s) && t in s.threads && s.threads[t].pc.BatchLoad? && Clear(s, s.threads[t].pc.h)
    ensures Finishes(s, t, 2, s')
  {
    var s1 := OneStep(s, t);
    s' := OneStep(s1, t);
    Then(s1, t, s', 0, s');
    Then(s, t, s1, 1, s');
  }

  /** The exchange of a pop hits when its head has not changed. */
  lemma PopCasFrom(s: State, t: Tid) returns (s': State)
    requires Inv(s) && t in s.threads && s.threads[t].pc.PopCas? && s.threads[t].pc.h in s.heads
    requires s.heads[s.threads[t].pc.h].word == Ptr(s.threads[t].pc.n)
    ensures Finishes(s, t, 2, s')
  {
    var s1 := OneStep(s, t);
    s' := OneStep(s1, t);
    Then(s1, t, s', 0, s');
    Then(s, t, s1, 1, s');
  }

  lemma PopFrom(s: State, t: Tid) returns (n: nat, s': State)
    requires Inv(s) && t in s.threads && s.threads[t].pc.PopLoad? && Clear(s, s.threads[t].pc.h)
    ensures n <= 4 && Finishes(s, t, n, s')
  {
    var s1 := OneStep(s, t);
    if s.heads[s.threads[t].pc.h].word.node == None {
      Then(s, t, s1, 0, s1);
      return 1, s1;
    }
    var s2 := OneStep(s1, t);
    s' := PopCasFrom(s2, t);
    Then(s1, t, s2, 2, s');
    Then(s, t, s1, 3, s');
    n := 4;
  }

  lemma ClearFrom(s: State, t: Tid) returns (s': State)
    requires Inv(s) && t in s.threads && s.threads[t].pc.SpinLoad? && s.threads[t].pc.why.Clear?
    requires Clear(s, s.threads[t].pc.why.h)
    ensures Finishes(s, t, 3, s')
  {
    var s1 := OneStep(s, t);
    var s2 := OneStep(s1, t);
    s' := OneStep(s2, t);
    Then(s2, t, s', 0, s');
    Then(s1, t, s2, 1, s');
    Then(s, t, s1, 2, s');
  }

  lemma SwapStores(s: State, t: Tid) returns (s': State)
    requires Inv(s) && t in s.threads && s.threads[t].pc.SwapStore1?
    ensures t in s'.threads && s'.threads[t].pc.Idle? && s'.threads[t].events == s.threads[t].events
    ensures Alone(s, t, 2, s')
  {
    var s1 := OneStep(s, t);
    s' := OneStep(s1, t);
    Then(s1, t, s', 0, s');
    Then(s, t, s1, 1, s');
  }

  lemma SwapSecond(s: State, t: Tid) returns (s': State)
    requires Inv(s) && t in s.threads && s.threads[t].pc.SpinLoad? && s.threads[t].pc.why.Swap2?
    requires Clear(s, s.threads[t].pc.why.h)
    ensures Finishes(s, t, 4, s')
  {
    assert PcOk(s, t, s.threads[t].pc);
    var s1 := OneStep(s, t);
    var s2 := OneStep(s1, t);
    s' := SwapStores(s2, t);
    Then(s1, t, s2, 2, s');
    Then(s, t, s1, 3, s');
  }

  lemma SwapFrom(s: State, t: Tid) returns (s': State)
    requires Inv(s) && t in s.threads && s.threads[t].pc.SpinLoad? && s.threads[t].pc.why.Swap1?
    requires Clear(s, s.threads[t].pc.why.h) && Clear(s, s.threads[t].pc.why.h2)
    ensures Finishes(s, t, 6, s')
  {
    assert PcOk(s, t, s.threads[t].pc);
    var s1 := OneStep(s, t);
    var s2 := OneStep(s1, t);
    s' := SwapSecond(s2, t);
    Then(s1, t, s2, 4, s');
    Then(s, t, s1, 5, s');
  }

  /** The heads that a call works on. */
  function HeadsOf(c: Call): set<Hid> {
    match c
    case Push(h, _) => {h}
    case Batch(h, _) => {h}
    case Pop(h) => {h}
    case Swap(h1, h2) => {h1, h2}
    case Clear(h) => {h}
  }

  lemma CallStarts(s: State, a: Action)
    requires Enabled(s, a) && CallOf(a).Some?
    ensures NextHeads(s, a) == s.heads
  {
  }

  /** From the first step of a call to its end. */
  lemma RunsFrom(s: State, t: Tid, c: Call) returns (n: nat, s': State)
    requires Inv(s) && t in s.threads && Serves(s.threads[t].pc, c)
    requires
      var pc := s.threads[t].pc;
      pc.PushLoad? || pc.BatchLoad? || pc.PopLoad? || (pc.SpinLoad? && !pc.why.Swap2?)
    requires forall h {:trigger Clear(s, h)} :: h in HeadsOf(c) ==> Clear(s, h)
    ensures n <= 6 && Finishes(s, t, n, s')
  {
    match c
    case Push(h, _) =>
      assert Clear(s, h);
      s' := PushFrom(s, t);
      n := 2;
    case Batch(h, _) =>
      assert Clear(s, h);
      s' := BatchFrom(s, t);
      n := 2;
    case Pop(h) =>
      assert Clear(s, h);
      n, s' := PopFrom(s, t);
    case Swap(h1, h2) =>
      assert Clear(s, h1) && Clear(s, h2);
      s' := SwapFrom(s, t);
      n := 6;
    case Clear(h) =>
      assert Clear(s, h);
      s' := ClearFrom(s, t);
      n := 3;
  }

  /** A call whose thread runs alone from then on takes its effect and returns within six steps, in every
      reachable state in which the spin bits of its stacks are clear. */
  lemma RunsToItsEnd(s: State, a: Action) returns (n: nat, s': State)
    requires Inv(s) && Enabled(s, a) && CallOf(a).Some?
    requires forall h {:trigger Clear(s, h)} :: h in HeadsOf(CallOf(a).value) ==> Clear(s, h)
    ensures n <= 6 && Finishes(Step(s, a), a.t, n, s')
  {
    InvStep(s, a);
    CallBegins(s, a);
    CallStarts(s, a);
    forall h | h in HeadsOf(CallOf(a).value) ensures Clear(Step(s, a), h) {
      assert Clear(s, h);
    }
    n, s' := RunsFrom(Step(s, a), a.t, CallOf(a).value);
  }
}
