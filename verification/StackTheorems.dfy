/** The stacks over whole runs: atomic operations on sequences, and safe destruction of nodes. */
module StackTheorems {
  import opened Common
  import opened Stack
  import opened StackInvariant

  // ----- One step -----

  lemma PushIsFresh(s: State, a: Action, h: Hid)
    requires Inv(s) && Enabled(s, a) && h in s.heads && EventOf(s, a).Pushed?
    ensures forall n :: n in EventOf(s, a).ns ==> n !in s.heads[h].spec
  {
    EventHeads(s, a);
    assert HeadOk(s, s.heads[h]);
  }

  lemma PopTakesFirst(s: State, a: Action)
    requires Inv(s) && Enabled(s, a) && EventOf(s, a).Popped?
    ensures EventOf(s, a).h in s.heads
    ensures
      var e := EventOf(s, a);
      s.heads[e.h].spec == [e.n] + Rest(s.heads[e.h].spec)
  {
    PopHits(s, a.t);
  }

  lemma EmptyIsEmpty(s: State, a: Action)
    requires Inv(s) && Enabled(s, a) && EventOf(s, a).FoundEmpty?
    ensures EventOf(s, a).h in s.heads && s.heads[EventOf(s, a).h].spec == []
  {
    assert HeadOk(s, s.heads[EventOf(s, a).h]);
  }

  lemma ClearGetsAll(s: State, a: Action)
    requires Inv(s) && Enabled(s, a) && EventOf(s, a).Cleared?
    ensures EventOf(s, a).h in s.heads
    ensures IsChain(s.next, EventOf(s, a).first, s.heads[EventOf(s, a).h].spec)
  {
    assert PcOk(s, a.t, s.threads[a.t].pc);
    assert HeadOk(s, s.heads[EventOf(s, a).h]);
  }

  /** The answer that an event stands for is right for the stacks before it. */
  ghost predicate Answers(s: State, e: Event) {
    match e
    case Pushed(_, ns) => forall h, n :: h in s.heads && n in ns ==> n !in s.heads[h].spec
    case Popped(h, n) => h in s.heads && s.heads[h].spec == [n] + Rest(s.heads[h].spec)
    case FoundEmpty(h) => h in s.heads && s.heads[h].spec == []
    case Swapped(h1, h2) => h1 in s.heads && h2 in s.heads && h1 != h2
    case Cleared(h, first) => h in s.heads && IsChain(s.next, first, s.heads[h].spec)
    case Nothing => true
  }

  lemma AnswersRight(s: State, a: Action)
    requires Inv(s) && Enabled(s, a)
    ensures Answers(s, EventOf(s, a))
  {
    match EventOf(s, a)
    case Pushed(_, ns) =>
      forall h | h in s.heads ensures forall n :: n in ns ==> n !in s.heads[h].spec {
        PushIsFresh(s, a, h);
      }
    case Popped(_, _) => PopTakesFirst(s, a);
    case FoundEmpty(_) => EmptyIsEmpty(s, a);
    case Swapped(_, _) => EventHeads(s, a);
    case Cleared(_, _) => ClearGetsAll(s, a);
    case Nothing =>
  }

  /** Every step acts on the abstract stacks as its event says, and the answers are right: a pop
      takes the first node, "empty" is said of an empty stack, a clear gets the whole chain. A
      push links nodes that are in no stack. */
  lemma Linearizes(s: State, a: Action, h: Hid)
    requires Inv(s) && Enabled(s, a) && h in s.heads
    ensures h in Step(s, a).heads && Step(s, a).heads[h].spec == SpecAfter(s.heads, EventOf(s, a), h)
    ensures Answers(s, EventOf(s, a))
  {
    HeadsStay(s, a, h);
    SpecEffect(s, a, h);
    AnswersRight(s, a);
  }

  /** Whenever its spin bit is clear, a head leads through exactly the nodes of its abstract
      stack; and no node is in two stacks, or twice in one, so the chains are acyclic. */
  lemma PhysicalStack(s: State, g: Hid, h: Hid)
    requires Inv(s) && g in s.heads && h in s.heads
    ensures !s.heads[h].word.spin ==> IsChain(s.next, s.heads[h].word.node, s.heads[h].spec)
    ensures Distinct(s.heads[h].spec)
    ensures g != h ==> Disjoint(s.heads[g].spec, s.heads[h].spec)
  {
    assert HeadOk(s, s.heads[h]);
  }

  /** No thread ever touches a destroyed node, or a head that does not exist. */
  lemma AlwaysTouchable(s: State, t: Tid)
    requires Inv(s) && t in s.threads
    ensures Touchable(s, s.threads[t].pc)
  {
    assert PcOk(s, t, s.threads[t].pc);
  }

  // ----- Whole runs -----

  ghost predicate IsRun(states: seq<State>, acts: seq<Action>) {
    && |states| == |acts| + 1
    && states[0] == INIT
    && forall k {:trigger acts[k]} :: 0 <= k < |acts| ==>
         Enabled(states[k], acts[k]) && states[k + 1] == Step(states[k], acts[k])
  }

  lemma {:induction false} RunInv(states: seq<State>, acts: seq<Action>, k: nat)
    requires IsRun(states, acts) && k < |states|
    ensures Inv(states[k])
  {
    if k == 0 {
      InitInv();
    } else {
      RunInv(states, acts, k - 1);
      InvStep(states[k - 1], acts[k - 1]);
    }
  }

  /** Step a of state s takes node n out of a stack, by a pop or by a clear. */
  predicate TakesNode(s: State, a: Action, n: Node)
    requires Enabled(s, a)
  {
    match EventOf(s, a)
    case Popped(_, m) => m == n
    case Cleared(h, _) => h in s.heads && n in s.heads[h].spec
    case _ => false
  }

  predicate Gone(s: State, n: Node) {
    n in s.loc && (s.loc[n].Unlinking? || s.loc[n].Retired?)
  }

  lemma TakingRetires(s: State, a: Action, n: Node)
    requires Inv(s) && Enabled(s, a) && TakesNode(s, a, n)
    ensures n in s.loc && s.loc[n] == Linked && Gone(Step(s, a), n)
  {
    if EventOf(s, a).Popped? {
      PopHits(s, a.t);
    } else {
      assert HeadOk(s, s.heads[EventOf(s, a).h]);
    }
  }

  lemma {:induction false} GoneStays(states: seq<State>, acts: seq<Action>, i: nat, k: nat, n: Node)
    requires IsRun(states, acts) && i <= k < |states| && Gone(states[i], n)
    ensures Gone(states[k], n)
    decreases k
  {
    if k > i {
      GoneStays(states, acts, i, k - 1, n);
      RunInv(states, acts, k - 1);
      GoneStep(states[k - 1], acts[k - 1], n);
    }
  }

  lemma GoneStep(s: State, a: Action, n: Node)
    requires Inv(s) && Enabled(s, a) && Gone(s, n)
    ensures Gone(Step(s, a), n)
  {
    LocKept(s, a, n);
    if s.loc[n].Unlinking? {
      UnlinkingStays(s, a, n);
    }
  }

  lemma TakenIsGone(states: seq<State>, acts: seq<Action>, i: nat, n: Node)
    requires IsRun(states, acts) && i < |acts| && TakesNode(states[i], acts[i], n)
    ensures Gone(states[i + 1], n) && !Gone(states[i], n)
  {
    RunInv(states, acts, i);
    TakingRetires(states[i], acts[i], n);
  }

  /** Every pushed node leaves the stacks at most once, whether by a pop or by a clear. */
  lemma TakenOnce(states: seq<State>, acts: seq<Action>, i: nat, j: nat, n: Node)
    requires IsRun(states, acts) && i < j < |acts|
    requires TakesNode(states[i], acts[i], n)
    ensures !TakesNode(states[j], acts[j], n)
  {
    TakenIsGone(states, acts, i, n);
    GoneStays(states, acts, i + 1, j, n);
    if TakesNode(states[j], acts[j], n) {
      TakenIsGone(states, acts, j, n);
    }
  }

  lemma {:induction false} GarbageStays(states: seq<State>, acts: seq<Action>, i: nat, k: nat, x: nat)
    requires IsRun(states, acts) && i <= k < |states| && x < |states[i].fin|
    ensures x < |states[k].fin| && states[k].fin[x].nodes == states[i].fin[x].nodes
    ensures states[i].fin[x].destroyed ==> states[k].fin[x].destroyed
    decreases k
  {
    if k > i {
      GarbageStays(states, acts, i, k - 1, x);
      FinChange(states[k - 1], acts[k - 1]);
    }
  }

  /** A destruction walks a whole retired chain, none of which has been destroyed before. */
  lemma DestroysOneChain(states: seq<State>, acts: seq<Action>, i: nat)
    requires IsRun(states, acts) && i < |acts| && acts[i].Destroy?
    ensures acts[i].i < |states[i].fin| && !states[i].fin[acts[i].i].destroyed
    ensures acts[i].ns == states[i].fin[acts[i].i].nodes
    ensures acts[i].i < |states[i + 1].fin| && states[i + 1].fin[acts[i].i].destroyed
    ensures states[i + 1].fin[acts[i].i].nodes == acts[i].ns
  {
    RunInv(states, acts, i);
    DestroyExact(states[i], acts[i]);
    FinChange(states[i], acts[i]);
  }

  lemma RetiredApart(states: seq<State>, acts: seq<Action>, k: nat, x: nat, y: nat)
    requires IsRun(states, acts) && k < |states| && x < |states[k].fin| && y < |states[k].fin| && x != y
    ensures Disjoint(states[k].fin[x].nodes, states[k].fin[y].nodes)
  {
    RunInv(states, acts, k);
  }

  /** The chain walks of two destructions never meet: every node is destroyed at most once. */
  lemma DestroyedOnce(states: seq<State>, acts: seq<Action>, i: nat, j: nat)
    requires IsRun(states, acts) && i < j < |acts| && acts[i].Destroy? && acts[j].Destroy?
    ensures Disjoint(acts[i].ns, acts[j].ns)
  {
    DestroysOneChain(states, acts, i);
    DestroysOneChain(states, acts, j);
    GarbageStays(states, acts, i + 1, j, acts[i].i);
    RetiredApart(states, acts, j, acts[i].i, acts[j].i);
  }

  /** The thread has begun an operation that has not taken effect. */
  predicate Pending(pc: Pc) {
    match pc
    case Idle => false
    case PopUnlink(_) => false
    case SwapStore1(_, _, _, _) => false
    case SwapStore2(_, _) => false
    case _ => true
  }

  /** Every operation takes effect exactly once, between its call and its return. */
  lemma {:induction false} TakesEffectOnce(states: seq<State>, acts: seq<Action>, k: nat, t: Tid)
    requires IsRun(states, acts) && k < |states| && t in states[k].threads
    ensures
      var th := states[k].threads[t];
      th.calls == th.events + (if Pending(th.pc) then 1 else 0)
  {
    if k > 0 {
      var s, a := states[k - 1], acts[k - 1];
      assert Enabled(s, a) && states[k] == Step(s, a);
      if t in s.threads {
        TakesEffectOnce(states, acts, k - 1, t);
        EffectStep(s, a, t);
      }
    }
  }

  lemma EffectStep(s: State, a: Action, t: Tid)
    requires Enabled(s, a) && t in s.threads
    requires s.threads[t].calls == s.threads[t].events + (if Pending(s.threads[t].pc) then 1 else 0)
    ensures
      var th := Step(s, a).threads[t];
      th.calls == th.events + (if Pending(th.pc) then 1 else 0)
  {
  }
}
