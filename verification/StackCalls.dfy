/** The calls of the stacks: the effect of an operation is that of its call, on the stacks and with
    the nodes that the call names. */
module StackCalls {
  import opened Common
  import opened Stack
  import opened StackTheorems

  datatype Call =
    | Push(h: Hid, n: Node)
    | Batch(h: Hid, ns: seq<Node>)
    | Pop(h: Hid)
    | Swap(h1: Hid, h2: Hid)
    | Clear(h: Hid)

  /** The call that an action begins. */
  function CallOf(a: Action): Option<Call> {
    match a
    case CallPush(_, h, n) => Some(Push(h, n))
    case CallBatch(_, h, ns) => Some(Batch(h, ns))
    case CallPop(_, h) => Some(Pop(h))
    case CallSwap(_, h1, h2) => Some(Swap(h1, h2))
    case CallClear(_, h) => Some(Call.Clear(h))
    case _ => None
  }

  /** A thread at pc is in the call c, and the call has not taken effect. */
  predicate Serves(pc: Pc, c: Call) {
    match pc
    case PushLoad(h, n) => c == Push(h, n)
    case PushCas(h, n) => c == Push(h, n)
    case BatchLoad(h, ns) => c == Batch(h, ns)
    case BatchCas(h, ns, _) => c == Batch(h, ns)
    case PopLoad(h) => c == Pop(h)
    case PopNext(h, _) => c == Pop(h)
    case PopCas(h, _, _) => c == Pop(h)
    case SpinLoad(why) => SpinsFor(why, c)
    case SpinCas(why, _) => SpinsFor(why, c)
    case ClearStore(h, _) => c == Call.Clear(h)
    case _ => false
  }

  predicate SpinsFor(why: Why, c: Call) {
    match why
    case Swap1(h, h2) => c == Swap(h, h2)
    case Swap2(h, h1, _) => c == Swap(h1, h)
    case Clear(h) => c == Call.Clear(h)
  }

  /** The effects that a call may have. */
  predicate Fits(c: Call, event: Event) {
    match c
    case Push(h, n) => event == Pushed(h, [n])
    case Batch(h, ns) => event == Pushed(h, ns)
    case Pop(h) => (event.Popped? && event.h == h) || event == FoundEmpty(h)
    case Swap(h1, h2) => event == Swapped(h1, h2)
    case Clear(h) => event.Cleared? && event.h == h
  }

  /** Where a thread is when its operation has just taken effect: back, or about to finish. */
  predicate Finishes(pc: Pc, event: Event) {
    match event
    case Popped(_, n) => pc == PopUnlink(n)
    case Swapped(h1, h2) => pc.SwapStore1? && pc.h1 == h1 && pc.h2 == h2
    case _ => pc.Idle?
  }

  lemma CallBegins(s: State, a: Action)
    requires Enabled(s, a) && CallOf(a).Some?
    ensures a.t in s.threads && Serves(NextThread(s, a).pc, CallOf(a).value) && EventOf(s, a) == Nothing
  {
  }

  lemma CallGoesOn(s: State, a: Action, c: Call)
    requires Enabled(s, a) && a.t in s.threads && Serves(s.threads[a.t].pc, c)
    ensures if EventOf(s, a) == Nothing then Serves(NextThread(s, a).pc, c)
            else Fits(c, EventOf(s, a)) && Finishes(NextThread(s, a).pc, EventOf(s, a))
  {
  }

  lemma CallStays(s: State, a: Action, c: Call)
    requires Enabled(s, a) && a.t in s.threads && Serves(s.threads[a.t].pc, c) && EventOf(s, a) == Nothing
    ensures Serves(NextThread(s, a).pc, c)
  {
    CallGoesOn(s, a, c);
  }

  ghost predicate EffectAt(states: seq<State>, acts: seq<Action>, t: Tid, m: nat)
    requires IsRun(states, acts) && m < |acts|
  {
    acts[m].t == t && EventOf(states[m], acts[m]) != Nothing
  }

  /** No operation of t takes effect in the steps after i and before k. */
  ghost predicate NoEffect(states: seq<State>, acts: seq<Action>, t: Tid, i: nat, k: nat)
    requires IsRun(states, acts) && k <= |acts|
  {
    forall m: nat :: i < m < k ==> !EffectAt(states, acts, t, m)
  }

  lemma {:induction false} CallLasts(states: seq<State>, acts: seq<Action>, t: Tid, i: nat, k: nat)
    requires IsRun(states, acts) && i < k <= |acts| && CallOf(acts[i]).Some? && acts[i].t == t
    requires NoEffect(states, acts, t, i, k)
    ensures t in states[k].threads && Serves(states[k].threads[t].pc, CallOf(acts[i]).value)
    decreases k
  {
    var s, a := states[k - 1], acts[k - 1];
    assert Enabled(s, a) && states[k] == Step(s, a);
    if k == i + 1 {
      CallBegins(s, a);
    } else {
      CallLasts(states, acts, t, i, k - 1);
      if a.t == t {
        assert !EffectAt(states, acts, t, k - 1);
        CallStays(s, a, CallOf(acts[i]).value);
      }
    }
  }

  /** The first effect of a thread after a call is an effect of that call, on the stacks and with the
      nodes that it names; the thread does not return before it. */
  lemma CallTakesEffect(states: seq<State>, acts: seq<Action>, t: Tid, i: nat, k: nat)
    requires IsRun(states, acts) && i < k < |acts| && CallOf(acts[i]).Some? && acts[i].t == t && acts[k].t == t
    requires NoEffect(states, acts, t, i, k)
    ensures t in states[k].threads && !states[k].threads[t].pc.Idle?
    ensures EventOf(states[k], acts[k]) != Nothing ==>
              && Fits(CallOf(acts[i]).value, EventOf(states[k], acts[k]))
              && t in states[k + 1].threads
              && Finishes(states[k + 1].threads[t].pc, EventOf(states[k], acts[k]))
  {
    CallLasts(states, acts, t, i, k);
    CallGoesOn(states[k], acts[k], CallOf(acts[i]).value);
  }

  /** What a pop returns is the node that it has taken: it holds it until its next step, which cuts the
      link of the node and returns. */
  lemma {:induction false} PopReturns(states: seq<State>, acts: seq<Action>, t: Tid, i: nat, k: nat)
    requires IsRun(states, acts) && i < k <= |acts| && acts[i].t == t
    requires EventOf(states[i], acts[i]).Popped? && forall m :: i < m < k ==> acts[m].t != t
    ensures t in states[k].threads && states[k].threads[t].pc == PopUnlink(EventOf(states[i], acts[i]).n)
    ensures k < |acts| && acts[k].t == t ==> t in states[k + 1].threads && states[k + 1].threads[t].pc.Idle?
    decreases k
  {
    var s, a := states[k - 1], acts[k - 1];
    assert Enabled(s, a) && states[k] == Step(s, a);
    if k > i + 1 {
      PopReturns(states, acts, t, i, k - 1);
    } else {
      PopEffect(s, a);
    }
    if k < |acts| && acts[k].t == t {
      UnlinkReturns(states[k], acts[k]);
    }
  }

  lemma PopEffect(s: State, a: Action)
    requires Enabled(s, a) && EventOf(s, a).Popped?
    ensures a.t in s.threads && NextThread(s, a).pc == PopUnlink(EventOf(s, a).n)
  {
  }

  lemma UnlinkReturns(s: State, a: Action)
    requires Enabled(s, a) && a.t in s.threads && s.threads[a.t].pc.PopUnlink?
    ensures NextThread(s, a).pc.Idle?
  {
  }
}
