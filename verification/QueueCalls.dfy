/** The calls of the queue: the effect of a push is that of the value of its call, what a pop
    returns is what its exchange took, and FIFO order holds for the values of the calls. */
module QueueCalls {
  import opened Common
  import opened Queue
  import opened QueueInvariant
  import opened QueueTheorems

  /** Inside push, and inside pop up to its effect. */
  predicate Pushing(pc: Pc) {
    && !pc.Idle? && !pc.PopData? && !pc.PopRd? && !pc.PopWr? && !pc.PopSlot? && !pc.PopCas? && !pc.PopBump?
    && !pc.PopWait?
  }

  predicate Popping(pc: Pc) {
    pc.PopData? || pc.PopRd? || pc.PopWr? || pc.PopSlot? || pc.PopCas? || pc.PopWait?
  }

  /** Step a of state s ends the wait for the effect of its thread's operation. */
  predicate TakesEffect(s: State, a: Action)
    requires Enabled(s, a)
  {
    EventOf(s, a) != Nothing || a.AllocFail?
  }

  lemma PushGoesOn(s: State, a: Action, v: Value)
    requires Enabled(s, a) && a.t in s.threads && Pushing(s.threads[a.t].pc) && s.threads[a.t].pc.v == v
    ensures
      var pc := NextThread(s, a).pc;
      if TakesEffect(s, a) then (EventOf(s, a) == Pushed(v) || a.AllocFail?) && pc.Idle?
      else Pushing(pc) && pc.v == v
  {
  }

  lemma PopGoesOn(s: State, a: Action)
    requires Enabled(s, a) && a.t in s.threads && Popping(s.threads[a.t].pc)
    ensures
      var pc := NextThread(s, a).pc;
      match EventOf(s, a)
      case FoundEmpty => pc.Idle?
      case Popped(e) => pc.PopBump? && pc.rv.e == e
      case Nothing => Popping(pc)
      case Pushed(_) => false
  {
  }

  /** Inside _Rearm. */
  predicate Rearming(pc: Pc) {
    pc.RearmIdx? || pc.RearmMark? || pc.RearmWait? || pc.RearmPeek? || Growing(pc)
  }

  /** A push turns to growing the array exactly when it finds it full or meets a mark, and then the array
      is full. */
  lemma GrowsIff(s: State, a: Action)
    requires Inv(s) && Enabled(s, a) && a.Go? && !Rearming(s.threads[a.t].pc)
    ensures
      var pc := s.threads[a.t].pc;
      Rearming(NextThread(s, a).pc)
      <==> (pc.PushIdx? && s.arrs[pc.q].wr >= s.arrs[pc.q].cap) || (pc.PushSlot? && s.arrs[pc.q].slots[pc.curr].x)
    ensures Rearming(NextThread(s, a).pc) ==>
              var arr := s.arrs[s.threads[a.t].pc.q];
              NextThread(s, a).pc.q == s.threads[a.t].pc.q && arr.wr == arr.cap
  {
    if Target(s.threads[a.t].pc).Some? {
      Working(s, a.t);
    }
  }

  lemma PushStays(s: State, a: Action, v: Value)
    requires Enabled(s, a) && a.t in s.threads && Pushing(s.threads[a.t].pc) && s.threads[a.t].pc.v == v
    requires !TakesEffect(s, a)
    ensures Pushing(NextThread(s, a).pc) && NextThread(s, a).pc.v == v
  {
    PushGoesOn(s, a, v);
  }

  lemma PopStays(s: State, a: Action)
    requires Enabled(s, a) && a.t in s.threads && Popping(s.threads[a.t].pc) && !TakesEffect(s, a)
    ensures Popping(NextThread(s, a).pc)
  {
    PopGoesOn(s, a);
  }

  // ----- Whole runs -----

  ghost predicate EffectAt(cap: nat, states: seq<State>, acts: seq<Action>, t: Tid, m: nat)
    requires IsRun(cap, states, acts) && m < |acts|
  {
    acts[m].t == t && TakesEffect(states[m], acts[m])
  }

  /** No operation of t takes effect in the steps after i and before k. */
  ghost predicate NoEffect(cap: nat, states: seq<State>, acts: seq<Action>, t: Tid, i: nat, k: nat)
    requires IsRun(cap, states, acts) && k <= |acts|
  {
    forall m: nat :: i < m < k ==> !EffectAt(cap, states, acts, t, m)
  }

  lemma {:induction false} PushLasts(cap: nat, states: seq<State>, acts: seq<Action>, t: Tid, i: nat, k: nat)
    requires IsRun(cap, states, acts) && i < k <= |acts| && acts[i].CallPush? && acts[i].t == t
    requires NoEffect(cap, states, acts, t, i, k)
    ensures t in states[k].threads && Pushing(states[k].threads[t].pc) && states[k].threads[t].pc.v == acts[i].v
    decreases k
  {
    var s, a := states[k - 1], acts[k - 1];
    assert Enabled(s, a) && states[k] == Step(s, a);
    if k > i + 1 {
      PushLasts(cap, states, acts, t, i, k - 1);
      if a.t == t {
        assert !EffectAt(cap, states, acts, t, k - 1);
        PushStays(s, a, acts[i].v);
      }
    }
  }

  /** The first effect of a thread after its call push(v) is that of pushing v, unless its allocation
      fails; it returns with that effect and not before. */
  lemma PushCall(cap: nat, states: seq<State>, acts: seq<Action>, t: Tid, v: Value, i: nat, k: nat)
    requires IsRun(cap, states, acts) && i < k < |acts| && acts[i] == CallPush(t, v) && acts[k].t == t
    requires NoEffect(cap, states, acts, t, i, k)
    ensures t in states[k].threads && !states[k].threads[t].pc.Idle?
    ensures TakesEffect(states[k], acts[k]) ==>
              && (EventOf(states[k], acts[k]) == Pushed(v) || acts[k].AllocFail?)
              && t in states[k + 1].threads && states[k + 1].threads[t].pc.Idle?
  {
    PushLasts(cap, states, acts, t, i, k);
    PushGoesOn(states[k], acts[k], v);
  }

  lemma {:induction false} PopLasts(cap: nat, states: seq<State>, acts: seq<Action>, t: Tid, i: nat, k: nat)
    requires IsRun(cap, states, acts) && i < k <= |acts| && acts[i] == CallPop(t)
    requires NoEffect(cap, states, acts, t, i, k)
    ensures t in states[k].threads && Popping(states[k].threads[t].pc)
    decreases k
  {
    var s, a := states[k - 1], acts[k - 1];
    assert Enabled(s, a) && states[k] == Step(s, a);
    if k > i + 1 {
      PopLasts(cap, states, acts, t, i, k - 1);
      if a.t == t {
        assert !EffectAt(cap, states, acts, t, k - 1);
        PopStays(s, a);
      }
    }
  }

  /** The first effect of a thread after its call of pop is that of a pop or of an empty answer. With an
      empty answer it returns at once. */
  lemma PopCall(cap: nat, states: seq<State>, acts: seq<Action>, t: Tid, i: nat, k: nat)
    requires IsRun(cap, states, acts) && i < k < |acts| && acts[i] == CallPop(t) && acts[k].t == t
    requires NoEffect(cap, states, acts, t, i, k)
    ensures t in states[k].threads && !states[k].threads[t].pc.Idle?
    ensures TakesEffect(states[k], acts[k]) ==>
              EventOf(states[k], acts[k]).Popped? || EventOf(states[k], acts[k]) == FoundEmpty
    ensures EventOf(states[k], acts[k]) == FoundEmpty ==>
              t in states[k + 1].threads && states[k + 1].threads[t].pc.Idle?
  {
    PopLasts(cap, states, acts, t, i, k);
    PopGoesOn(states[k], acts[k]);
  }

  /** What a pop that has taken an element returns is that element: until its next step, which bumps
      the index and returns, it holds it. */
  lemma {:induction false} PopReturns(cap: nat, states: seq<State>, acts: seq<Action>, t: Tid, i: nat, k: nat)
    requires IsRun(cap, states, acts) && i < k <= |acts| && acts[i].t == t
    requires EventOf(states[i], acts[i]).Popped? && forall m :: i < m < k ==> acts[m].t != t
    ensures t in states[k].threads
    ensures states[k].threads[t].pc.PopBump? && states[k].threads[t].pc.rv.e == EventOf(states[i], acts[i]).e
    ensures k < |acts| && acts[k].t == t ==> t in states[k + 1].threads && states[k + 1].threads[t].pc.Idle?
    decreases k
  {
    var s, a := states[k - 1], acts[k - 1];
    assert Enabled(s, a) && states[k] == Step(s, a);
    if k > i + 1 {
      PopReturns(cap, states, acts, t, i, k - 1);
    }
  }

  // ----- FIFO order of the calls -----

  /** The value of the last call of push by t before step k. */
  function LastPush(acts: seq<Action>, t: Tid, k: nat): Value
    requires k <= |acts|
  {
    if k == 0 then 0
    else if acts[k - 1].CallPush? && acts[k - 1].t == t then acts[k - 1].v
    else LastPush(acts, t, k - 1)
  }

  lemma {:induction false} PushKnows(cap: nat, states: seq<State>, acts: seq<Action>, k: nat, t: Tid)
    requires IsRun(cap, states, acts) && k <= |acts| && t in states[k].threads && Pushing(states[k].threads[t].pc)
    ensures states[k].threads[t].pc.v == LastPush(acts, t, k)
  {
    if k > 0 {
      var s, a := states[k - 1], acts[k - 1];
      assert Enabled(s, a) && states[k] == Step(s, a);
      if a.t != t {
        PushKnows(cap, states, acts, k - 1, t);
      } else if !a.CallPush? {
        PushHadBegun(s, a);
        PushKnows(cap, states, acts, k - 1, t);
        PushGoesOn(s, a, s.threads[t].pc.v);
      }
    }
  }

  /** Only a call of push leads into push. */
  lemma PushHadBegun(s: State, a: Action)
    requires Enabled(s, a) && !a.CallPush? && Pushing(NextThread(s, a).pc)
    ensures a.t in s.threads && Pushing(s.threads[a.t].pc)
  {
  }

  /** The values of the calls whose pushes have taken effect in the first k steps, in that order. */
  ghost function CallsPushed(cap: nat, states: seq<State>, acts: seq<Action>, k: nat): seq<Elem>
    requires IsRun(cap, states, acts) && k <= |acts|
  {
    if k == 0 then []
    else
      CallsPushed(cap, states, acts, k - 1)
      + if EventOf(states[k - 1], acts[k - 1]).Pushed? then [Val(LastPush(acts, acts[k - 1].t, k - 1))] else []
  }

  lemma PushedIsPushing(s: State, a: Action)
    requires Enabled(s, a) && EventOf(s, a).Pushed?
    ensures a.t in s.threads && Pushing(s.threads[a.t].pc) && EventOf(s, a).v == s.threads[a.t].pc.v
  {
  }

  lemma {:induction false} CallsArePushes(cap: nat, states: seq<State>, acts: seq<Action>, k: nat)
    requires IsRun(cap, states, acts) && k <= |acts|
    ensures CallsPushed(cap, states, acts, k) == PushesUpTo(cap, states, acts, k)
  {
    if k > 0 {
      CallsArePushes(cap, states, acts, k - 1);
      var s, a := states[k - 1], acts[k - 1];
      if EventOf(s, a).Pushed? {
        PushedIsPushing(s, a);
        PushKnows(cap, states, acts, k - 1, a.t);
      }
    }
  }

  /** First in, first out, for the values of the calls: as long as no drained array is grown, what pops
      have taken and what is left is exactly what the calls have asked to be pushed, in the order in
      which they took effect. */
  lemma CallsFifo(cap: nat, states: seq<State>, acts: seq<Action>, k: nat)
    requires cap >= 1 && IsRun(cap, states, acts) && k <= |acts| && GoodUntil(cap, states, acts, k)
    ensures states[k].arrs != []
    ensures CallsPushed(cap, states, acts, k) == PopsUpTo(cap, states, acts, k) + QueueOf(states[k])
  {
    CallsArePushes(cap, states, acts, k);
    Fifo(cap, states, acts, k);
  }
}
