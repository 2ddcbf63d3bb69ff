/** The inductive invariant of the stacks. */
module StackInvariant {
  import opened Common
  import opened Stack

  /** The abstract stack of every head is the chain that hangs off its root; the head word shows
      that root whenever its spin bit is clear. */
  ghost predicate HeadOk(s: State, hd: Head) {
    && IsChain(s.next, hd.root, hd.spec)
    && (hd.word.spin <==> hd.owner.Some?)
    && (!hd.word.spin ==> hd.word.node == hd.root)
    && (hd.owner.Some? ==> hd.owner.value in s.threads)
    && (forall i :: 0 <= i < |hd.spec| ==> hd.spec[i] in s.loc && s.loc[hd.spec[i]] == Linked)
  }

  /** No node is in two abstract stacks, or twice in one. */
  ghost predicate SpecsDisjoint(heads: map<Hid, Head>) {
    && (forall h :: h in heads ==> Distinct(heads[h].spec))
    && (forall g, h :: g in heads && h in heads && g != h ==> Disjoint(heads[g].spec, heads[h].spec))
  }

  ghost predicate HeadInv(s: State) {
    (forall h :: h in s.heads ==> HeadOk(s, s.heads[h])) && SpecsDisjoint(s.heads)
  }

  /** Nodes that are not retired are allocated, and linked ones point to plain nodes. */
  ghost predicate NodeInv(s: State) {
    && (forall n :: n in s.loc && s.loc[n] != Retired ==> n in s.next)
    && (forall n :: n in s.loc && s.loc[n] == Linked ==> n in s.next && !s.next[n].spin)
    && (forall n :: n in s.next ==> n in s.loc)
  }

  /** The heads whose spin bit a thread has set. */
  predicate Holds(pc: Pc, h: Hid) {
    match pc
    case SpinLoad(why) => why.Swap2? && why.h1 == h
    case SpinCas(why, _) => why.Swap2? && why.h1 == h
    case SwapStore1(h1, h2, _, _) => h == h1 || h == h2
    case SwapStore2(h2, _) => h == h2
    case ClearStore(g, _) => h == g
    case _ => false
  }

  ghost predicate OwnerInv(s: State) {
    forall h, t :: h in s.heads && t in s.threads ==>
      (s.heads[h].owner == Some(t) <==> Holds(s.threads[t].pc, h))
  }

  predicate WhyOk(s: State, why: Why) {
    match why
    case Swap1(h, h2) => h in s.heads && h2 in s.heads && h != h2
    case Swap2(h, h1, ln) => h in s.heads && h1 in s.heads && h != h1 && s.heads[h1].root == ln
    case Clear(h) => h in s.heads
  }

  predicate Owned(s: State, t: Tid, n: Node) {
    n in s.next && n in s.loc && s.loc[n] == Private(t)
  }

  /** A popper may hold a node that others have taken meanwhile, but not one that can be destroyed:
      its own critical section guards it. */
  ghost predicate Safe(s: State, t: Tid, n: Node) {
    && n in s.next && n in s.loc && !s.loc[n].Private?
    && forall i :: 0 <= i < |s.fin| && n in s.fin[i].nodes ==>
         !s.fin[i].destroyed && StillOpen(s.threads, s.fin[i].guards, t)
  }

  /** The nodes of a batch are chained up to the last one. */
  ghost predicate BatchOk(s: State, t: Tid, ns: seq<Node>) {
    && ns != [] && Distinct(ns)
    && (forall i :: 0 <= i < |ns| ==> Owned(s, t, ns[i]))
    && (forall i, j :: 0 <= i < |ns| - 1 && j == i + 1 ==> s.next[ns[i]] == Ptr(ns[j]))
  }

  ghost predicate PcOk(s: State, t: Tid, pc: Pc) {
    match pc
    case Idle => true
    case PushLoad(h, n) => h in s.heads && Owned(s, t, n)
    case PushCas(h, n) => h in s.heads && Owned(s, t, n)
    case BatchLoad(h, ns) => h in s.heads && BatchOk(s, t, ns)
    case BatchCas(h, ns, tmp) =>
      h in s.heads && BatchOk(s, t, ns) && s.next[ns[|ns| - 1]] == tmp && !tmp.spin
    case PopLoad(h) => h in s.heads
    case PopNext(h, n) => h in s.heads && Safe(s, t, n)
    case PopCas(h, n, nx) => h in s.heads && Safe(s, t, n) && (s.loc[n] == Linked ==> s.next[n] == nx)
    case PopUnlink(n) => n in s.next && n in s.loc && s.loc[n] == Unlinking(t)
    case SpinLoad(why) => WhyOk(s, why)
    case SpinCas(why, tmp) => WhyOk(s, why) && !tmp.spin
    case SwapStore1(h1, h2, ln, rn) =>
      h1 in s.heads && h2 in s.heads && h1 != h2 && s.heads[h1].root == rn && s.heads[h2].root == ln
    case SwapStore2(h2, ln) => h2 in s.heads && s.heads[h2].root == ln
    case ClearStore(h, ret) => h in s.heads && s.heads[h].root == ret
  }

  ghost predicate PcInv(s: State) {
    forall t :: t in s.threads ==> PcOk(s, t, s.threads[t].pc)
  }

  /** Retired chains stay as they were until they are destroyed, and share no node. */
  ghost predicate GarbageOk(s: State, g: Garbage) {
    && g.nodes != [] && g.root == g.nodes[0]
    && (!g.destroyed ==> IsChain(s.next, Some(g.root), g.nodes))
    && (forall k :: 0 <= k < |g.nodes| ==> g.nodes[k] in s.loc && s.loc[g.nodes[k]] == Retired)
  }

  ghost predicate FinDisjoint(fin: seq<Garbage>) {
    && (forall i :: 0 <= i < |fin| ==> Distinct(fin[i].nodes))
    && (forall i, j :: 0 <= i < |fin| && 0 <= j < |fin| && i != j ==> Disjoint(fin[i].nodes, fin[j].nodes))
  }

  ghost predicate FinInv(s: State) {
    (forall i :: 0 <= i < |s.fin| ==> GarbageOk(s, s.fin[i])) && FinDisjoint(s.fin)
  }

  ghost predicate Inv(s: State) {
    HeadInv(s) && NodeInv(s) && OwnerInv(s) && PcInv(s) && FinInv(s)
  }

  lemma InitInv()
    ensures Inv(INIT)
  {
  }

  // ----- Chains -----

  lemma ChainTail(next: map<Node, Word>, p: Option<Node>, ns: seq<Node>)
    requires IsChain(next, p, ns) && ns != []
    ensures IsChain(next, next[ns[0]].node, ns[1..])
  {
    forall i | 0 <= i < |ns| - 1
      ensures After(ns[1..], i) == After(ns, i + 1)
    {
    }
    assert forall i :: 0 <= i < |ns| - 1 ==> ns[1..][i] == ns[i + 1];
  }

  /** A chain is determined by where it starts. */
  lemma {:induction false} ChainUnique(next: map<Node, Word>, p: Option<Node>, ns: seq<Node>, ms: seq<Node>)
    requires IsChain(next, p, ns) && IsChain(next, p, ms)
    ensures ns == ms
    decreases |ns|
  {
    if ns != [] {
      assert ms != [] && ms[0] == ns[0];
      ChainTail(next, p, ns);
      ChainTail(next, p, ms);
      ChainUnique(next, next[ns[0]].node, ns[1..], ms[1..]);
    }
  }

  /** A chain survives changes to nodes outside it. */
  lemma ChainKept(next: map<Node, Word>, next': map<Node, Word>, p: Option<Node>, ns: seq<Node>)
    requires IsChain(next, p, ns)
    requires forall i :: 0 <= i < |ns| ==> ns[i] in next' && next'[ns[i]] == next[ns[i]]
    ensures IsChain(next', p, ns)
  {
  }

  lemma {:induction false} BuildChainLinks(ns: seq<Node>, i: nat)
    requires Distinct(ns) && i < |ns|
    ensures BuildChain(ns).Keys == set n | n in ns
    ensures BuildChain(ns)[ns[i]] == Word(After(ns, i), false)
  {
    assert ns == [ns[0]] + ns[1..];
    if |ns| > 1 {
      BuildChainLinks(ns[1..], if i > 0 then i - 1 else 0);
    } else {
      assert BuildChain(ns[1..]) == map[];
    }
  }

  lemma PrependBatch(next: map<Node, Word>, p: Option<Node>, ns: seq<Node>, batch: seq<Node>)
    requires IsChain(next, p, ns) && batch != []
    requires forall i :: 0 <= i < |batch| ==> batch[i] in next
    requires forall i :: 0 <= i < |batch| - 1 ==> next[batch[i]] == Ptr(batch[i + 1])
    requires next[batch[|batch| - 1]] == Word(p, false)
    ensures IsChain(next, Some(batch[0]), batch + ns)
  {
    var all := batch + ns;
    forall i | 0 <= i < |all|
      ensures all[i] in next && next[all[i]] == Word(After(all, i), false)
    {
      if i < |batch| - 1 {
        assert all[i] == batch[i];
      } else if i >= |batch| {
        assert all[i] == ns[i - |batch|];
        assert After(all, i) == After(ns, i - |batch|);
      }
    }
  }

  // ----- What a step leaves alone -----

  /** Destruction visits exactly the retired chain. */
  lemma DestroyExact(s: State, a: Action)
    requires FinInv(s) && Enabled(s, a) && a.Destroy?
    ensures a.ns == s.fin[a.i].nodes
  {
    ChainUnique(s.next, Some(s.fin[a.i].root), a.ns, s.fin[a.i].nodes);
  }

  /** The next pointer of a node changes only under its owner, or when it is destroyed. */
  lemma NextKept(s: State, a: Action, n: Node)
    requires Inv(s) && Enabled(s, a) && n in s.loc && n in s.next
    requires s.loc[n] == Linked || s.loc[n] == Retired
             || (s.loc[n].Private? && s.loc[n].t != a.t) || (s.loc[n].Unlinking? && s.loc[n].t != a.t)
    requires a.Destroy? ==> n !in a.ns
    ensures n in NextNext(s, a) && NextNext(s, a)[n] == s.next[n]
  {
    if a.t in s.threads {
      assert PcOk(s, a.t, s.threads[a.t].pc);
    }
    if a.CallBatch? {
      BuildChainLinks(a.ns, 0);
    }
  }

  /** Where a node goes when thread a.t moves. */
  lemma LocKept(s: State, a: Action, n: Node)
    requires Inv(s) && Enabled(s, a) && n in s.loc
    ensures n in NextLoc(s, a)
    ensures s.loc[n] == Retired ==> NextLoc(s, a)[n] == Retired
    ensures s.loc[n] == Linked ==>
              || NextLoc(s, a)[n] == Linked
              || (EventOf(s, a).Popped? && EventOf(s, a).n == n && NextLoc(s, a)[n] == Unlinking(a.t))
              || (EventOf(s, a).Cleared? && n in s.heads[EventOf(s, a).h].spec && NextLoc(s, a)[n] == Retired)
    ensures s.loc[n].Private? && s.loc[n].t != a.t ==> NextLoc(s, a)[n] == s.loc[n]
    ensures s.loc[n].Unlinking? && s.loc[n].t != a.t ==> NextLoc(s, a)[n] == s.loc[n]
    ensures NextLoc(s, a)[n].Private? ==> s.loc[n] == NextLoc(s, a)[n]
  {
    if a.t in s.threads {
      assert PcOk(s, a.t, s.threads[a.t].pc);
    }
  }

  /** A pop succeeds on the first node of an abstract stack whose spin bit is clear, and writes the
      node after it. */
  lemma PopHits(s: State, t: Tid)
    requires Inv(s) && t in s.threads && s.threads[t].pc.PopCas?
    requires Touchable(s, s.threads[t].pc) && CasHits(s, s.threads[t].pc)
    ensures
      var pc := s.threads[t].pc;
      var hd := s.heads[pc.h];
      hd.owner == None && hd.spec != [] && hd.spec[0] == pc.n && s.loc[pc.n] == Linked
      && pc.nx == Word(After(hd.spec, 0), false)
  {
    var pc := s.threads[t].pc;
    assert PcOk(s, t, pc) && HeadOk(s, s.heads[pc.h]);
    assert s.heads[pc.h].spec[0] == pc.n;
  }

  /** A compare-and-exchange of a push or of set_spin succeeds only on a clear spin bit. */
  lemma CasSeesRoot(s: State, t: Tid, h: Hid)
    requires Inv(s) && t in s.threads && h in s.heads
    requires !s.heads[h].word.spin
    ensures s.heads[h].owner == None && s.heads[h].word == Word(s.heads[h].root, false)
  {
    assert HeadOk(s, s.heads[h]);
  }

  /** The event takes nodes out of the abstract stack of head h. */
  predicate Takes(e: Event, h: Hid) {
    (e.Popped? && e.h == h) || (e.Cleared? && e.h == h)
  }

  /** The nodes of a stack from which nothing is taken stay linked as they are. */
  lemma SpecKept(s: State, a: Action, h: Hid, i: nat)
    requires Inv(s) && Enabled(s, a) && h in s.heads && i < |s.heads[h].spec|
    requires !Takes(EventOf(s, a), h)
    ensures
      var n := s.heads[h].spec[i];
      && n in s.loc && s.loc[n] == Linked && n in NextLoc(s, a) && NextLoc(s, a)[n] == Linked
      && n in s.next && n in NextNext(s, a) && NextNext(s, a)[n] == s.next[n]
  {
    assert HeadOk(s, s.heads[h]);
    var n := s.heads[h].spec[i];
    assert s.loc[n] == Linked;
    if a.Destroy? {
      DestroyExact(s, a);
      assert GarbageOk(s, s.fin[a.i]);
    }
    NextKept(s, a, n);
    LocKept(s, a, n);
    var e := EventOf(s, a);
    if e.Popped? {
      PopHits(s, a.t);
      assert s.heads[e.h].spec[0] in s.heads[e.h].spec;
      assert Disjoint(s.heads[h].spec, s.heads[e.h].spec);
    } else if e.Cleared? {
      assert PcOk(s, a.t, s.threads[a.t].pc);
      assert Disjoint(s.heads[h].spec, s.heads[e.h].spec);
    }
  }

  lemma SpecChainKept(s: State, a: Action, h: Hid)
    requires Inv(s) && Enabled(s, a) && h in s.heads && !Takes(EventOf(s, a), h)
    ensures IsChain(NextNext(s, a), s.heads[h].root, s.heads[h].spec)
    ensures forall i :: 0 <= i < |s.heads[h].spec| ==>
              s.heads[h].spec[i] in NextLoc(s, a) && NextLoc(s, a)[s.heads[h].spec[i]] == Linked
  {
    assert HeadOk(s, s.heads[h]);
    forall i | 0 <= i < |s.heads[h].spec|
      ensures s.heads[h].spec[i] in NextLoc(s, a) && NextLoc(s, a)[s.heads[h].spec[i]] == Linked
      ensures s.heads[h].spec[i] in NextNext(s, a)
      ensures NextNext(s, a)[s.heads[h].spec[i]] == s.next[s.heads[h].spec[i]]
    {
      SpecKept(s, a, h, i);
    }
    ChainKept(s.next, NextNext(s, a), s.heads[h].root, s.heads[h].spec);
  }

  // ----- Heads -----

  /** HeadOk for a head that keeps its nodes, given what its record has become. */
  lemma HeadFromChain(s: State, a: Action, hd: Head, g: Hid)
    requires Inv(s) && Enabled(s, a) && g in s.heads && !Takes(EventOf(s, a), g)
    requires hd.root == s.heads[g].root && hd.spec == s.heads[g].spec
    requires hd.word.spin <==> hd.owner.Some?
    requires !hd.word.spin ==> hd.word.node == hd.root
    requires hd.owner.Some? ==> hd.owner.value in Step(s, a).threads
    ensures HeadOk(Step(s, a), hd)
  {
    SpecChainKept(s, a, g);
  }

  /** The nodes of a push are chained in front of the root that the exchange has seen. */
  lemma PushedNodes(s: State, a: Action, h: Hid, ns: seq<Node>)
    requires Inv(s) && Enabled(s, a) && EventOf(s, a) == Pushed(h, ns)
    ensures h in s.heads && !s.heads[h].word.spin && ns != []
    ensures NextNext(s, a) == s.next && forall i :: 0 <= i < |ns| ==> ns[i] in s.next && ns[i] in s.loc
    ensures forall i :: 0 <= i < |ns| - 1 ==> s.next[ns[i]] == Ptr(ns[i + 1])
    ensures s.next[ns[|ns| - 1]] == s.heads[h].word
  {
    assert PcOk(s, a.t, s.threads[a.t].pc);
  }

  lemma PushedHead(s: State, a: Action, h: Hid, ns: seq<Node>)
    requires Enabled(s, a) && EventOf(s, a) == Pushed(h, ns) && PcInv(s)
    ensures h in s.heads && ns != []
    ensures Step(s, a).heads[h] == s.heads[h].(word := Ptr(ns[0]), root := Some(ns[0]), spec := ns + s.heads[h].spec)
    ensures forall n :: n in ns ==> n in NextLoc(s, a) && NextLoc(s, a)[n] == Linked
  {
    assert PcOk(s, a.t, s.threads[a.t].pc);
  }

  lemma HeadPushed(s: State, a: Action, h: Hid, ns: seq<Node>)
    requires Inv(s) && Enabled(s, a) && EventOf(s, a) == Pushed(h, ns)
    ensures HeadOk(Step(s, a), Step(s, a).heads[h])
  {
    PushedHead(s, a, h, ns);
    PushedNodes(s, a, h, ns);
    CasSeesRoot(s, a.t, h);
    SpecChainKept(s, a, h);
    PrependBatch(s.next, s.heads[h].root, s.heads[h].spec, ns);
    LinkedTogether(NextLoc(s, a), ns, s.heads[h].spec);
  }

  lemma LinkedTogether(loc: map<Node, Loc>, ns: seq<Node>, ms: seq<Node>)
    requires forall n :: n in ns ==> n in loc && loc[n] == Linked
    requires forall i :: 0 <= i < |ms| ==> ms[i] in loc && loc[ms[i]] == Linked
    ensures forall i :: 0 <= i < |ns + ms| ==> (ns + ms)[i] in loc && loc[(ns + ms)[i]] == Linked
  {
    forall i | 0 <= i < |ns + ms| ensures (ns + ms)[i] in loc && loc[(ns + ms)[i]] == Linked {
      if i < |ns| {
        assert ns[i] in ns;
      }
    }
  }

  lemma HeadPopped(s: State, a: Action, h: Hid, n: Node)
    requires Inv(s) && Enabled(s, a) && EventOf(s, a) == Popped(h, n)
    ensures HeadOk(Step(s, a), Step(s, a).heads[h])
  {
    PopHits(s, a.t);
    var hd := s.heads[h];
    assert HeadOk(s, hd);
    ChainTail(s.next, hd.root, hd.spec);
    forall i | 0 <= i < |hd.spec| - 1
      ensures hd.spec[1..][i] in NextLoc(s, a) && NextLoc(s, a)[hd.spec[1..][i]] == Linked
    {
      assert hd.spec[i + 1] != hd.spec[0];
    }
  }

  lemma HeadSpun(s: State, a: Action, h: Hid)
    requires Inv(s) && Enabled(s, a) && a.Go? && s.threads[a.t].pc.SpinCas?
    requires CasHits(s, s.threads[a.t].pc) && h in s.heads
    ensures HeadOk(Step(s, a), Step(s, a).heads[h])
  {
    var pc := s.threads[a.t].pc;
    assert PcOk(s, a.t, pc) && HeadOk(s, s.heads[h]);
    CasSeesRoot(s, a.t, pc.why.h);
    var g :=
      if pc.why.Swap2? && h == pc.why.h then pc.why.h1
      else if pc.why.Swap2? && h == pc.why.h1 then pc.why.h
      else h;
    if pc.why.Swap2? {
      assert s.heads[pc.why.h1].owner == Some(a.t);
      assert HeadOk(s, s.heads[pc.why.h1]);
    }
    HeadFromChain(s, a, Step(s, a).heads[h], g);
  }

  /** A store of swap clears the spin bit and shows the root. */
  lemma StoredHead(s: State, a: Action, h: Hid)
    requires Enabled(s, a) && a.Go? && h in s.heads && PcOk(s, a.t, s.threads[a.t].pc)
    requires s.threads[a.t].pc.SwapStore1? || s.threads[a.t].pc.SwapStore2?
    ensures h in Step(s, a).heads
    ensures
      var hd, hd' := s.heads[h], Step(s, a).heads[h];
      hd' == hd || hd' == hd.(word := Word(hd.root, false), owner := None)
  {
  }

  lemma HeadSwapStored(s: State, a: Action, h: Hid)
    requires Inv(s) && Enabled(s, a) && a.Go? && h in s.heads
    requires s.threads[a.t].pc.SwapStore1? || s.threads[a.t].pc.SwapStore2?
    ensures HeadOk(Step(s, a), Step(s, a).heads[h])
  {
    assert PcOk(s, a.t, s.threads[a.t].pc) && HeadOk(s, s.heads[h]);
    StoredHead(s, a, h);
    HeadFromChain(s, a, Step(s, a).heads[h], h);
  }

  lemma HeadClearStored(s: State, a: Action, h: Hid)
    requires Inv(s) && Enabled(s, a) && a.Go? && h in s.heads && s.threads[a.t].pc.ClearStore?
    ensures HeadOk(Step(s, a), Step(s, a).heads[h])
  {
    var pc := s.threads[a.t].pc;
    if pc.h != h {
      assert HeadOk(s, s.heads[h]);
      HeadFromChain(s, a, s.heads[h], h);
    }
  }

  lemma HeadPushOrPop(s: State, a: Action, h: Hid)
    requires Inv(s) && Enabled(s, a) && h in s.heads
    requires EventOf(s, a).Pushed? || EventOf(s, a).Popped?
    ensures HeadOk(Step(s, a), Step(s, a).heads[h])
  {
    var e := EventOf(s, a);
    if e.h != h {
      assert HeadOk(s, s.heads[h]);
      HeadFromChain(s, a, s.heads[h], h);
    } else if e.Pushed? {
      HeadPushed(s, a, h, e.ns);
    } else {
      HeadPopped(s, a, h, e.n);
    }
  }

  lemma HeadOne(s: State, a: Action, h: Hid)
    requires Inv(s) && Enabled(s, a) && h in Step(s, a).heads
    ensures HeadOk(Step(s, a), Step(s, a).heads[h])
  {
    if h !in s.heads {
      assert a.NewStack?;
    } else if EventOf(s, a).Pushed? || EventOf(s, a).Popped? {
      HeadPushOrPop(s, a, h);
    } else {
      HeadOther(s, a, h);
    }
  }

  lemma HeadOther(s: State, a: Action, h: Hid)
    requires Inv(s) && Enabled(s, a) && h in s.heads
    requires !EventOf(s, a).Pushed? && !EventOf(s, a).Popped?
    ensures HeadOk(Step(s, a), Step(s, a).heads[h])
  {
    assert HeadOk(s, s.heads[h]);
    if a.Go? && s.threads[a.t].pc.SpinCas? && CasHits(s, s.threads[a.t].pc) {
      HeadSpun(s, a, h);
    } else if a.Go? && s.threads[a.t].pc.ClearStore? {
      HeadClearStored(s, a, h);
    } else if a.Go? && (s.threads[a.t].pc.SwapStore1? || s.threads[a.t].pc.SwapStore2?) {
      HeadSwapStored(s, a, h);
    } else {
      HeadFromChain(s, a, s.heads[h], h);
    }
  }

  /** What an event makes of the nodes of head h. */
  function SpecAfter(heads: map<Hid, Head>, e: Event, h: Hid): seq<Node>
    requires h in heads
  {
    match e
    case Pushed(g, ns) => if g == h then ns + heads[h].spec else heads[h].spec
    case Popped(g, _) => if g == h then Rest(heads[h].spec) else heads[h].spec
    case Swapped(g1, g2) =>
      if h == g1 && g2 in heads then heads[g2].spec
      else if h == g2 && g1 in heads then heads[g1].spec
      else heads[h].spec
    case Cleared(g, _) => if g == h then [] else heads[h].spec
    case _ => heads[h].spec
  }

  /** The steps that write a head word. */
  predicate WritesHead(s: State, a: Action)
    requires Enabled(s, a)
  {
    a.Go? && (CasHits(s, s.threads[a.t].pc) || s.threads[a.t].pc.SwapStore1?
              || s.threads[a.t].pc.SwapStore2? || s.threads[a.t].pc.ClearStore?)
  }

  lemma QuietHeads(s: State, a: Action)
    requires Enabled(s, a) && !WritesHead(s, a) && !a.NewStack?
    ensures NextHeads(s, a) == s.heads
    ensures EventOf(s, a) == Nothing || EventOf(s, a).FoundEmpty?
  {
  }

  lemma SpecEffect(s: State, a: Action, h: Hid)
    requires PcInv(s) && Enabled(s, a) && h in NextHeads(s, a)
    ensures NextHeads(s, a)[h].spec == if h in s.heads then SpecAfter(s.heads, EventOf(s, a), h) else []
  {
    if WritesHead(s, a) {
      assert PcOk(s, a.t, s.threads[a.t].pc);
    } else if !a.NewStack? {
      QuietHeads(s, a);
    }
  }

  lemma EventHeads(s: State, a: Action)
    requires Inv(s) && Enabled(s, a)
    ensures EventOf(s, a).Swapped? ==> EventOf(s, a).h1 in s.heads && EventOf(s, a).h2 in s.heads
                                       && EventOf(s, a).h1 != EventOf(s, a).h2
    ensures EventOf(s, a).Pushed? ==> Distinct(EventOf(s, a).ns)
                                      && forall n :: n in EventOf(s, a).ns ==> n in s.loc && s.loc[n].Private?
  {
    if a.Go? {
      assert PcOk(s, a.t, s.threads[a.t].pc);
    }
  }

  /** Pure form of the next two lemmas: an event on disjoint stacks leaves them disjoint. */
  lemma SpecsAfter(heads: map<Hid, Head>, loc: map<Node, Loc>, e: Event, g: Hid, h: Hid)
    requires SpecsDisjoint(heads) && g in heads && h in heads
    requires forall k, n :: k in heads && n in heads[k].spec ==> n in loc && loc[n] == Linked
    requires e.Swapped? ==> e.h1 in heads && e.h2 in heads && e.h1 != e.h2
    requires e.Pushed? ==> Distinct(e.ns) && forall n :: n in e.ns ==> n in loc && loc[n].Private?
    ensures Distinct(SpecAfter(heads, e, h))
    ensures g != h ==> Disjoint(SpecAfter(heads, e, g), SpecAfter(heads, e, h))
  {
    if e.Pushed? && e.h == h {
      assert forall i, j :: 0 <= i < |e.ns| && 0 <= j < |heads[h].spec| ==>
               e.ns[i] in e.ns && heads[h].spec[j] in heads[h].spec;
    }
  }

  lemma DisjointStep(s: State, a: Action)
    requires Inv(s) && Enabled(s, a)
    ensures SpecsDisjoint(Step(s, a).heads)
  {
    var heads := Step(s, a).heads;
    EventHeads(s, a);
    forall k, n | k in s.heads && n in s.heads[k].spec ensures n in s.loc && s.loc[n] == Linked {
      assert HeadOk(s, s.heads[k]);
    }
    forall h | h in heads ensures Distinct(heads[h].spec) {
      SpecEffect(s, a, h);
      if h in s.heads {
        SpecsAfter(s.heads, s.loc, EventOf(s, a), h, h);
      }
    }
    forall g, h | g in heads && h in heads && g != h ensures Disjoint(heads[g].spec, heads[h].spec) {
      SpecEffect(s, a, g);
      SpecEffect(s, a, h);
      if g in s.heads && h in s.heads {
        SpecsAfter(s.heads, s.loc, EventOf(s, a), g, h);
      }
    }
  }

  lemma HeadStep(s: State, a: Action)
    requires Inv(s) && Enabled(s, a)
    ensures HeadInv(Step(s, a))
  {
    forall h | h in Step(s, a).heads
      ensures HeadOk(Step(s, a), Step(s, a).heads[h])
    {
      HeadOne(s, a, h);
    }
    DisjointStep(s, a);
  }

  // ----- Nodes and owners -----

  /** A node that becomes linked had been given a plain next pointer. */
  lemma NodeGo(s: State, a: Action, n: Node)
    requires Inv(s) && Enabled(s, a) && a.Go? && n in NextLoc(s, a) && NextLoc(s, a)[n] != Retired
    ensures n in NextNext(s, a)
    ensures NextLoc(s, a)[n] == Linked ==> !NextNext(s, a)[n].spin
  {
    var pc := s.threads[a.t].pc;
    assert PcOk(s, a.t, pc);
    if pc.BatchCas? && n in pc.ns {
      BatchNode(s, a.t, pc, n);
    }
  }

  lemma BatchNode(s: State, t: Tid, pc: Pc, n: Node)
    requires pc.BatchCas? && PcOk(s, t, pc) && n in pc.ns
    ensures n in s.next && !s.next[n].spin
  {
    var i :| 0 <= i < |pc.ns| && pc.ns[i] == n;
    assert Owned(s, t, pc.ns[i]);
    if i < |pc.ns| - 1 {
      assert s.next[pc.ns[i]] == Ptr(pc.ns[i + 1]);
    }
  }

  lemma NodeCall(s: State, a: Action, n: Node)
    requires Inv(s) && Enabled(s, a) && !a.Go? && n in NextLoc(s, a) && NextLoc(s, a)[n] != Retired
    ensures n in NextNext(s, a)
    ensures NextLoc(s, a)[n] == Linked ==> !NextNext(s, a)[n].spin
  {
    match a
    case Destroy(_, i, _) =>
      DestroyExact(s, a);
      assert GarbageOk(s, s.fin[i]);
    case CallBatch(_, _, ns) => BuildChainLinks(ns, 0);
    case WeakFail(t) => assert PcOk(s, t, s.threads[t].pc);
    case _ =>
  }

  lemma NodeOne(s: State, a: Action, n: Node)
    requires Inv(s) && Enabled(s, a) && n in NextLoc(s, a)
    ensures NextLoc(s, a)[n] != Retired ==> n in NextNext(s, a)
    ensures NextLoc(s, a)[n] == Linked ==> n in NextNext(s, a) && !NextNext(s, a)[n].spin
  {
    if NextLoc(s, a)[n] != Retired {
      if a.Go? {
        NodeGo(s, a, n);
      } else {
        NodeCall(s, a, n);
      }
    }
  }

  lemma NodeStep(s: State, a: Action)
    requires Inv(s) && Enabled(s, a)
    ensures NodeInv(Step(s, a))
  {
    forall n | n in NextLoc(s, a)
      ensures NextLoc(s, a)[n] != Retired ==> n in NextNext(s, a)
      ensures NextLoc(s, a)[n] == Linked ==> n in NextNext(s, a) && !NextNext(s, a)[n].spin
    {
      NodeOne(s, a, n);
    }
    forall n | n in NextNext(s, a)
      ensures n in NextLoc(s, a)
    {
      KnownNodes(s, a, n);
    }
  }

  lemma KnownNodes(s: State, a: Action, n: Node)
    requires Inv(s) && Enabled(s, a) && n in NextNext(s, a)
    ensures n in NextLoc(s, a)
  {
    if a.Go? {
      assert PcOk(s, a.t, s.threads[a.t].pc);
    }
    if a.CallBatch? {
      BuildChainLinks(a.ns, 0);
    }
    if n in s.loc {
      LocKept(s, a, n);
    }
  }

  /** Who holds what changes only with a write to a head word. */
  lemma QuietOwner(s: State, a: Action, h: Hid)
    requires Enabled(s, a) && !WritesHead(s, a)
    ensures Holds(NextThread(s, a).pc, h) <==> a.t in s.threads && Holds(s.threads[a.t].pc, h)
  {
  }

  lemma OwnerMover(s: State, a: Action, h: Hid)
    requires Enabled(s, a) && WritesHead(s, a) && h in s.heads && HeadOk(s, s.heads[h])
    requires PcOk(s, a.t, s.threads[a.t].pc)
    requires s.heads[h].owner == Some(a.t) <==> Holds(s.threads[a.t].pc, h)
    ensures NextHeads(s, a)[h].owner == Some(a.t) <==> Holds(NextThread(s, a).pc, h)
  {
  }

  lemma OwnerBystander(s: State, a: Action, h: Hid, u: Tid)
    requires Enabled(s, a) && WritesHead(s, a) && h in s.heads && u != a.t && HeadOk(s, s.heads[h])
    requires PcOk(s, a.t, s.threads[a.t].pc)
    requires s.heads[h].owner == Some(a.t) <==> Holds(s.threads[a.t].pc, h)
    ensures NextHeads(s, a)[h].owner == Some(u) <==> s.heads[h].owner == Some(u)
  {
  }

  /** No thread works on a head that does not exist. */
  lemma HoldsExisting(s: State, t: Tid, h: Hid)
    requires Inv(s) && t in s.threads && Holds(s.threads[t].pc, h)
    ensures h in s.heads
  {
    assert PcOk(s, t, s.threads[t].pc);
  }

  lemma OwnerWritten(s: State, a: Action, h: Hid, t: Tid)
    requires Inv(s) && Enabled(s, a) && h in Step(s, a).heads && t in Step(s, a).threads && WritesHead(s, a)
    ensures Step(s, a).heads[h].owner == Some(t) <==> Holds(Step(s, a).threads[t].pc, h)
  {
    assert PcOk(s, a.t, s.threads[a.t].pc) && HeadOk(s, s.heads[h]);
    assert s.heads[h].owner == Some(a.t) <==> Holds(s.threads[a.t].pc, h);
    if t == a.t {
      OwnerMover(s, a, h);
    } else {
      OwnerBystander(s, a, h, t);
    }
  }

  lemma OwnerOne(s: State, a: Action, h: Hid, t: Tid)
    requires Inv(s) && Enabled(s, a) && h in Step(s, a).heads && t in Step(s, a).threads
    ensures Step(s, a).heads[h].owner == Some(t) <==> Holds(Step(s, a).threads[t].pc, h)
  {
    if WritesHead(s, a) {
      OwnerWritten(s, a, h, t);
    } else {
      if !a.NewStack? {
        QuietHeads(s, a);
      }
      QuietOwner(s, a, h);
      if h in s.heads {
        assert HeadOk(s, s.heads[h]);
      } else if t in s.threads && Holds(s.threads[t].pc, h) {
        HoldsExisting(s, t, h);
      }
    }
  }

  lemma OwnerStep(s: State, a: Action)
    requires Inv(s) && Enabled(s, a)
    ensures OwnerInv(Step(s, a))
  {
    forall h, t | h in Step(s, a).heads && t in Step(s, a).threads
      ensures Step(s, a).heads[h].owner == Some(t) <==> Holds(Step(s, a).threads[t].pc, h)
    {
      OwnerOne(s, a, h, t);
    }
  }

  // ----- Program counters -----

  /** Heads that another thread holds keep their root, and all heads stay. */
  lemma RootStays(s: State, a: Action, h: Hid)
    requires Enabled(s, a) && h in s.heads && WritesHead(s, a)
    requires PcOk(s, a.t, s.threads[a.t].pc) && !Holds(s.threads[a.t].pc, h) && s.heads[h].word.spin
    ensures h in NextHeads(s, a) && NextHeads(s, a)[h].root == s.heads[h].root
  {
  }

  lemma RootKept(s: State, a: Action, h: Hid)
    requires Inv(s) && Enabled(s, a) && h in s.heads
    requires s.heads[h].owner.Some? && s.heads[h].owner != Some(a.t)
    ensures h in NextHeads(s, a) && NextHeads(s, a)[h].root == s.heads[h].root
  {
    if WritesHead(s, a) {
      assert PcOk(s, a.t, s.threads[a.t].pc) && HeadOk(s, s.heads[h]);
      assert s.heads[h].owner == Some(a.t) <==> Holds(s.threads[a.t].pc, h);
      RootStays(s, a, h);
    } else if !a.NewStack? {
      QuietHeads(s, a);
    }
  }

  lemma HeadsStay(s: State, a: Action, h: Hid)
    requires Enabled(s, a) && h in s.heads
    ensures h in NextHeads(s, a)
  {
  }

  lemma OwnedKept(s: State, a: Action, u: Tid, n: Node)
    requires Inv(s) && Enabled(s, a) && u != a.t && Owned(s, u, n)
    ensures Owned(Step(s, a), u, n) && NextNext(s, a)[n] == s.next[n]
  {
    if a.Destroy? {
      DestroyExact(s, a);
      assert GarbageOk(s, s.fin[a.i]);
    }
    LocKept(s, a, n);
    NextKept(s, a, n);
  }

  lemma BatchKept(s: State, a: Action, u: Tid, ns: seq<Node>)
    requires Inv(s) && Enabled(s, a) && u != a.t && BatchOk(s, u, ns)
    ensures BatchOk(Step(s, a), u, ns)
  {
    forall i | 0 <= i < |ns|
      ensures Owned(Step(s, a), u, ns[i]) && NextNext(s, a)[ns[i]] == s.next[ns[i]]
    {
      OwnedKept(s, a, u, ns[i]);
    }
  }

  /** What a step does to the garbage: one entry is added, or one is marked as destroyed. */
  lemma FinChange(s: State, a: Action)
    requires Enabled(s, a)
    ensures |NextFin(s, a)| >= |s.fin|
    ensures |NextFin(s, a)| <= |s.fin| + 1
    ensures forall i :: 0 <= i < |s.fin| ==>
              NextFin(s, a)[i] == if a.Destroy? && a.i == i then s.fin[i].(destroyed := true) else s.fin[i]
    ensures |NextFin(s, a)| > |s.fin| ==>
              NextFin(s, a)[|s.fin|].guards == OpenSections(s.threads) && !NextFin(s, a)[|s.fin|].destroyed
  {
  }

  /** Whatever is retired while a section is open waits for that section. */
  lemma SafeFin(s: State, a: Action, u: Tid, n: Node, i: nat)
    requires Enabled(s, a) && u in s.threads && u != a.t
    requires InSection(s.threads[u].pc) && Safe(s, u, n)
    requires i < |NextFin(s, a)| && n in NextFin(s, a)[i].nodes
    ensures !NextFin(s, a)[i].destroyed && StillOpen(Step(s, a).threads, NextFin(s, a)[i].guards, u)
  {
    FinChange(s, a);
    if i < |s.fin| {
      assert n in s.fin[i].nodes;
      assert StillOpen(s.threads, s.fin[i].guards, u);
      if a.Destroy? && a.i == i {
        assert false;
      }
    } else {
      assert u in OpenSections(s.threads);
    }
  }

  /** A node that a popper holds is not destroyed under it. */
  lemma SafeNode(s: State, a: Action, u: Tid, n: Node)
    requires Inv(s) && Enabled(s, a) && u in s.threads && u != a.t
    requires InSection(s.threads[u].pc) && Safe(s, u, n)
    ensures n in NextNext(s, a) && n in NextLoc(s, a) && !NextLoc(s, a)[n].Private?
    ensures NextLoc(s, a)[n] == Linked ==> s.loc[n] == Linked && NextNext(s, a)[n] == s.next[n]
  {
    LocKept(s, a, n);
    if a.Destroy? {
      DestroyExact(s, a);
      assert StillOpen(s.threads, s.fin[a.i].guards, u) || n !in a.ns;
    }
    if s.loc[n] == Unlinking(a.t) {
      UnlinkingStays(s, a, n);
    } else {
      NextKept(s, a, n);
    }
  }

  lemma SafeKept(s: State, a: Action, u: Tid, n: Node)
    requires Inv(s) && Enabled(s, a) && u in s.threads && u != a.t
    requires InSection(s.threads[u].pc) && Safe(s, u, n)
    ensures Safe(Step(s, a), u, n)
    ensures NextLoc(s, a)[n] == Linked ==> s.loc[n] == Linked && NextNext(s, a)[n] == s.next[n]
  {
    SafeNode(s, a, u, n);
    forall i | 0 <= i < |NextFin(s, a)| && n in NextFin(s, a)[i].nodes
      ensures !NextFin(s, a)[i].destroyed && StillOpen(Step(s, a).threads, NextFin(s, a)[i].guards, u)
    {
      SafeFin(s, a, u, n, i);
    }
  }

  lemma UnlinkingStays(s: State, a: Action, n: Node)
    requires Inv(s) && Enabled(s, a) && n in s.next && n in s.loc && s.loc[n].Unlinking?
    ensures n in NextNext(s, a) && NextLoc(s, a)[n] != Linked
  {
    if a.t in s.threads {
      assert PcOk(s, a.t, s.threads[a.t].pc);
    }
    if a.Destroy? {
      DestroyExact(s, a);
      assert GarbageOk(s, s.fin[a.i]);
    }
  }

  lemma PcOtherSingle(s: State, a: Action, u: Tid)
    requires Inv(s) && Enabled(s, a) && u in s.threads && u != a.t
    requires s.threads[u].pc.PushLoad? || s.threads[u].pc.PushCas?
    ensures PcOk(Step(s, a), u, s.threads[u].pc)
  {
    var pc := s.threads[u].pc;
    assert PcOk(s, u, pc);
    HeadsStay(s, a, pc.h);
    OwnedKept(s, a, u, pc.n);
  }

  /** The last node of a batch points to what the thread has read from the head. */
  predicate BatchSeen(s: State, pc: Pc)
    requires pc.BatchLoad? || pc.BatchCas?
  {
    && pc.ns != [] && pc.ns[|pc.ns| - 1] in s.next
    && (pc.BatchCas? ==> s.next[pc.ns[|pc.ns| - 1]] == pc.tmp && !pc.tmp.spin)
  }

  lemma BatchSeenKept(s: State, a: Action, u: Tid, pc: Pc)
    requires Inv(s) && Enabled(s, a) && u != a.t && (pc.BatchLoad? || pc.BatchCas?)
    requires BatchOk(s, u, pc.ns) && BatchSeen(s, pc)
    ensures BatchSeen(Step(s, a), pc)
  {
    OwnedKept(s, a, u, pc.ns[|pc.ns| - 1]);
  }

  lemma BatchPcOk(s: State, u: Tid, pc: Pc)
    requires (pc.BatchLoad? || pc.BatchCas?) && BatchSeen(s, pc)
    requires pc.h in s.heads && BatchOk(s, u, pc.ns)
    ensures PcOk(s, u, pc)
  {
  }

  lemma BatchKnown(s: State, u: Tid)
    requires PcInv(s) && u in s.threads
    requires s.threads[u].pc.BatchLoad? || s.threads[u].pc.BatchCas?
    ensures
      var pc := s.threads[u].pc;
      pc.h in s.heads && BatchOk(s, u, pc.ns) && BatchSeen(s, pc)
  {
  }

  lemma PcOtherBatch(s: State, a: Action, u: Tid)
    requires Inv(s) && Enabled(s, a) && u in s.threads && u != a.t
    requires s.threads[u].pc.BatchLoad? || s.threads[u].pc.BatchCas?
    ensures PcOk(Step(s, a), u, s.threads[u].pc)
  {
    var pc := s.threads[u].pc;
    BatchKnown(s, u);
    HeadsStay(s, a, pc.h);
    BatchKept(s, a, u, pc.ns);
    BatchSeenKept(s, a, u, pc);
    BatchPcOk(Step(s, a), u, pc);
  }

  lemma PcOtherPush(s: State, a: Action, u: Tid)
    requires Inv(s) && Enabled(s, a) && u in s.threads && u != a.t
    requires
      var pc := s.threads[u].pc;
      pc.PushLoad? || pc.PushCas? || pc.BatchLoad? || pc.BatchCas?
    ensures PcOk(Step(s, a), u, s.threads[u].pc)
  {
    if s.threads[u].pc.PushLoad? || s.threads[u].pc.PushCas? {
      PcOtherSingle(s, a, u);
    } else {
      PcOtherBatch(s, a, u);
    }
  }

  lemma PcOtherUnlink(s: State, a: Action, u: Tid)
    requires Inv(s) && Enabled(s, a) && u in s.threads && u != a.t && s.threads[u].pc.PopUnlink?
    ensures PcOk(Step(s, a), u, s.threads[u].pc)
  {
    var pc := s.threads[u].pc;
    assert PcOk(s, u, pc);
    if a.Destroy? {
      DestroyExact(s, a);
      assert GarbageOk(s, s.fin[a.i]);
    }
    LocKept(s, a, pc.n);
    NextKept(s, a, pc.n);
  }

  lemma PcOtherPop(s: State, a: Action, u: Tid)
    requires Inv(s) && Enabled(s, a) && u in s.threads && u != a.t
    requires
      var pc := s.threads[u].pc;
      pc.PopNext? || pc.PopCas? || pc.PopUnlink?
    ensures PcOk(Step(s, a), u, s.threads[u].pc)
  {
    var pc := s.threads[u].pc;
    if pc.PopUnlink? {
      PcOtherUnlink(s, a, u);
    } else {
      assert PcOk(s, u, pc);
      HeadsStay(s, a, pc.h);
      SafeKept(s, a, u, pc.n);
    }
  }

  lemma PcOtherSpin(s: State, a: Action, u: Tid)
    requires Inv(s) && Enabled(s, a) && u in s.threads && u != a.t
    requires
      var pc := s.threads[u].pc;
      pc.SpinLoad? || pc.SpinCas? || pc.SwapStore1? || pc.SwapStore2? || pc.ClearStore?
    ensures PcOk(Step(s, a), u, s.threads[u].pc)
  {
    HeldRoots(s, a, u);
    HeadsAllStay(s, a);
    HeldPcOk(s, Step(s, a), u, s.threads[u].pc);
  }

  lemma HeldRoots(s: State, a: Action, u: Tid)
    requires Inv(s) && Enabled(s, a) && u in s.threads && u != a.t
    ensures forall h :: Holds(s.threads[u].pc, h) ==>
              h in s.heads && h in NextHeads(s, a) && NextHeads(s, a)[h].root == s.heads[h].root
  {
    forall h | Holds(s.threads[u].pc, h)
      ensures h in s.heads && h in NextHeads(s, a) && NextHeads(s, a)[h].root == s.heads[h].root
    {
      HeldKept(s, a, u, h);
    }
  }

  lemma HeadsAllStay(s: State, a: Action)
    requires Enabled(s, a)
    ensures forall h :: h in s.heads ==> h in NextHeads(s, a)
  {
    forall h | h in s.heads ensures h in NextHeads(s, a) {
      HeadsStay(s, a, h);
    }
  }

  /** What a thread that swaps or clears knows is about the heads it holds. */
  lemma HeldPcOk(s: State, s': State, u: Tid, pc: Pc)
    requires PcOk(s, u, pc)
    requires pc.SpinLoad? || pc.SpinCas? || pc.SwapStore1? || pc.SwapStore2? || pc.ClearStore?
    requires forall h :: h in s.heads ==> h in s'.heads
    requires forall h :: Holds(pc, h) ==> h in s.heads && h in s'.heads && s'.heads[h].root == s.heads[h].root
    ensures PcOk(s', u, pc)
  {
  }

  lemma PcOther(s: State, a: Action, u: Tid)
    requires Inv(s) && Enabled(s, a) && u in s.threads && u != a.t
    ensures PcOk(Step(s, a), u, s.threads[u].pc)
  {
    var pc := s.threads[u].pc;
    assert PcOk(s, u, pc);
    if pc.PushLoad? || pc.PushCas? || pc.BatchLoad? || pc.BatchCas? {
      PcOtherPush(s, a, u);
    } else if pc.PopNext? || pc.PopCas? || pc.PopUnlink? {
      PcOtherPop(s, a, u);
    } else if !pc.Idle? && !pc.PopLoad? {
      PcOtherSpin(s, a, u);
    }
  }

  lemma HeldKept(s: State, a: Action, u: Tid, h: Hid)
    requires Inv(s) && Enabled(s, a) && u in s.threads && u != a.t && Holds(s.threads[u].pc, h)
    ensures h in s.heads && h in NextHeads(s, a) && NextHeads(s, a)[h].root == s.heads[h].root
  {
    HoldsExisting(s, u, h);
    assert s.heads[h].owner == Some(u);
    RootKept(s, a, h);
  }

  /** The first node of a stack is safe for the popper that has just loaded it. */
  lemma FirstNodeSafe(s: State, t: Tid, h: Hid)
    requires Inv(s) && t in s.threads && h in s.heads
    requires !s.heads[h].word.spin && s.heads[h].word.node.Some?
    ensures Safe(s, t, s.heads[h].word.node.value)
  {
    assert HeadOk(s, s.heads[h]);
    var n := s.heads[h].spec[0];
    assert s.loc[n] == Linked;
    forall i | 0 <= i < |s.fin| ensures n !in s.fin[i].nodes {
      assert GarbageOk(s, s.fin[i]);
    }
  }

  lemma PcOwnPop(s: State, a: Action)
    requires Inv(s) && Enabled(s, a) && a.Go?
    requires s.threads[a.t].pc.PopLoad? || s.threads[a.t].pc.PopNext? || s.threads[a.t].pc.PopCas?
    ensures PcOk(Step(s, a), a.t, NextThread(s, a).pc)
  {
    var pc := s.threads[a.t].pc;
    assert PcOk(s, a.t, pc);
    if pc.PopLoad? && !s.heads[pc.h].word.spin && s.heads[pc.h].word.node.Some? {
      FirstNodeSafe(s, a.t, pc.h);
    }
  }

  lemma PcOwnSpin(s: State, a: Action)
    requires Inv(s) && Enabled(s, a) && a.Go? && s.threads[a.t].pc.SpinCas?
    ensures PcOk(Step(s, a), a.t, NextThread(s, a).pc)
  {
    var pc := s.threads[a.t].pc;
    assert PcOk(s, a.t, pc);
    if CasHits(s, pc) {
      CasSeesRoot(s, a.t, pc.why.h);
    }
  }

  lemma PcOwnGo(s: State, a: Action)
    requires Inv(s) && Enabled(s, a) && a.Go?
    ensures PcOk(Step(s, a), a.t, NextThread(s, a).pc)
  {
    var pc := s.threads[a.t].pc;
    if pc.PopLoad? || pc.PopNext? || pc.PopCas? {
      PcOwnPop(s, a);
    } else if pc.SpinCas? {
      PcOwnSpin(s, a);
    } else {
      PcOwnOther(s, a);
    }
  }

  lemma PcOwnOther(s: State, a: Action)
    requires PcInv(s) && Enabled(s, a) && a.Go?
    requires
      var pc := s.threads[a.t].pc;
      !pc.PopLoad? && !pc.PopNext? && !pc.PopCas? && !pc.SpinCas?
    ensures PcOk(Step(s, a), a.t, NextThread(s, a).pc)
  {
    assert PcOk(s, a.t, s.threads[a.t].pc);
  }

  lemma BatchBuilt(s: State, a: Action)
    requires Enabled(s, a) && a.CallBatch?
    ensures BatchOk(Step(s, a), a.t, a.ns)
  {
    forall i | 0 <= i < |a.ns|
      ensures Owned(Step(s, a), a.t, a.ns[i])
      ensures NextNext(s, a)[a.ns[i]] == Word(After(a.ns, i), false)
    {
      BuildChainLinks(a.ns, i);
      assert a.ns[i] in a.ns;
    }
  }

  lemma PcOwnBatch(s: State, a: Action)
    requires Enabled(s, a) && a.CallBatch?
    ensures PcOk(Step(s, a), a.t, NextThread(s, a).pc)
  {
    BatchBuilt(s, a);
  }

  lemma PcOwnCall(s: State, a: Action)
    requires PcInv(s) && Enabled(s, a) && !a.Go?
    ensures PcOk(Step(s, a), a.t, NextThread(s, a).pc)
  {
    match a
    case CallBatch(_, _, _) => PcOwnBatch(s, a);
    case WeakFail(t) => PcOwnWeak(s, t);
    case _ =>
  }

  lemma PcOwnWeak(s: State, t: Tid)
    requires PcInv(s) && Enabled(s, WeakFail(t))
    ensures PcOk(Step(s, WeakFail(t)), t, Retry(s.threads[t].pc))
  {
    assert PcOk(s, t, s.threads[t].pc);
  }

  lemma PcStep(s: State, a: Action)
    requires Inv(s) && Enabled(s, a)
    ensures PcInv(Step(s, a))
  {
    forall t | t in Step(s, a).threads
      ensures PcOk(Step(s, a), t, Step(s, a).threads[t].pc)
    {
      if t != a.t {
        PcOther(s, a, t);
      } else if a.Go? {
        PcOwnGo(s, a);
      } else {
        PcOwnCall(s, a);
      }
    }
  }

  // ----- Garbage -----

  lemma GarbageNode(s: State, a: Action, i: nat, n: Node)
    requires Inv(s) && Enabled(s, a) && i < |s.fin| && n in s.fin[i].nodes
    ensures n in NextLoc(s, a) && NextLoc(s, a)[n] == Retired
    ensures i < |NextFin(s, a)| && (!NextFin(s, a)[i].destroyed ==>
              n in s.next && n in NextNext(s, a) && NextNext(s, a)[n] == s.next[n])
  {
    FinChange(s, a);
    assert GarbageOk(s, s.fin[i]);
    LocKept(s, a, n);
    if !NextFin(s, a)[i].destroyed {
      if a.Destroy? {
        DestroyExact(s, a);
        assert Disjoint(s.fin[i].nodes, s.fin[a.i].nodes);
      }
      NextKept(s, a, n);
    }
  }

  lemma GarbageKept(s: State, a: Action, i: nat)
    requires Inv(s) && Enabled(s, a) && i < |s.fin|
    ensures i < |NextFin(s, a)| && GarbageOk(Step(s, a), NextFin(s, a)[i])
  {
    FinChange(s, a);
    var g := s.fin[i];
    assert GarbageOk(s, g);
    forall k | 0 <= k < |g.nodes|
      ensures g.nodes[k] in NextLoc(s, a) && NextLoc(s, a)[g.nodes[k]] == Retired
      ensures !NextFin(s, a)[i].destroyed ==>
                g.nodes[k] in NextNext(s, a) && NextNext(s, a)[g.nodes[k]] == s.next[g.nodes[k]]
    {
      GarbageNode(s, a, i, g.nodes[k]);
    }
    if !NextFin(s, a)[i].destroyed {
      ChainKept(s.next, NextNext(s, a), Some(g.root), g.nodes);
    }
  }

  /** The nodes that a step retires: one popped node whose next pointer it has just cut, or the
      whole chain of a cleared stack. */
  lemma NewGarbage(s: State, a: Action)
    requires Inv(s) && Enabled(s, a) && |NextFin(s, a)| > |s.fin|
    ensures
      var g := NextFin(s, a)[|s.fin|];
      && GarbageOk(Step(s, a), g) && Distinct(g.nodes)
      && forall n :: n in g.nodes ==> n in s.loc && s.loc[n] != Retired
  {
    var pc := s.threads[a.t].pc;
    assert PcOk(s, a.t, pc);
    if pc.ClearStore? {
      assert HeadOk(s, s.heads[pc.h]);
    }
  }

  /** Pure form of the next lemma. */
  lemma FinGrown(fin: seq<Garbage>, fin': seq<Garbage>, loc: map<Node, Loc>)
    requires FinDisjoint(fin) && |fin| <= |fin'| <= |fin| + 1
    requires forall i :: 0 <= i < |fin| ==> fin'[i].nodes == fin[i].nodes
    requires forall i :: 0 <= i < |fin| ==> forall n :: n in fin[i].nodes ==> n in loc && loc[n] == Retired
    requires |fin'| > |fin| ==>
               Distinct(fin'[|fin|].nodes) && forall n :: n in fin'[|fin|].nodes ==> n in loc && loc[n] != Retired
    ensures FinDisjoint(fin')
  {
    forall i | 0 <= i < |fin| && |fin'| > |fin|
      ensures Disjoint(fin'[i].nodes, fin'[|fin|].nodes) && Disjoint(fin'[|fin|].nodes, fin'[i].nodes)
    {
    }
  }

  lemma FinApart(s: State, a: Action)
    requires Inv(s) && Enabled(s, a)
    ensures FinDisjoint(NextFin(s, a))
  {
    FinChange(s, a);
    if |NextFin(s, a)| > |s.fin| {
      NewGarbage(s, a);
    }
    forall i | 0 <= i < |s.fin| ensures forall n :: n in s.fin[i].nodes ==> n in s.loc && s.loc[n] == Retired {
      assert GarbageOk(s, s.fin[i]);
    }
    FinGrown(s.fin, NextFin(s, a), s.loc);
  }

  lemma FinStep(s: State, a: Action)
    requires Inv(s) && Enabled(s, a)
    ensures FinInv(Step(s, a))
  {
    FinChange(s, a);
    FinApart(s, a);
    var fin' := NextFin(s, a);
    if |fin'| > |s.fin| {
      NewGarbage(s, a);
    }
    forall i | 0 <= i < |fin'| ensures GarbageOk(Step(s, a), fin'[i]) {
      if i < |s.fin| {
        GarbageKept(s, a, i);
      }
    }
  }

  lemma InvStep(s: State, a: Action)
    requires Inv(s) && Enabled(s, a)
    ensures Inv(Step(s, a))
  {
    HeadStep(s, a);
    NodeStep(s, a);
    OwnerStep(s, a);
    PcStep(s, a);
    FinStep(s, a);
  }
}
