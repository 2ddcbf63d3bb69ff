/** The stacks of src/stack.cpp as a step relation over any number of heads and threads.

    A step is one access to a shared word. The low bit of a head is the spin bit: while it is set,
    only the thread that set it changes that head. Retired nodes are destroyed by walking their
    chain, once the critical sections that were open when they were retired have ended. */
module Stack {
  import opened Common

  type Tid = nat
  type Node = nat
  type Hid = nat

  /** A node pointer with the spin bit beside it. */
  datatype Word = Word(node: Option<Node>, spin: bool)

  const NULL := Word(None, false)

  function Ptr(n: Node): Word {
    Word(Some(n), false)
  }

  /** A head word. The other fields are history variables: the thread that set the spin bit, and
      the first node and all nodes of the abstract stack. */
  datatype Head = Head(word: Word, owner: Option<Tid>, root: Option<Node>, spec: seq<Node>)

  /** What a call of set_spin is for; Swap2 carries the node found under the first head. */
  datatype Why =
    | Swap1(h: Hid, h2: Hid)
    | Swap2(h: Hid, h1: Hid, ln: Option<Node>)
    | Clear(h: Hid)

  datatype Pc =
    | Idle
    | PushLoad(h: Hid, n: Node)
    | PushCas(h: Hid, n: Node)
    | BatchLoad(h: Hid, ns: seq<Node>)
    | BatchCas(h: Hid, ns: seq<Node>, tmp: Word)
    | PopLoad(h: Hid)
    | PopNext(h: Hid, n: Node)
    | PopCas(h: Hid, n: Node, nx: Word)
    | PopUnlink(n: Node)
    | SpinLoad(why: Why)
    | SpinCas(why: Why, tmp: Word)
    | SwapStore1(h1: Hid, h2: Hid, ln: Option<Node>, rn: Option<Node>)
    | SwapStore2(h2: Hid, ln: Option<Node>)
    | ClearStore(h: Hid, ret: Option<Node>)

  /** History variables: `calls` counts the operations a thread has begun, and so names its
      critical sections; `events` counts those that have taken effect. */
  datatype Thread = Thread(pc: Pc, calls: nat, events: nat)

  /** The life of a node: owned by the thread that allocated it, linked in some stack, taken off
      by a pop that has not cut its next pointer yet, retired for destruction. */
  datatype Loc = Private(t: Tid) | Linked | Unlinking(t: Tid) | Retired

  /** A finalized node and, as history variables, the nodes chained to it at that moment and the
      critical sections open at that moment. */
  datatype Garbage = Garbage(root: Node, nodes: seq<Node>, guards: map<Tid, nat>, destroyed: bool)

  datatype State = State(
    heads: map<Hid, Head>, next: map<Node, Word>, threads: map<Tid, Thread>,
    loc: map<Node, Loc>, fin: seq<Garbage>)

  const INIT := State(map[], map[], map[], map[], [])

  datatype Action =
    | Spawn(t: Tid)
    | NewStack(t: Tid, h: Hid)
    | CallPush(t: Tid, h: Hid, n: Node)
    | CallBatch(t: Tid, h: Hid, ns: seq<Node>)
    | CallPop(t: Tid, h: Hid)
    | CallSwap(t: Tid, h1: Hid, h2: Hid)
    | CallClear(t: Tid, h: Hid)
    | Go(t: Tid)
    | WeakFail(t: Tid)
    | Destroy(t: Tid, i: nat, ns: seq<Node>)

  function First(ns: seq<Node>): Option<Node> {
    if ns == [] then None else Some(ns[0])
  }

  /** The node after position i. */
  function After(ns: seq<Node>, i: nat): Option<Node> {
    if i + 1 < |ns| then Some(ns[i + 1]) else None
  }

  /** Following the next pointers from p visits exactly ns and ends. */
  predicate IsChain(next: map<Node, Word>, p: Option<Node>, ns: seq<Node>) {
    p == First(ns) && forall i :: 0 <= i < |ns| ==> ns[i] in next && next[ns[i]] == Word(After(ns, i), false)
  }

  /** push, pop and swap run inside a critical section; clear does not. */
  predicate InSection(pc: Pc) {
    match pc
    case Idle => false
    case SpinLoad(why) => !why.Clear?
    case SpinCas(why, _) => !why.Clear?
    case ClearStore(_, _) => false
    case _ => true
  }

  function OpenSections(threads: map<Tid, Thread>): map<Tid, nat> {
    map t | t in threads && InSection(threads[t].pc) :: threads[t].calls
  }

  predicate StillOpen(threads: map<Tid, Thread>, secs: map<Tid, nat>, t: Tid) {
    t in secs && t in threads && InSection(threads[t].pc) && threads[t].calls == secs[t]
  }

  /** A node whose memory has not been given back. */
  predicate Allocated(s: State, n: Node) {
    n in s.next
  }

  /** The heads and nodes a thread is about to touch exist. */
  predicate Touchable(s: State, pc: Pc) {
    match pc
    case Idle => true
    case PushLoad(h, n) => h in s.heads && Allocated(s, n)
    case PushCas(h, n) => h in s.heads && Allocated(s, n)
    case BatchLoad(h, ns) => h in s.heads && ns != [] && Allocated(s, ns[|ns| - 1])
    case BatchCas(h, ns, _) => h in s.heads && ns != []
    case PopLoad(h) => h in s.heads
    case PopNext(h, n) => Allocated(s, n)
    case PopCas(h, _, _) => h in s.heads
    case PopUnlink(n) => Allocated(s, n)
    case SpinLoad(why) => why.h in s.heads
    case SpinCas(why, _) => why.h in s.heads && (why.Swap2? ==> why.h1 in s.heads)
    case SwapStore1(h1, _, _, _) => h1 in s.heads
    case SwapStore2(h2, _) => h2 in s.heads
    case ClearStore(h, _) => h in s.heads
  }

  predicate AtCas(pc: Pc) {
    pc.PushCas? || pc.BatchCas? || pc.PopCas? || pc.SpinCas?
  }

  predicate Enabled(s: State, a: Action) {
    if a.Spawn? then a.t !in s.threads
    else
      && a.t in s.threads
      && var pc := s.threads[a.t].pc;
         (match a
          case NewStack(_, h) => pc.Idle? && h !in s.heads
          case CallPush(_, h, n) => pc.Idle? && h in s.heads && n !in s.loc
          case CallBatch(_, h, ns) =>
            pc.Idle? && h in s.heads && ns != [] && Distinct(ns) && forall n :: n in ns ==> n !in s.loc
          case CallPop(_, h) => pc.Idle? && h in s.heads
          case CallSwap(_, h1, h2) => pc.Idle? && h1 in s.heads && h2 in s.heads && h1 != h2
          case CallClear(_, h) => pc.Idle? && h in s.heads
          case Go(_) => !pc.Idle? && Touchable(s, pc)
          case WeakFail(_) => AtCas(pc) && Touchable(s, pc)
          case Destroy(_, i, ns) =>
            && pc.Idle? && i < |s.fin| && !s.fin[i].destroyed
            && IsChain(s.next, Some(s.fin[i].root), ns)
            && forall t :: t in s.fin[i].guards ==> !StillOpen(s.threads, s.fin[i].guards, t))
  }

  // ----- Program counters -----

  /** set_spin found the spin bit clear and set it. */
  function AfterSpin(why: Why, tmp: Option<Node>): Pc {
    match why
    case Swap1(h, h2) => SpinLoad(Swap2(h2, h, tmp))
    case Swap2(h, h1, ln) => SwapStore1(h1, h, ln, tmp)
    case Clear(h) => ClearStore(h, tmp)
  }

  /** The compare-and-exchange at which the thread stands would succeed. */
  predicate CasHits(s: State, pc: Pc)
    requires Touchable(s, pc)
  {
    match pc
    case PushCas(h, n) => !s.next[n].spin && s.heads[h].word == s.next[n]
    case BatchCas(h, _, tmp) => s.heads[h].word == tmp
    case PopCas(h, n, _) => s.heads[h].word == Ptr(n)
    case SpinCas(why, tmp) => s.heads[why.h].word == tmp
    case _ => false
  }

  /** Back to the head of the retry loop. */
  function Retry(pc: Pc): Pc {
    match pc
    case PushCas(h, n) => PushLoad(h, n)
    case BatchCas(h, ns, _) => BatchLoad(h, ns)
    case PopCas(h, _, _) => PopLoad(h)
    case SpinCas(why, _) => SpinLoad(why)
    case _ => pc
  }

  function NextPc(s: State, pc: Pc): Pc
    requires Touchable(s, pc)
  {
    match pc
    case Idle => Idle
    case PushLoad(h, n) => PushCas(h, n)
    case PushCas(h, n) => if CasHits(s, pc) then Idle else Retry(pc)
    case BatchLoad(h, ns) => if s.heads[h].word.spin then pc else BatchCas(h, ns, s.heads[h].word)
    case BatchCas(h, ns, tmp) => if CasHits(s, pc) then Idle else Retry(pc)
    case PopLoad(h) =>
      var w := s.heads[h].word;
      if w.spin then pc else if w.node == None then Idle else PopNext(h, w.node.value)
    case PopNext(h, n) => PopCas(h, n, s.next[n])
    case PopCas(h, n, nx) => if CasHits(s, pc) then PopUnlink(n) else Retry(pc)
    case PopUnlink(n) => Idle
    case SpinLoad(why) =>
      if s.heads[why.h].word.spin then pc else SpinCas(why, s.heads[why.h].word)
    case SpinCas(why, tmp) => if CasHits(s, pc) then AfterSpin(why, tmp.node) else Retry(pc)
    case SwapStore1(h1, h2, ln, rn) => SwapStore2(h2, ln)
    case SwapStore2(h2, ln) => Idle
    case ClearStore(h, ret) => Idle
  }

  function Called(th: Thread, pc: Pc): Thread {
    th.(pc := pc, calls := th.calls + 1)
  }

  function NextThread(s: State, a: Action): Thread
    requires Enabled(s, a)
  {
    if a.Spawn? then Thread(Idle, 0, 0)
    else
      var th := s.threads[a.t];
      match a
      case CallPush(_, h, n) => Called(th, PushLoad(h, n))
      case CallBatch(_, h, ns) => Called(th, BatchLoad(h, ns))
      case CallPop(_, h) => Called(th, PopLoad(h))
      case CallSwap(_, h1, h2) => Called(th, SpinLoad(Swap1(h1, h2)))
      case CallClear(_, h) => Called(th, SpinLoad(Clear(h)))
      case Go(_) =>
        th.(pc := NextPc(s, th.pc), events := if EventOf(s, a) == Nothing then th.events else th.events + 1)
      case WeakFail(_) => th.(pc := Retry(th.pc))
      case _ => th
  }

  // ----- Shared words -----

  function Rest(ns: seq<Node>): seq<Node> {
    if ns == [] then [] else ns[1..]
  }

  /** What a successful compare-and-exchange writes, with the history variables beside it. The
      abstract stacks are swapped when the second spin bit is set. */
  function CasHeads(s: State, t: Tid, pc: Pc): map<Hid, Head>
    requires Touchable(s, pc)
  {
    match pc
    case PushCas(h, n) =>
      s.heads[h := s.heads[h].(word := Ptr(n), root := Some(n), spec := [n] + s.heads[h].spec)]
    case BatchCas(h, ns, _) =>
      s.heads[h := s.heads[h].(word := Ptr(ns[0]), root := Some(ns[0]), spec := ns + s.heads[h].spec)]
    case PopCas(h, n, nx) =>
      s.heads[h := s.heads[h].(word := nx, root := nx.node, spec := Rest(s.heads[h].spec))]
    case SpinCas(why, tmp) =>
      var spun := s.heads[why.h].(word := tmp.(spin := true), owner := Some(t));
      if why.Swap2? then
        var first := s.heads[why.h1];
        s.heads[why.h := spun.(root := first.root, spec := first.spec)]
               [why.h1 := first.(root := spun.root, spec := spun.spec)]
      else s.heads[why.h := spun]
    case _ => s.heads
  }

  function NextHeads(s: State, a: Action): map<Hid, Head>
    requires Enabled(s, a)
  {
    match a
    case NewStack(_, h) => s.heads[h := Head(NULL, None, None, [])]
    case Go(t) =>
      (var pc := s.threads[t].pc;
       match pc
       case SwapStore1(h1, _, _, rn) => s.heads[h1 := s.heads[h1].(word := Word(rn, false), owner := None)]
       case SwapStore2(h2, ln) => s.heads[h2 := s.heads[h2].(word := Word(ln, false), owner := None)]
       case ClearStore(h, _) => s.heads[h := Head(NULL, None, None, [])]
       case _ => if CasHits(s, pc) then CasHeads(s, t, pc) else s.heads)
    case _ => s.heads
  }

  /** The next pointers of a chain built by its allocating thread. */
  function BuildChain(ns: seq<Node>): map<Node, Word> {
    if ns == [] then map[]
    else BuildChain(ns[1..])[ns[0] := Word(After(ns, 0), false)]
  }

  /** A failed compare-and-exchange of the single push leaves the head it saw in the node. */
  function NextNext(s: State, a: Action): map<Node, Word>
    requires Enabled(s, a)
  {
    match a
    case CallPush(_, _, n) => s.next[n := NULL]
    case CallBatch(_, _, ns) => s.next + BuildChain(ns)
    case Go(t) =>
      (var pc := s.threads[t].pc;
       match pc
       case PushLoad(h, n) => s.next[n := s.heads[h].word]
       case PushCas(h, n) =>
         if s.next[n].spin || CasHits(s, pc) then s.next else s.next[n := s.heads[h].word]
       case BatchLoad(h, ns) =>
         if s.heads[h].word.spin then s.next else s.next[ns[|ns| - 1] := s.heads[h].word]
       case PopUnlink(n) => s.next[n := NULL]
       case _ => s.next)
    case WeakFail(t) =>
      (match s.threads[t].pc
       case PushCas(h, n) => if s.next[n].spin then s.next else s.next[n := s.heads[h].word]
       case _ => s.next)
    case Destroy(_, _, ns) => map n | n in s.next && n !in ns :: s.next[n]
    case _ => s.next
  }

  // ----- History variables -----

  function SetAll(loc: map<Node, Loc>, ns: seq<Node>, l: Loc): map<Node, Loc> {
    map n | n in loc.Keys + (set x | x in ns) :: if n in ns then l else loc[n]
  }

  function NextLoc(s: State, a: Action): map<Node, Loc>
    requires Enabled(s, a)
  {
    match a
    case CallPush(t, _, n) => s.loc[n := Private(t)]
    case CallBatch(t, _, ns) => SetAll(s.loc, ns, Private(t))
    case Go(t) =>
      (var pc := s.threads[t].pc;
       match pc
       case PushCas(h, n) => if CasHits(s, pc) then s.loc[n := Linked] else s.loc
       case BatchCas(h, ns, _) => if CasHits(s, pc) then SetAll(s.loc, ns, Linked) else s.loc
       case PopCas(h, n, _) => if CasHits(s, pc) then s.loc[n := Unlinking(t)] else s.loc
       case PopUnlink(n) => s.loc[n := Retired]
       case ClearStore(h, _) => SetAll(s.loc, s.heads[h].spec, Retired)
       case _ => s.loc)
    case _ => s.loc
  }

  /** finalize, with the sections that are open at that moment. */
  function Finalized(s: State, root: Node, nodes: seq<Node>): seq<Garbage> {
    s.fin + [Garbage(root, nodes, OpenSections(s.threads), false)]
  }

  function NextFin(s: State, a: Action): seq<Garbage>
    requires Enabled(s, a)
  {
    match a
    case Go(t) =>
      (match s.threads[t].pc
       case PopUnlink(n) => Finalized(s, n, [n])
       case ClearStore(h, ret) =>
         if ret == None then s.fin else Finalized(s, ret.value, s.heads[h].spec)
       case _ => s.fin)
    case Destroy(_, i, _) => s.fin[i := s.fin[i].(destroyed := true)]
    case _ => s.fin
  }

  function Step(s: State, a: Action): State
    requires Enabled(s, a)
  {
    State(NextHeads(s, a), NextNext(s, a), s.threads[a.t := NextThread(s, a)], NextLoc(s, a), NextFin(s, a))
  }

  /** The effects on the abstract stacks. */
  datatype Event =
    | Pushed(h: Hid, ns: seq<Node>)
    | Popped(h: Hid, n: Node)
    | FoundEmpty(h: Hid)
    | Swapped(h1: Hid, h2: Hid)
    | Cleared(h: Hid, first: Option<Node>)
    | Nothing

  function EventOf(s: State, a: Action): Event
    requires Enabled(s, a)
  {
    if !a.Go? then Nothing
    else
      var pc := s.threads[a.t].pc;
      match pc
      case PushCas(h, n) => if CasHits(s, pc) then Pushed(h, [n]) else Nothing
      case BatchCas(h, ns, _) => if CasHits(s, pc) then Pushed(h, ns) else Nothing
      case PopLoad(h) => if s.heads[h].word == NULL then FoundEmpty(h) else Nothing
      case PopCas(h, n, _) => if CasHits(s, pc) then Popped(h, n) else Nothing
      case SpinCas(why, _) =>
        if why.Swap2? && CasHits(s, pc) then Swapped(why.h1, why.h) else Nothing
      case ClearStore(h, ret) => Cleared(h, ret)
      case _ => Nothing
  }
}
