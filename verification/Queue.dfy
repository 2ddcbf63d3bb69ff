/** The growable queue of src/queue.cpp and xrcu/queue.hpp as a step relation.

    Any number of threads push and pop; a step is one access to a shared word. An array that has
    been replaced stays readable to the threads that still hold it; QueueMemory adds when it is
    destroyed. */
module Queue {
  import opened Common

  type Tid = nat
  type Value = nat

  /** A slot word: FREE, DELT or a value, and the XBIT that a growing thread sets. */
  datatype Elem = Free | Delt | Val(v: Value)
  datatype Slot = Slot(e: Elem, x: bool)

  const EMPTY := Slot(Free, false)
  const DELETED := Slot(Delt, false)

  /** One array of `cap` slots and a sentinel. The other fields after `rd` are history variables:
      how many slots have been deleted and filled, and which threads are between the CAS and the
      index bump of a push or pop, or are growing the array. */
  datatype Arr = Arr(
    slots: seq<Slot>, cap: nat, wr: nat, rd: nat,
    dels: nat, used: nat,
    pusher: Option<Tid>, popper: Option<Tid>, grower: Option<Tid>)

  /** Where a thread is. Arrays are named by their position in State.arrs. */
  datatype Pc =
    | Idle
    // _Push and q_base::push
    | PushData(v: Value)
    | PushIdx(v: Value, q: nat)
    | PushSlot(v: Value, q: nat, curr: nat)
    | PushCas(v: Value, q: nat, curr: nat)
    | PushBump(v: Value, q: nat)
    // _Rearm
    | RearmIdx(v: Value, q: nat)
    | RearmMark(v: Value, q: nat, ix: nat)
    | RearmWait(v: Value, q: nat, ix: nat)
    | RearmPeek(v: Value, q: nat, ix: nat)
    | RearmAlloc(v: Value, q: nat, ix: nat, prev: Slot)
    | Copying(v: Value, q: nat, ix: nat, i: nat, out: seq<Slot>)
    // queue::pop and q_base::pop
    | PopData
    | PopRd(q: nat)
    | PopWr(q: nat, curr: nat)
    | PopSlot(q: nat, curr: nat)
    | PopCas(q: nat, curr: nat, rv: Slot)
    | PopBump(q: nat, rv: Slot)
    | PopWait(q: nat)

  /** `calls`, `events` and `failed` are history variables: the operations begun, the ones that
      have taken effect, and the pushes ended by a failed allocation. */
  datatype Thread = Thread(pc: Pc, calls: nat, events: nat, failed: nat)

  /** The last array is the one that `impl` points to. */
  datatype State = State(arrs: seq<Arr>, threads: map<Tid, Thread>)

  datatype Action =
    | Spawn(t: Tid)
    | CallPush(t: Tid, v: Value)
    | CallPop(t: Tid)
    | AllocFail(t: Tid)
    | Go(t: Tid)

  /** q_data::make, filled with the given slots. */
  function MakeArr(cap: nat, filled: seq<Slot>): Arr {
    var rest := if |filled| <= cap + 1 then cap + 1 - |filled| else 0;
    Arr(filled + seq(rest, _ => EMPTY), cap, |filled|, 0, 0, |filled|, None, None, None)
  }

  function Init(cap: nat): State {
    State([MakeArr(cap, [])], map[])
  }

  function Impl(s: State): nat
    requires s.arrs != []
  {
    |s.arrs| - 1
  }

  /** The array a thread works on, if any. */
  function Target(pc: Pc): Option<nat> {
    if pc.Idle? || pc.PushData? || pc.PopData? then None else Some(pc.q)
  }

  /** Every index a thread is about to use exists. */
  predicate InBounds(s: State, pc: Pc) {
    && s.arrs != []
    && (Target(pc).Some? ==> pc.q < |s.arrs|)
    && (match pc
        case PushSlot(_, q, curr) => curr < |s.arrs[q].slots|
        case PushCas(_, q, curr) => curr < |s.arrs[q].slots|
        case RearmMark(_, q, ix) => ix < |s.arrs[q].slots|
        case RearmPeek(_, q, ix) => ix < |s.arrs[q].slots|
        case RearmAlloc(_, q, ix, _) => ix < |s.arrs[q].slots|
        case Copying(_, q, _, i, _) => i < s.arrs[q].cap ==> i < |s.arrs[q].slots|
        case PopSlot(q, curr) => curr < |s.arrs[q].slots|
        case PopCas(q, curr, _) => curr < |s.arrs[q].slots|
        case _ => true)
  }

  predicate Enabled(s: State, a: Action) {
    if a.Spawn? then a.t !in s.threads
    else
      && a.t in s.threads
      && InBounds(s, s.threads[a.t].pc)
      && (match a
          case AllocFail(t) => s.threads[t].pc.RearmAlloc?
          case Go(t) => !s.threads[t].pc.Idle?
          case _ => s.threads[a.t].pc.Idle?)
  }

  function NextPc(s: State, pc: Pc): Pc
    requires InBounds(s, pc) && !pc.Idle?
  {
    match pc
    case PushData(v) => PushIdx(v, Impl(s))
    case PushIdx(v, q) =>
      if s.arrs[q].wr >= s.arrs[q].cap then RearmIdx(v, q) else PushSlot(v, q, s.arrs[q].wr)
    case PushSlot(v, q, curr) =>
      var xv := s.arrs[q].slots[curr];
      if xv.x then RearmIdx(v, q)
      else if xv == EMPTY then PushCas(v, q, curr)
      else PushIdx(v, q)
    case PushCas(v, q, curr) =>
      if s.arrs[q].slots[curr] == EMPTY then PushBump(v, q) else PushIdx(v, q)
    case PushBump(v, q) => Idle
    case RearmIdx(v, q) => RearmMark(v, q, s.arrs[q].rd)
    case RearmMark(v, q, ix) =>
      var prev := s.arrs[q].slots[ix];
      if prev == DELETED then RearmIdx(v, q)
      else if !prev.x then RearmAlloc(v, q, ix, prev)
      else RearmWait(v, q, ix)
    case RearmWait(v, q, ix) => if q != Impl(s) then PushData(v) else RearmPeek(v, q, ix)
    case RearmPeek(v, q, ix) =>
      if !s.arrs[q].slots[ix].x then RearmIdx(v, q) else RearmWait(v, q, ix)
    case RearmAlloc(v, q, ix, prev) => Copying(v, q, ix, ix + 1, [prev])
    case Copying(v, q, ix, i, out) =>
      if i < s.arrs[q].cap then Copying(v, q, ix, i + 1, out + [s.arrs[q].slots[i]]) else Idle
    case PopData => PopRd(Impl(s))
    case PopRd(q) => PopWr(q, s.arrs[q].rd)
    case PopWr(q, curr) => if curr >= s.arrs[q].wr then Idle else PopSlot(q, curr)
    case PopSlot(q, curr) =>
      var rv := s.arrs[q].slots[curr];
      if rv.x then PopWait(q)
      else if rv != DELETED then PopCas(q, curr, rv)
      else PopRd(q)
    case PopCas(q, curr, rv) =>
      if s.arrs[q].slots[curr] == rv then PopBump(q, rv) else PopRd(q)
    case PopBump(q, rv) => Idle
    case PopWait(q) => if q != Impl(s) then PopData else PopWait(q)
  }

  function Mark(arr: Arr, i: nat, x: bool): Arr
    requires i < |arr.slots|
  {
    arr.(slots := arr.slots[i := arr.slots[i].(x := x)])
  }

  /** What the step does to the array the thread works on. */
  function NextArr(arr: Arr, t: Tid, pc: Pc): Arr
    requires (pc.PushCas? || pc.PopCas?) ==> pc.curr < |arr.slots|
    requires pc.RearmMark? ==> pc.ix < |arr.slots|
    requires pc.Copying? && pc.i < arr.cap ==> pc.i < |arr.slots|
  {
    match pc
    case PushCas(v, _, curr) =>
      if arr.slots[curr] == EMPTY then
        arr.(slots := arr.slots[curr := Slot(Val(v), false)], used := arr.used + 1, pusher := Some(t))
      else arr
    case PushBump(_, _) => arr.(wr := arr.wr + 1, pusher := None)
    case RearmMark(_, _, ix) =>
      var prev := arr.slots[ix];
      var marked := Mark(arr, ix, true);
      if prev != DELETED && !prev.x then marked.(grower := Some(t)) else marked
    case Copying(_, _, _, i, _) =>
      if i < arr.cap then Mark(arr, i, true) else arr.(grower := None)
    case PopCas(_, curr, rv) =>
      if arr.slots[curr] == rv then
        arr.(slots := arr.slots[curr := DELETED], dels := arr.dels + 1, popper := Some(t))
      else arr
    case PopBump(_, _) => arr.(rd := arr.rd + 1, popper := None)
    case _ => arr
  }

  /** The step that stores the new array into `impl`. */
  predicate Installs(s: State, a: Action)
    requires Enabled(s, a)
  {
    && a.Go? && s.threads[a.t].pc.Copying?
    && s.threads[a.t].pc.i >= s.arrs[s.threads[a.t].pc.q].cap
  }

  function NewArr(s: State, pc: Pc): Arr
    requires InBounds(s, pc) && pc.Copying?
  {
    MakeArr(2 * s.arrs[pc.q].cap, pc.out + [Slot(Val(pc.v), false)])
  }

  function NextArrs(s: State, a: Action): seq<Arr>
    requires Enabled(s, a)
  {
    if a.AllocFail? then
      var pc := s.threads[a.t].pc;
      s.arrs[pc.q := Mark(s.arrs[pc.q], pc.ix, false).(grower := None)]
    else if a.Go? && Target(s.threads[a.t].pc).Some? then
      var pc := s.threads[a.t].pc;
      var arrs := s.arrs[pc.q := NextArr(s.arrs[pc.q], a.t, pc)];
      if Installs(s, a) then arrs + [NewArr(s, pc)] else arrs
    else s.arrs
  }

  /** The effects on the abstract queue. A push takes effect when it bumps wr_idx, or when the
      array it has grown is installed; a pop when its CAS succeeds; an empty answer when the
      write index is found not to exceed the read index loaded before. */
  datatype Event = Pushed(v: Value) | Popped(e: Elem) | FoundEmpty | Nothing

  function EventOf(s: State, a: Action): Event
    requires Enabled(s, a)
  {
    if !a.Go? then Nothing
    else
      match s.threads[a.t].pc
      case PushBump(v, _) => Pushed(v)
      case Copying(v, q, _, i, _) => if i >= s.arrs[q].cap then Pushed(v) else Nothing
      case PopCas(q, curr, rv) => if s.arrs[q].slots[curr] == rv then Popped(rv.e) else Nothing
      case PopWr(q, curr) => if curr >= s.arrs[q].wr then FoundEmpty else Nothing
      case _ => Nothing
  }

  function NextThread(s: State, a: Action): Thread
    requires Enabled(s, a)
  {
    if a.Spawn? then Thread(Idle, 0, 0, 0)
    else
      var th := s.threads[a.t];
      match a
      case CallPush(_, v) => th.(pc := PushData(v), calls := th.calls + 1)
      case CallPop(_) => th.(pc := PopData, calls := th.calls + 1)
      case AllocFail(_) => th.(pc := Idle, failed := th.failed + 1)
      case Go(_) =>
        th.(pc := NextPc(s, th.pc),
            events := if EventOf(s, a) == Nothing then th.events else th.events + 1)
  }

  function Step(s: State, a: Action): State
    requires Enabled(s, a)
  {
    State(NextArrs(s, a), s.threads[a.t := NextThread(s, a)])
  }

  /** The abstract queue: the slots that have been published and not deleted. */
  function Contents(arr: Arr): seq<Elem> {
    if arr.dels <= arr.wr <= |arr.slots|
    then seq(arr.wr - arr.dels, i requires 0 <= i < arr.wr - arr.dels => arr.slots[arr.dels + i].e)
    else []
  }

  function QueueOf(s: State): seq<Elem>
    requires s.arrs != []
  {
    Contents(s.arrs[Impl(s)])
  }
}
