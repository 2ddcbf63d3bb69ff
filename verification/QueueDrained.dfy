/** A run in which the growable queue is not FIFO: one thread, capacity one. It pushes 7, pops 7
    and pushes 8; the last push grows the drained array and copies its FREE sentinel, and the
    next pop takes that sentinel for an element. */
module QueueDrained {
  import opened Common
  import opened Queue
  import opened QueueTheorems

  ghost predicate Reaches(cap: nat, s: State) {
    exists states, acts :: IsRun(cap, states, acts) && states[|acts|] == s
  }

  lemma Extend(cap: nat, s: State, a: Action)
    requires Reaches(cap, s) && Enabled(s, a)
    ensures Reaches(cap, Step(s, a))
  {
    var states, acts :| IsRun(cap, states, acts) && states[|acts|] == s;
    assert IsRun(cap, states + [Step(s, a)], acts + [a]);
  }

  /** A state with one thread, which works on the last array. */
  function Solo(arrs: seq<Arr>, pc: Pc, calls: nat, events: nat): State {
    State(arrs, map[0 := Thread(pc, calls, events, 0)])
  }

  lemma Start(cap: nat)
    ensures Reaches(cap, Solo([MakeArr(cap, [])], Idle, 0, 0))
  {
    assert IsRun(cap, [Init(cap)], []);
    Extend(cap, Init(cap), Spawn(0));
  }

  lemma CallSolo(cap: nat, arrs: seq<Arr>, calls: nat, events: nat, push: bool, v: Value)
    requires arrs != [] && Reaches(cap, Solo(arrs, Idle, calls, events))
    ensures Reaches(cap, Solo(arrs, if push then PushData(v) else PopData, calls + 1, events))
  {
    var s := Solo(arrs, Idle, calls, events);
    var a := if push then CallPush(0, v) else CallPop(0);
    Extend(cap, s, a);
    assert Step(s, a) == Solo(arrs, if push then PushData(v) else PopData, calls + 1, events);
  }

  /** A step on the last array that leaves it with the given slots and fields. */
  lemma GoSolo(cap: nat, earlier: seq<Arr>, arr: Arr, arr': Arr, pc: Pc, pc': Pc, calls: nat, events: nat, events': nat)
    requires
      var s := Solo(earlier + [arr], pc, calls, events);
      && Reaches(cap, s) && !pc.Idle? && InBounds(s, pc) && NextPc(s, pc) == pc'
      && (if Target(pc).Some? then pc.q == |earlier| && !Installs(s, Go(0)) else true)
      && events' == (if EventOf(s, Go(0)) == Nothing then events else events + 1)
    requires arr' == if Target(pc) == None then arr else NextArr(arr, 0, pc)
    ensures Reaches(cap, Solo(earlier + [arr'], pc', calls, events'))
  {
    var s := Solo(earlier + [arr], pc, calls, events);
    Extend(cap, s, Go(0));
    assert Step(s, Go(0)).arrs == earlier + [arr'];
  }

  const SEVEN := Slot(Val(7), false)
  const EIGHT := Slot(Val(8), false)
  const MARKED := Slot(Free, true)

  function Small(slot: Slot, sentinel: Slot, wr: nat, rd: nat, dels: nat, used: nat): Arr {
    Arr([slot, sentinel], 1, wr, rd, dels, used, None, None, None)
  }

  const EMPTY_ARR := Small(EMPTY, EMPTY, 0, 0, 0, 0)
  const FULL_ARR := Small(SEVEN, EMPTY, 1, 0, 0, 1)
  const DRAINED_ARR := Small(DELETED, EMPTY, 1, 1, 1, 1)
  const MARKED_ARR := Small(DELETED, MARKED, 1, 1, 1, 1)

  /** The array that the growth installs. */
  const GROWN_ARR := Arr([EMPTY, EIGHT, EMPTY], 2, 2, 0, 0, 2, None, None, None)

  lemma PushSevenBegins()
    ensures Reaches(1, Solo([] + [EMPTY_ARR], PushSlot(7, 0, 0), 1, 0))
  {
    Start(1);
    assert MakeArr(1, []).slots == [EMPTY, EMPTY];
    assert [MakeArr(1, [])] == [] + [EMPTY_ARR];
    CallSolo(1, [] + [EMPTY_ARR], 0, 0, true, 7);
    GoSolo(1, [], EMPTY_ARR, EMPTY_ARR, PushData(7), PushIdx(7, 0), 1, 0, 0);
    GoSolo(1, [], EMPTY_ARR, EMPTY_ARR, PushIdx(7, 0), PushSlot(7, 0, 0), 1, 0, 0);
  }

  lemma PushSeven()
    ensures Reaches(1, Solo([] + [FULL_ARR], Idle, 1, 1))
  {
    PushSevenBegins();
    GoSolo(1, [], EMPTY_ARR, EMPTY_ARR, PushSlot(7, 0, 0), PushCas(7, 0, 0), 1, 0, 0);
    var filled := Small(SEVEN, EMPTY, 0, 0, 0, 1).(pusher := Some(0));
    assert EMPTY_ARR.slots[0 := SEVEN] == [SEVEN, EMPTY];
    GoSolo(1, [], EMPTY_ARR, filled, PushCas(7, 0, 0), PushBump(7, 0), 1, 0, 0);
    GoSolo(1, [], filled, FULL_ARR, PushBump(7, 0), Idle, 1, 0, 1);
  }

  lemma PopSevenBegins()
    ensures Reaches(1, Solo([] + [FULL_ARR], PopSlot(0, 0), 2, 1))
  {
    PushSeven();
    CallSolo(1, [] + [FULL_ARR], 1, 1, false, 0);
    GoSolo(1, [], FULL_ARR, FULL_ARR, PopData, PopRd(0), 2, 1, 1);
    GoSolo(1, [], FULL_ARR, FULL_ARR, PopRd(0), PopWr(0, 0), 2, 1, 1);
    GoSolo(1, [], FULL_ARR, FULL_ARR, PopWr(0, 0), PopSlot(0, 0), 2, 1, 1);
  }

  lemma PopSeven()
    ensures Reaches(1, Solo([] + [DRAINED_ARR], Idle, 2, 2))
  {
    PopSevenBegins();
    GoSolo(1, [], FULL_ARR, FULL_ARR, PopSlot(0, 0), PopCas(0, 0, SEVEN), 2, 1, 1);
    var popped := Small(DELETED, EMPTY, 1, 0, 1, 1).(popper := Some(0));
    assert FULL_ARR.slots[0 := DELETED] == [DELETED, EMPTY];
    GoSolo(1, [], FULL_ARR, popped, PopCas(0, 0, SEVEN), PopBump(0, SEVEN), 2, 1, 2);
    GoSolo(1, [], popped, DRAINED_ARR, PopBump(0, SEVEN), Idle, 2, 2, 2);
  }

  lemma PushEightBegins()
    ensures Reaches(1, Solo([] + [DRAINED_ARR], RearmMark(8, 0, 1), 3, 2))
  {
    PopSeven();
    CallSolo(1, [] + [DRAINED_ARR], 2, 2, true, 8);
    GoSolo(1, [], DRAINED_ARR, DRAINED_ARR, PushData(8), PushIdx(8, 0), 3, 2, 2);
    GoSolo(1, [], DRAINED_ARR, DRAINED_ARR, PushIdx(8, 0), RearmIdx(8, 0), 3, 2, 2);
    GoSolo(1, [], DRAINED_ARR, DRAINED_ARR, RearmIdx(8, 0), RearmMark(8, 0, 1), 3, 2, 2);
  }

  lemma PushEightMarks()
    ensures Reaches(1, Solo([] + [MARKED_ARR.(grower := Some(0))], Copying(8, 0, 1, 2, [EMPTY]), 3, 2))
  {
    PushEightBegins();
    var marked := MARKED_ARR.(grower := Some(0));
    assert DRAINED_ARR.slots[1 := MARKED] == [DELETED, MARKED];
    GoSolo(1, [], DRAINED_ARR, marked, RearmMark(8, 0, 1), RearmAlloc(8, 0, 1, EMPTY), 3, 2, 2);
    GoSolo(1, [], marked, marked, RearmAlloc(8, 0, 1, EMPTY), Copying(8, 0, 1, 2, [EMPTY]), 3, 2, 2);
  }

  lemma PushEight()
    ensures Reaches(1, Solo([MARKED_ARR] + [GROWN_ARR], Idle, 3, 3))
  {
    PushEightMarks();
    var marked := MARKED_ARR.(grower := Some(0));
    var s := Solo([] + [marked], Copying(8, 0, 1, 2, [EMPTY]), 3, 2);
    Extend(1, s, Go(0));
    assert MakeArr(2, [EMPTY, EIGHT]).slots == GROWN_ARR.slots;
    assert [EMPTY] + [EIGHT] == [EMPTY, EIGHT];
    assert Step(s, Go(0)).arrs == [MARKED_ARR] + [GROWN_ARR];
  }

  lemma PopEightBegins()
    ensures Reaches(1, Solo([MARKED_ARR] + [GROWN_ARR], PopSlot(1, 0), 4, 3))
  {
    PushEight();
    CallSolo(1, [MARKED_ARR] + [GROWN_ARR], 3, 3, false, 0);
    GoSolo(1, [MARKED_ARR], GROWN_ARR, GROWN_ARR, PopData, PopRd(1), 4, 3, 3);
    GoSolo(1, [MARKED_ARR], GROWN_ARR, GROWN_ARR, PopRd(1), PopWr(1, 0), 4, 3, 3);
    GoSolo(1, [MARKED_ARR], GROWN_ARR, GROWN_ARR, PopWr(1, 0), PopSlot(1, 0), 4, 3, 3);
  }

  /** The next pop takes the sentinel. */
  lemma SentinelPopped() returns (s: State)
    ensures Reaches(1, s) && Enabled(s, Go(0)) && EventOf(s, Go(0)) == Popped(Free)
  {
    PopEightBegins();
    GoSolo(1, [MARKED_ARR], GROWN_ARR, GROWN_ARR, PopSlot(1, 0), PopCas(1, 0, EMPTY), 4, 3, 3);
    s := Solo([MARKED_ARR] + [GROWN_ARR], PopCas(1, 0, EMPTY), 4, 3);
  }
}
