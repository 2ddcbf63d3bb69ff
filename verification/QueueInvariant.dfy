/** The inductive invariant of the growable queue. */
module QueueInvariant {
  import opened Common
  import opened Queue

  /** Slots only ever move from FREE to a value to DELT, in index order; the index bumps lag at
      most one step behind; a mark means that the array is full. */
  ghost predicate ArrShape(arr: Arr) {
    && |arr.slots| == arr.cap + 1
    && arr.cap >= 1
    && arr.rd + (if arr.popper.Some? then 1 else 0) == arr.dels <= arr.wr
    && arr.wr + (if arr.pusher.Some? then 1 else 0) == arr.used <= arr.cap
    && (forall i :: 0 <= i < arr.dels ==> arr.slots[i].e == Delt)
    && (forall i :: arr.dels <= i < arr.used ==> arr.slots[i].e.Val?)
    && (forall i :: arr.used <= i <= arr.cap ==> arr.slots[i].e == Free)
    && (forall i :: 0 <= i <= arr.cap && arr.slots[i].x ==> arr.wr == arr.cap)
    && (arr.grower.Some? ==> arr.wr == arr.cap && arr.popper == None && arr.slots[arr.dels].x)
  }

  /** An array that has been replaced is frozen: it is full, not drained, and all that is left in
      it is marked. Only the installed array can have a grower, and without one nothing that is
      still to be popped or filled is marked. */
  ghost predicate ArrOk(arr: Arr, current: bool) {
    && ArrShape(arr)
    && (if current then arr.grower == None ==> forall i :: arr.dels <= i <= arr.cap ==> !arr.slots[i].x
        else Frozen(arr))
  }

  ghost predicate Frozen(arr: Arr)
    requires ArrShape(arr)
  {
    && arr.grower == None && arr.popper == None
    && arr.wr == arr.cap && arr.dels < arr.cap
    && forall i :: arr.dels <= i < arr.cap ==> arr.slots[i].x
  }

  /** The growing thread stopped both indices with its first mark and has copied up to i. */
  ghost predicate GrowOk(arr: Arr, ix: nat, i: nat, out: seq<Slot>) {
    && ix == arr.rd == arr.dels < i <= arr.cap + 1 == |arr.slots|
    && (ix < arr.cap ==> i <= arr.cap)
    && |out| == i - ix
    && (forall k :: 0 <= k < |out| ==> out[k] == Slot(arr.slots[ix + k].e, false))
    && (forall j :: ix <= j < i ==> arr.slots[j].x)
    && (forall j :: i <= j <= arr.cap ==> !arr.slots[j].x)
  }

  /** What a thread knows about the array it works on. */
  ghost predicate PcOk(arr: Arr, pc: Pc) {
    match pc
    case PushSlot(_, _, curr) => curr < arr.cap && curr <= arr.wr
    case PushCas(_, _, curr) => curr < arr.cap && curr <= arr.wr
    case RearmIdx(_, _) => arr.wr == arr.cap
    case RearmMark(_, _, ix) => arr.wr == arr.cap && ix <= arr.rd
    case RearmWait(_, _, ix) => arr.wr == arr.cap && ix <= arr.rd
    case RearmPeek(_, _, ix) => arr.wr == arr.cap && ix <= arr.rd
    case RearmAlloc(_, _, ix, prev) => GrowOk(arr, ix, ix + 1, [prev])
    case Copying(_, _, ix, i, out) => GrowOk(arr, ix, i, out)
    case PushBump(v, _) => arr.wr < |arr.slots| && arr.slots[arr.wr].e == Val(v)
    case PopWr(_, curr) => curr <= arr.rd
    case PopSlot(_, curr) => curr <= arr.rd && curr < arr.wr
    case PopCas(_, curr, rv) => curr <= arr.rd && curr < arr.wr && !rv.x && rv.e != Delt
    case _ => true
  }

  predicate Growing(pc: Pc) {
    pc.RearmAlloc? || pc.Copying?
  }

  /** The owners recorded in array q are the threads whose program counters say so. */
  ghost predicate OwnerOk(arr: Arr, q: nat, t: Tid, pc: Pc) {
    && (arr.pusher == Some(t) <==> pc.PushBump? && pc.q == q)
    && (arr.popper == Some(t) <==> pc.PopBump? && pc.q == q)
    && (arr.grower == Some(t) <==> Growing(pc) && pc.q == q)
  }

  ghost predicate ArrsInv(s: State) {
    && s.arrs != []
    && forall q :: 0 <= q < |s.arrs| ==> ArrOk(s.arrs[q], q == Impl(s))
  }

  ghost predicate OwnerInv(s: State) {
    && (forall q, t :: 0 <= q < |s.arrs| && t in s.threads ==> OwnerOk(s.arrs[q], q, t, s.threads[t].pc))
    && (forall q :: 0 <= q < |s.arrs| ==>
          && (s.arrs[q].pusher.Some? ==> s.arrs[q].pusher.value in s.threads)
          && (s.arrs[q].popper.Some? ==> s.arrs[q].popper.value in s.threads)
          && (s.arrs[q].grower.Some? ==> s.arrs[q].grower.value in s.threads))
  }

  ghost predicate ThreadOk(s: State, t: Tid)
    requires t in s.threads
  {
    var pc := s.threads[t].pc;
    Target(pc).Some? ==> pc.q < |s.arrs| && PcOk(s.arrs[pc.q], pc)
  }

  ghost predicate ThreadInv(s: State) {
    forall t :: t in s.threads ==> ThreadOk(s, t)
  }

  ghost predicate Inv(s: State) {
    ArrsInv(s) && OwnerInv(s) && ThreadInv(s)
  }

  /** The step is not the installation of an array grown from a drained one. */
  predicate Good(s: State, a: Action)
    requires Enabled(s, a)
  {
    Installs(s, a) ==> s.threads[a.t].pc.ix < s.arrs[s.threads[a.t].pc.q].cap
  }

  lemma InitInv(cap: nat)
    requires cap >= 1
    ensures Inv(Init(cap))
  {
  }

  /** No thread indexes outside its array, so the bounds in Enabled exclude nothing. */
  lemma AlwaysInBounds(s: State, t: Tid)
    requires Inv(s) && t in s.threads
    ensures InBounds(s, s.threads[t].pc)
  {
    assert ThreadOk(s, t);
    var pc := s.threads[t].pc;
    if Target(pc).Some? {
      assert ArrOk(s.arrs[pc.q], pc.q == Impl(s));
    }
  }

  // ----- One array under one step -----

  /** A push CAS can only hit the slot at the write index. */
  lemma PushCasHits(arr: Arr, curr: nat)
    requires ArrShape(arr) && curr < arr.cap && curr <= arr.wr
    requires arr.slots[curr] == EMPTY
    ensures curr == arr.wr == arr.used && arr.pusher == None
  {
  }

  /** A pop CAS can only hit the slot at the read index of the installed array, while no thread
      is growing it. */
  lemma PopCasHits(arr: Arr, current: bool, curr: nat)
    requires ArrOk(arr, current) && curr <= arr.rd && curr < arr.wr
    requires !arr.slots[curr].x && arr.slots[curr].e != Delt
    ensures curr == arr.rd == arr.dels && arr.popper == None && arr.grower == None && current
    ensures arr.slots[curr].e.Val?
  {
  }

  /** The first mark of a growth can only hit the slot at the read index of the installed array,
      while nobody else is growing it and no pop is between its CAS and its bump. */
  lemma FirstMarkHits(arr: Arr, current: bool, ix: nat)
    requires ArrOk(arr, current) && arr.wr == arr.cap && ix <= arr.rd
    requires !arr.slots[ix].x && arr.slots[ix] != DELETED
    ensures ix == arr.rd == arr.dels && arr.popper == None && arr.grower == None && current
  {
  }

  /** Where the three CAS-like steps can succeed. */
  lemma Hits(arr: Arr, current: bool, pc: Pc)
    requires ArrOk(arr, current) && PcOk(arr, pc)
    ensures pc.PushCas? && arr.slots[pc.curr] == EMPTY ==>
              pc.curr == arr.wr == arr.used && arr.pusher == None
    ensures pc.RearmMark? && !arr.slots[pc.ix].x && arr.slots[pc.ix] != DELETED ==>
              pc.ix == arr.rd == arr.dels && arr.popper == None && arr.grower == None && current
    ensures pc.PopCas? && arr.slots[pc.curr] == pc.rv ==>
              pc.curr == arr.rd == arr.dels && arr.popper == None && arr.grower == None && current
              && pc.rv.e.Val?
  {
    if pc.PushCas? && arr.slots[pc.curr] == EMPTY {
      PushCasHits(arr, pc.curr);
    } else if pc.RearmMark? && !arr.slots[pc.ix].x && arr.slots[pc.ix] != DELETED {
      FirstMarkHits(arr, current, pc.ix);
    } else if pc.PopCas? && arr.slots[pc.curr] == pc.rv {
      PopCasHits(arr, current, pc.curr);
    }
  }

  // ----- One array under one step -----

  /** The step of a thread that installs the array it has grown. */
  predicate AtInstall(arr: Arr, pc: Pc) {
    pc.Copying? && pc.i >= arr.cap
  }

  /** Thread t works on arr, which is array q. */
  ghost predicate WorksOn(arr: Arr, current: bool, q: nat, t: Tid, pc: Pc) {
    ArrOk(arr, current) && Target(pc) == Some(q) && PcOk(arr, pc) && OwnerOk(arr, q, t, pc)
  }

  lemma MarkKeepsShape(arr: Arr, current: bool, q: nat, t: Tid, pc: Pc)
    requires WorksOn(arr, current, q, t, pc) && !AtInstall(arr, pc) && (pc.RearmMark? || pc.Copying?)
    ensures ArrShape(NextArr(arr, t, pc))
  {
    Hits(arr, current, pc);
  }

  /** Every step of a thread on its array, except an installation, keeps the array in shape. */
  lemma ShapeKept(arr: Arr, current: bool, q: nat, t: Tid, pc: Pc)
    requires WorksOn(arr, current, q, t, pc) && !AtInstall(arr, pc)
    ensures ArrShape(NextArr(arr, t, pc))
  {
    if pc.RearmMark? || pc.Copying? {
      MarkKeepsShape(arr, current, q, t, pc);
    } else {
      Hits(arr, current, pc);
    }
  }

  lemma ArrKept(arr: Arr, current: bool, q: nat, t: Tid, pc: Pc)
    requires WorksOn(arr, current, q, t, pc) && !AtInstall(arr, pc)
    ensures ArrOk(NextArr(arr, t, pc), current)
  {
    Hits(arr, current, pc);
    ShapeKept(arr, current, q, t, pc);
  }

  /** Nothing that a growing thread has seen changes under it. */
  lemma GrowerKept(arr: Arr, current: bool, q: nat, t: Tid, pc: Pc, u: Tid, pcu: Pc)
    requires WorksOn(arr, current, q, t, pc) && WorksOn(arr, current, q, u, pcu) && u != t && Growing(pcu)
    ensures PcOk(NextArr(arr, t, pc), pcu)
  {
    Hits(arr, current, pc);
    assert arr.grower == Some(u);
    assert forall j :: arr.dels <= j <= arr.cap ==> NextArr(arr, t, pc).slots[j] == arr.slots[j];
  }

  /** What another thread u knows about the array survives. */
  lemma OtherKept(arr: Arr, current: bool, q: nat, t: Tid, pc: Pc, u: Tid, pcu: Pc)
    requires WorksOn(arr, current, q, t, pc) && WorksOn(arr, current, q, u, pcu) && u != t
    ensures PcOk(NextArr(arr, t, pc), pcu)
  {
    if Growing(pcu) {
      GrowerKept(arr, current, q, t, pc, u, pcu);
    } else {
      Hits(arr, current, pc);
    }
  }

  lemma OwnersKept(arr: Arr, current: bool, q: nat, t: Tid, pc: Pc, u: Tid, pcu: Pc)
    requires WorksOn(arr, current, q, t, pc) && OwnerOk(arr, q, u, pcu) && u != t
    ensures OwnerOk(NextArr(arr, t, pc), q, u, pcu)
  {
    Hits(arr, current, pc);
  }

  /** The first mark and each step of the copy loop extend what the growing thread has copied. */
  lemma OwnGrowthKept(s: State, current: bool, q: nat, t: Tid, pc: Pc)
    requires q < |s.arrs| && WorksOn(s.arrs[q], current, q, t, pc) && Growing(NextPc(s, pc))
    ensures PcOk(NextArr(s.arrs[q], t, pc), NextPc(s, pc))
  {
    Hits(s.arrs[q], current, pc);
  }

  lemma OwnPopKept(s: State, current: bool, q: nat, t: Tid, pc: Pc)
    requires q < |s.arrs| && WorksOn(s.arrs[q], current, q, t, pc)
    requires pc.PopRd? || pc.PopWr? || pc.PopSlot? || pc.PopCas? || pc.PopBump? || pc.PopWait?
    ensures Target(NextPc(s, pc)) in {None, Some(q)}
    ensures Target(NextPc(s, pc)) == Some(q) ==> PcOk(NextArr(s.arrs[q], t, pc), NextPc(s, pc))
  {
  }

  lemma OwnPushKept(s: State, current: bool, q: nat, t: Tid, pc: Pc)
    requires q < |s.arrs| && WorksOn(s.arrs[q], current, q, t, pc)
    requires pc.PushIdx? || pc.PushSlot? || pc.PushCas? || pc.PushBump?
    ensures Target(NextPc(s, pc)) in {None, Some(q)}
    ensures Target(NextPc(s, pc)) == Some(q) ==> PcOk(NextArr(s.arrs[q], t, pc), NextPc(s, pc))
  {
    Hits(s.arrs[q], current, pc);
  }

  lemma OwnRearmKept(s: State, current: bool, q: nat, t: Tid, pc: Pc)
    requires q < |s.arrs| && WorksOn(s.arrs[q], current, q, t, pc)
    requires pc.RearmIdx? || pc.RearmMark? || pc.RearmWait? || pc.RearmPeek? || Growing(pc)
    ensures Target(NextPc(s, pc)) in {None, Some(q)}
    ensures Target(NextPc(s, pc)) == Some(q) ==> PcOk(NextArr(s.arrs[q], t, pc), NextPc(s, pc))
  {
    if Growing(NextPc(s, pc)) {
      OwnGrowthKept(s, current, q, t, pc);
    }
  }

  /** What the moving thread knows and owns afterwards. */
  lemma OwnPcKept(s: State, current: bool, q: nat, t: Tid, pc: Pc)
    requires q < |s.arrs| && WorksOn(s.arrs[q], current, q, t, pc)
    ensures Target(NextPc(s, pc)) in {None, Some(q)}
    ensures Target(NextPc(s, pc)) == Some(q) ==> PcOk(NextArr(s.arrs[q], t, pc), NextPc(s, pc))
  {
    if pc.PopRd? || pc.PopWr? || pc.PopSlot? || pc.PopCas? || pc.PopBump? || pc.PopWait? {
      OwnPopKept(s, current, q, t, pc);
    } else if pc.PushIdx? || pc.PushSlot? || pc.PushCas? || pc.PushBump? {
      OwnPushKept(s, current, q, t, pc);
    } else {
      OwnRearmKept(s, current, q, t, pc);
    }
  }

  lemma OwnOwnerKept(s: State, current: bool, q: nat, t: Tid, pc: Pc)
    requires q < |s.arrs| && WorksOn(s.arrs[q], current, q, t, pc)
    ensures OwnerOk(NextArr(s.arrs[q], t, pc), q, t, NextPc(s, pc))
  {
    Hits(s.arrs[q], current, pc);
  }

  // ----- Growth: a failed allocation, and an installation -----

  function Unmarked(arr: Arr, ix: nat): Arr
    requires ix < |arr.slots|
  {
    Mark(arr, ix, false).(grower := None)
  }

  lemma AllocFailKept(arr: Arr, current: bool, q: nat, t: Tid, pc: Pc)
    requires WorksOn(arr, current, q, t, pc) && pc.RearmAlloc?
    ensures ArrOk(Unmarked(arr, pc.ix), current)
    ensures OwnerOk(Unmarked(arr, pc.ix), q, t, Idle)
  {
  }

  lemma AllocFailOther(arr: Arr, current: bool, q: nat, t: Tid, pc: Pc, u: Tid, pcu: Pc)
    requires WorksOn(arr, current, q, t, pc) && pc.RearmAlloc? && u != t
    requires OwnerOk(arr, q, u, pcu)
    ensures ArrShape(Unmarked(arr, pc.ix)) && OwnerOk(Unmarked(arr, pc.ix), q, u, pcu)
    ensures Target(pcu) == Some(q) && PcOk(arr, pcu) ==> PcOk(Unmarked(arr, pc.ix), pcu)
  {
  }

  function Elems(slots: seq<Slot>): seq<Elem> {
    seq(|slots|, i requires 0 <= i < |slots| => slots[i].e)
  }

  lemma MadeContents(cap: nat, filled: seq<Slot>)
    requires |filled| <= cap + 1
    ensures Contents(MakeArr(cap, filled)) == Elems(filled)
  {
  }

  lemma MadeOk(cap: nat, filled: seq<Slot>)
    requires 1 <= |filled| <= cap
    requires forall i :: 0 <= i < |filled| ==> filled[i].e.Val? && !filled[i].x
    ensures ArrOk(MakeArr(cap, filled), true)
  {
  }

  /** What a growing thread has copied: what is left in the array or, if the array was drained, its
      FREE sentinel. */
  lemma CopiedElems(arr: Arr, current: bool, q: nat, t: Tid, pc: Pc)
    requires WorksOn(arr, current, q, t, pc) && AtInstall(arr, pc)
    ensures Elems(pc.out) == if pc.ix < arr.cap then Contents(arr) else [Free]
    ensures |pc.out| <= if pc.ix < arr.cap then arr.cap else 1
    ensures forall k :: 0 <= k < |pc.out| ==> !pc.out[k].x && (pc.ix < arr.cap ==> pc.out[k].e.Val?)
  {
  }

  /** The grown array fits what was copied and the pushed value. */
  lemma InstalledOk(arr: Arr, current: bool, q: nat, t: Tid, pc: Pc)
    requires WorksOn(arr, current, q, t, pc) && AtInstall(arr, pc) && pc.ix < arr.cap
    ensures ArrOk(MakeArr(2 * arr.cap, pc.out + [Slot(Val(pc.v), false)]), true)
  {
    CopiedElems(arr, current, q, t, pc);
    MadeOk(2 * arr.cap, pc.out + [Slot(Val(pc.v), false)]);
  }

  lemma InstalledContents(arr: Arr, current: bool, q: nat, t: Tid, pc: Pc)
    requires WorksOn(arr, current, q, t, pc) && AtInstall(arr, pc)
    ensures Contents(MakeArr(2 * arr.cap, pc.out + [Slot(Val(pc.v), false)]))
            == (if pc.ix < arr.cap then Contents(arr) else [Free]) + [Val(pc.v)]
  {
    CopiedElems(arr, current, q, t, pc);
    MadeContents(2 * arr.cap, pc.out + [Slot(Val(pc.v), false)]);
  }

  lemma ReplacedArr(arr: Arr, current: bool, q: nat, t: Tid, pc: Pc)
    requires WorksOn(arr, current, q, t, pc) && AtInstall(arr, pc) && pc.ix < arr.cap
    ensures ArrOk(NextArr(arr, t, pc), false)
  {
  }

  // ----- All arrays and all threads -----

  lemma Working(s: State, t: Tid)
    requires Inv(s) && t in s.threads && Target(s.threads[t].pc).Some?
    ensures
      var pc := s.threads[t].pc;
      pc.q < |s.arrs| && WorksOn(s.arrs[pc.q], pc.q == Impl(s), pc.q, t, pc)
  {
    assert ThreadOk(s, t);
  }

  lemma ArrsStep(s: State, a: Action)
    requires Inv(s) && Enabled(s, a) && Good(s, a)
    ensures ArrsInv(Step(s, a))
  {
    if a.t in s.threads && Target(s.threads[a.t].pc).Some? {
      Working(s, a.t);
      var pc := s.threads[a.t].pc;
      var arr := s.arrs[pc.q];
      if a.AllocFail? {
        AllocFailKept(arr, pc.q == Impl(s), pc.q, a.t, pc);
      } else if AtInstall(arr, pc) {
        InstalledOk(arr, pc.q == Impl(s), pc.q, a.t, pc);
        ReplacedArr(arr, pc.q == Impl(s), pc.q, a.t, pc);
      } else {
        ArrKept(arr, pc.q == Impl(s), pc.q, a.t, pc);
      }
    }
  }

  /** The thread that moves, and the array it moves on. */
  lemma OwnerMover(s: State, a: Action)
    requires Inv(s) && Enabled(s, a) && !a.Spawn? && Target(s.threads[a.t].pc).Some?
    ensures
      var pc := s.threads[a.t].pc;
      OwnerOk(Step(s, a).arrs[pc.q], pc.q, a.t, NextThread(s, a).pc)
  {
    Working(s, a.t);
    var pc := s.threads[a.t].pc;
    if a.AllocFail? {
      AllocFailKept(s.arrs[pc.q], pc.q == Impl(s), pc.q, a.t, pc);
    } else {
      OwnOwnerKept(s, pc.q == Impl(s), pc.q, a.t, pc);
    }
  }

  lemma OwnerBystander(s: State, a: Action, u: Tid)
    requires Inv(s) && Enabled(s, a) && !a.Spawn? && Target(s.threads[a.t].pc).Some?
    requires u in s.threads && u != a.t
    ensures
      var pc := s.threads[a.t].pc;
      OwnerOk(Step(s, a).arrs[pc.q], pc.q, u, s.threads[u].pc)
  {
    Working(s, a.t);
    var pc := s.threads[a.t].pc;
    if a.AllocFail? {
      AllocFailOther(s.arrs[pc.q], pc.q == Impl(s), pc.q, a.t, pc, u, s.threads[u].pc);
    } else {
      OwnersKept(s.arrs[pc.q], pc.q == Impl(s), pc.q, a.t, pc, u, s.threads[u].pc);
    }
  }

  /** An array that the moving thread does not work on is the same afterwards, or new. */
  lemma ArrElsewhere(s: State, a: Action, q: nat)
    requires Enabled(s, a) && q < |Step(s, a).arrs|
    requires a.t in s.threads && q < |s.arrs| ==> Target(s.threads[a.t].pc) != Some(q)
    ensures q < |s.arrs| ==> Step(s, a).arrs[q] == s.arrs[q]
    ensures q >= |s.arrs| ==>
              var arr := Step(s, a).arrs[q];
              arr.pusher == None && arr.popper == None && arr.grower == None
  {
  }

  predicate Owning(pc: Pc) {
    pc.PushBump? || pc.PopBump? || Growing(pc)
  }

  /** A thread comes to own an array only by working on it. */
  lemma OwningStays(s: State, a: Action)
    requires Enabled(s, a) && Owning(NextThread(s, a).pc)
    ensures a.t in s.threads && Target(s.threads[a.t].pc) == Some(NextThread(s, a).pc.q)
  {
  }

  lemma OwnerElsewhere(s: State, a: Action, q: nat, u: Tid)
    requires Inv(s) && Enabled(s, a)
    requires q < |Step(s, a).arrs| && u in Step(s, a).threads
    requires a.t in s.threads && q < |s.arrs| ==> Target(s.threads[a.t].pc) != Some(q)
    ensures OwnerOk(Step(s, a).arrs[q], q, u, Step(s, a).threads[u].pc)
  {
    ArrElsewhere(s, a, q);
    if u == a.t {
      if Owning(NextThread(s, a).pc) {
        OwningStays(s, a);
      }
      if u in s.threads && Target(s.threads[u].pc).Some? {
        Working(s, u);
      }
    } else {
      assert ThreadOk(s, u);
    }
  }

  lemma OwnerOne(s: State, a: Action, q: nat, u: Tid)
    requires Inv(s) && Enabled(s, a)
    requires q < |Step(s, a).arrs| && u in Step(s, a).threads
    ensures OwnerOk(Step(s, a).arrs[q], q, u, Step(s, a).threads[u].pc)
  {
    if a.t in s.threads && Target(s.threads[a.t].pc) == Some(q) && q < |s.arrs| {
      if u == a.t {
        OwnerMover(s, a);
      } else {
        OwnerBystander(s, a, u);
      }
    } else {
      OwnerElsewhere(s, a, q, u);
    }
  }

  lemma OwnersExist(s: State, a: Action, q: nat)
    requires OwnerInv(s) && Enabled(s, a) && q < |Step(s, a).arrs|
    ensures Step(s, a).arrs[q].pusher.Some? ==> Step(s, a).arrs[q].pusher.value in Step(s, a).threads
    ensures Step(s, a).arrs[q].popper.Some? ==> Step(s, a).arrs[q].popper.value in Step(s, a).threads
    ensures Step(s, a).arrs[q].grower.Some? ==> Step(s, a).arrs[q].grower.value in Step(s, a).threads
  {
    if a.t !in s.threads || q >= |s.arrs| || Target(s.threads[a.t].pc) != Some(q) {
      ArrElsewhere(s, a, q);
    }
  }

  lemma OwnerStep(s: State, a: Action)
    requires Inv(s) && Enabled(s, a)
    ensures OwnerInv(Step(s, a))
  {
    var s' := Step(s, a);
    forall q, u | 0 <= q < |s'.arrs| && u in s'.threads
      ensures OwnerOk(s'.arrs[q], q, u, s'.threads[u].pc)
    {
      OwnerOne(s, a, q, u);
    }
    forall q | 0 <= q < |s'.arrs|
      ensures s'.arrs[q].pusher.Some? ==> s'.arrs[q].pusher.value in s'.threads
      ensures s'.arrs[q].popper.Some? ==> s'.arrs[q].popper.value in s'.threads
      ensures s'.arrs[q].grower.Some? ==> s'.arrs[q].grower.value in s'.threads
    {
      OwnersExist(s, a, q);
    }
  }

  lemma ThreadMover(s: State, a: Action)
    requires Inv(s) && Enabled(s, a)
    ensures ThreadOk(Step(s, a), a.t)
  {
    if a.t in s.threads && Target(s.threads[a.t].pc).Some? {
      Working(s, a.t);
      var pc := s.threads[a.t].pc;
      if a.Go? {
        OwnPcKept(s, pc.q == Impl(s), pc.q, a.t, pc);
      }
    }
  }

  lemma ThreadBystander(s: State, a: Action, u: Tid)
    requires Inv(s) && Enabled(s, a) && u in s.threads && u != a.t
    ensures ThreadOk(Step(s, a), u)
  {
    assert ThreadOk(s, u);
    var pcu := s.threads[u].pc;
    if Target(pcu).Some? {
      if a.t in s.threads && Target(s.threads[a.t].pc) == Target(pcu) {
        ThreadSameArr(s, a, u);
      } else {
        assert Step(s, a).arrs[pcu.q] == s.arrs[pcu.q];
      }
    }
  }

  lemma ThreadSameArr(s: State, a: Action, u: Tid)
    requires Inv(s) && Enabled(s, a) && u in s.threads && u != a.t && a.t in s.threads
    requires Target(s.threads[u].pc).Some? && Target(s.threads[a.t].pc) == Target(s.threads[u].pc)
    ensures
      var pcu := s.threads[u].pc;
      pcu.q < |s.arrs| && PcOk(Step(s, a).arrs[pcu.q], pcu)
  {
    Working(s, a.t);
    Working(s, u);
    var pc := s.threads[a.t].pc;
    if a.AllocFail? {
      AllocFailOther(s.arrs[pc.q], pc.q == Impl(s), pc.q, a.t, pc, u, s.threads[u].pc);
    } else {
      OtherKept(s.arrs[pc.q], pc.q == Impl(s), pc.q, a.t, pc, u, s.threads[u].pc);
    }
  }

  lemma ThreadStep(s: State, a: Action)
    requires Inv(s) && Enabled(s, a)
    ensures ThreadInv(Step(s, a))
  {
    forall u | u in Step(s, a).threads
      ensures ThreadOk(Step(s, a), u)
    {
      if u == a.t {
        ThreadMover(s, a);
      } else {
        ThreadBystander(s, a, u);
      }
    }
  }

  lemma InvStep(s: State, a: Action)
    requires Inv(s) && Enabled(s, a) && Good(s, a)
    ensures Inv(Step(s, a))
  {
    ArrsStep(s, a);
    OwnerStep(s, a);
    ThreadStep(s, a);
  }
}
