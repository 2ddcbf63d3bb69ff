/** The arrays of the queue as objects, with the loops of src/queue.cpp and xrcu/queue.hpp as they
    run when no other thread interferes. They keep the invariant of the step relation and act on
    the same abstract queue. */
module QueueData {
  import opened Common
  import opened Queue
  import opened QueueInvariant

  /** How many slots a growth copies. */
  function Left(arr: Arr): nat
    requires arr.rd <= arr.cap
  {
    if arr.rd < arr.cap then arr.cap - arr.rd else 1
  }

  /** The slots that a growth copies. */
  function Copied(arr: Arr): seq<Slot>
    requires arr.rd <= arr.cap < |arr.slots|
  {
    arr.slots[arr.rd..arr.rd + Left(arr)]
  }

  /** The array that a growth makes, from the slots that it copies and the pushed value. */
  function Regrown(arr: Arr, v: Value): Arr
    requires arr.rd <= arr.cap < |arr.slots|
  {
    MakeArr(2 * arr.cap, Copied(arr) + [Slot(Val(v), false)])
  }

  lemma CopiedLeft(arr: Arr)
    requires ArrOk(arr, true) && arr.wr == arr.cap && arr.rd == arr.dels && arr.grower == None
    ensures Elems(Copied(arr)) == if arr.rd < arr.cap then Contents(arr) else [Free]
    ensures forall i :: 0 <= i < |Copied(arr)| ==> !Copied(arr)[i].x
    ensures arr.rd < arr.cap ==> forall i :: 0 <= i < |Copied(arr)| ==> Copied(arr)[i].e.Val?
  {
  }

  lemma RegrownArr(arr: Arr, v: Value)
    requires ArrOk(arr, true) && arr.wr == arr.cap && arr.rd == arr.dels && arr.grower == None
    ensures |Regrown(arr, v).slots| == 2 * arr.cap + 1
    ensures Contents(Regrown(arr, v)) == (if arr.rd < arr.cap then Contents(arr) else [Free]) + [Val(v)]
    ensures arr.rd < arr.cap ==> ArrOk(Regrown(arr, v), true)
  {
    CopiedLeft(arr);
    var filled := Copied(arr) + [Slot(Val(v), false)];
    MadeContents(2 * arr.cap, filled);
    assert Elems(filled) == Elems(Copied(arr)) + [Val(v)];
    if arr.rd < arr.cap {
      MadeOk(2 * arr.cap, filled);
    }
  }

  lemma MadeSlots(cap: nat, left: seq<Slot>, rest: seq<Slot>, last: Slot)
    requires |left| + |rest| == cap + 1 && rest != []
    requires forall i :: 0 <= i < |rest| ==> rest[i] == EMPTY
    ensures (left + rest)[|left| := last] == MakeArr(cap, left + [last]).slots
  {
  }

  /** The array that a growth leaves behind: what it has copied is marked. */
  function Retired(arr: Arr): Arr
    requires arr.rd <= arr.cap
  {
    arr.(slots := seq(|arr.slots|, i requires 0 <= i < |arr.slots| =>
                        if arr.rd <= i < arr.rd + Left(arr) then arr.slots[i].(x := true) else arr.slots[i]))
  }

  lemma RetiredOk(arr: Arr)
    requires ArrOk(arr, true) && arr.wr == arr.cap && arr.rd == arr.dels < arr.cap && arr.grower == None
    requires arr.popper == None
    ensures ArrOk(Retired(arr), false)
  {
  }

  function Filled(arr: Arr, val: Value): Arr
    requires arr.wr < |arr.slots|
  {
    arr.(slots := arr.slots[arr.wr := Slot(Val(val), false)], wr := arr.wr + 1, used := arr.used + 1)
  }

  lemma FilledOk(arr: Arr, val: Value)
    requires ArrOk(arr, true) && arr.wr == arr.used < arr.cap && arr.pusher == None
    ensures arr.slots[arr.wr] == EMPTY
    ensures ArrOk(Filled(arr, val), true) && Contents(Filled(arr, val)) == Contents(arr) + [Val(val)]
  {
  }

  function Emptied(arr: Arr): Arr
    requires arr.rd < |arr.slots|
  {
    arr.(slots := arr.slots[arr.rd := DELETED], rd := arr.rd + 1, dels := arr.dels + 1)
  }

  lemma EmptiedOk(arr: Arr)
    requires ArrOk(arr, true) && arr.rd == arr.dels < arr.wr && arr.popper == None && arr.grower == None
    ensures !arr.slots[arr.rd].x && arr.slots[arr.rd].e.Val?
    ensures ArrOk(Emptied(arr), true) && Contents(arr) == [arr.slots[arr.rd].e] + Contents(Emptied(arr))
  {
  }

  datatype PopResult = Taken(e: Elem) | Empty | Marked

  /** q_base, with the array that q_data::make places behind it. */
  class QData {
    const ptrs: array<Slot>
    const cap: nat
    var wrIdx: nat
    var rdIdx: nat

    /** The array between two operations: no index bump is due, and nobody is growing it. */
    ghost function Abs(): Arr
      reads this, ptrs
    {
      Arr(ptrs[..], cap, wrIdx, rdIdx, rdIdx, wrIdx, None, None, None)
    }

    ghost predicate Valid(current: bool)
      reads this, ptrs
    {
      ArrOk(Abs(), current)
    }

    /** q_data::make */
    constructor (cnt: nat)
      ensures fresh(ptrs) && cap == cnt && ptrs.Length == cnt + 1 && wrIdx == rdIdx == 0
      ensures forall i :: 0 <= i <= cnt ==> ptrs[i] == EMPTY
      ensures cnt >= 1 ==> Valid(true) && Contents(Abs()) == []
    {
      ptrs := new Slot[cnt + 1](_ => EMPTY);
      cap, wrIdx, rdIdx := cnt, 0, 0;
    }

    /** q_base::push. Without interference the exchange succeeds at the first attempt. */
    method Push(val: Value) returns (ok: bool)
      requires Valid(true)
      modifies this`wrIdx, ptrs
      ensures Valid(true) && (ok <==> old(wrIdx) < cap)
      ensures Contents(Abs()) == if ok then old(Contents(Abs())) + [Val(val)] else old(Contents(Abs()))
      ensures !ok ==> Abs() == old(Abs())
    {
      var curr := wrIdx;
      if curr >= cap {
        return false;
      }
      ghost var arr := Abs();
      FilledOk(arr, val);
      var xv := ptrs[curr];
      if xv.x {
        return false;
      }
      assert xv == EMPTY;
      ptrs[curr] := Slot(Val(val), false);
      wrIdx := wrIdx + 1;
      assert Abs() == Filled(arr, val);
      return true;
    }

    /** q_base::pop */
    method Pop() returns (r: PopResult)
      requires Valid(true)
      modifies this`rdIdx, ptrs
      ensures Valid(true) && !r.Marked?
      ensures r.Empty? ==> Contents(Abs()) == old(Contents(Abs())) == []
      ensures r.Taken? ==> r.e.Val? && old(Contents(Abs())) == [r.e] + Contents(Abs())
    {
      var curr := rdIdx;
      if curr >= wrIdx {
        return Empty;
      }
      ghost var arr := Abs();
      EmptiedOk(arr);
      var rv := ptrs[curr];
      if rv.x {
        return Marked;
      }
      ptrs[curr] := DELETED;
      rdIdx := rdIdx + 1;
      assert Abs() == Emptied(arr);
      return Taken(rv.e);
    }
  }

  /** queue */
  class GrowingQueue {
    var impl: QData

    ghost predicate Valid()
      reads this, impl, impl.ptrs
    {
      impl.Valid(true)
    }

    ghost function QueueContents(): seq<Elem>
      reads this, impl, impl.ptrs
    {
      Contents(impl.Abs())
    }

    /** The array is full and everything in it has been popped. */
    ghost predicate Drained()
      reads this, impl
    {
      impl.rdIdx == impl.wrIdx == impl.cap
    }

    constructor ()
      ensures Valid() && fresh(impl) && fresh(impl.ptrs) && QueueContents() == []
    {
      impl := new QData(8);
    }

    /** The marking and copying of _Rearm, for an array nobody else is growing: the slot at rd_idx
        first, even if that is the sentinel, then the rest of the array. */
    method CopyMarked(qdp: QData, nq: QData) returns (n: nat)
      requires |qdp.ptrs[..]| == qdp.cap + 1 && qdp.rdIdx <= qdp.cap
      requires forall i :: qdp.rdIdx <= i <= qdp.cap ==> !qdp.ptrs[i].x
      requires nq.ptrs != qdp.ptrs && nq.ptrs.Length > qdp.ptrs.Length
      modifies qdp.ptrs, nq.ptrs
      ensures n == if qdp.rdIdx < qdp.cap then qdp.cap - qdp.rdIdx else 1
      ensures nq.ptrs[..] == old(qdp.ptrs[qdp.rdIdx..qdp.rdIdx + n]) + old(nq.ptrs[n..])
      ensures forall i :: 0 <= i <= qdp.cap ==>
                qdp.ptrs[i] == if qdp.rdIdx <= i < qdp.rdIdx + n then old(qdp.ptrs[i]).(x := true) else old(qdp.ptrs[i])
    {
      var ix := qdp.rdIdx;
      var prev := qdp.ptrs[ix];
      qdp.ptrs[ix] := prev.(x := true);
      nq.ptrs[0] := prev;
      n := 1;
      ix := ix + 1;
      while ix < qdp.cap
        invariant 1 <= n && ix == qdp.rdIdx + n && (n > 1 ==> ix <= qdp.cap)
        invariant forall j :: 0 <= j < n ==> nq.ptrs[j] == old(qdp.ptrs[qdp.rdIdx + j])
        invariant forall j :: n <= j < nq.ptrs.Length ==> nq.ptrs[j] == old(nq.ptrs[j])
        invariant forall i :: 0 <= i <= qdp.cap ==>
                    qdp.ptrs[i] == if qdp.rdIdx <= i < ix then old(qdp.ptrs[i]).(x := true) else old(qdp.ptrs[i])
      {
        nq.ptrs[n] := qdp.ptrs[ix];
        qdp.ptrs[ix] := qdp.ptrs[ix].(x := true);
        n := n + 1;
        ix := ix + 1;
      }
    }

    /** _Rearm up to the installation. */
    method Regrow(qdp: QData, elem: Value) returns (nq: QData)
      requires |qdp.ptrs[..]| == qdp.cap + 1 && qdp.rdIdx <= qdp.cap && qdp.cap >= 1
      requires forall i :: qdp.rdIdx <= i <= qdp.cap ==> !qdp.ptrs[i].x
      modifies qdp.ptrs
      ensures fresh(nq) && fresh(nq.ptrs) && nq.cap == 2 * qdp.cap
      ensures
        var arr := old(qdp.Abs());
        nq.Abs() == Regrown(arr, elem) && qdp.Abs() == Retired(arr)
    {
      ghost var arr := qdp.Abs();
      nq := new QData(qdp.cap * 2);
      ghost var empty := nq.ptrs[..];
      var n := CopyMarked(qdp, nq);
      assert nq.ptrs[..] == Copied(arr) + empty[n..];
      MadeSlots(nq.cap, Copied(arr), empty[n..], Slot(Val(elem), false));
      nq.ptrs[n] := Slot(Val(elem), false);
      nq.wrIdx := n + 1;
      assert qdp.ptrs[..] == Retired(arr).slots;
    }

    /** _Rearm: a new array of twice the size takes what is left and the element, and is installed.
        The old one stays behind, frozen. */
    method Rearm(elem: Value)
      requires Valid() && impl.wrIdx == impl.cap
      modifies this, impl.ptrs
      ensures fresh(impl) && fresh(impl.ptrs) && impl.cap == 2 * old(impl.cap)
      ensures old(Drained()) ==> QueueContents() == [Free, Val(elem)]
      ensures !old(Drained()) ==> Valid() && QueueContents() == old(QueueContents()) + [Val(elem)]
      ensures !old(Drained()) ==> old(impl).Valid(false)
    {
      var qdp := impl;
      ghost var arr := qdp.Abs();
      RegrownArr(arr, elem);
      impl := Regrow(qdp, elem);
      if arr.rd < arr.cap {
        RetiredOk(arr);
      }
    }

    /** _Push: without interference the first attempt pushes or grows. A drained array must not be
        grown; otherwise the element goes to the end of the queue. */
    method Push(elem: Value)
      requires Valid()
      modifies this, impl, impl.ptrs
      ensures impl != old(impl) ==> fresh(impl) && fresh(impl.ptrs)
      ensures old(Drained()) ==> QueueContents() == [Free, Val(elem)]
      ensures !old(Drained()) ==> Valid() && QueueContents() == old(QueueContents()) + [Val(elem)]
    {
      var ok := impl.Push(elem);
      if !ok {
        Rearm(elem);
      }
    }

    /** pop */
    method Pop() returns (r: Option<Value>)
      requires Valid()
      modifies impl`rdIdx, impl.ptrs
      ensures Valid() && impl == old(impl)
      ensures r.None? ==> QueueContents() == old(QueueContents()) == []
      ensures r.Some? ==> old(QueueContents()) == [Val(r.value)] + QueueContents()
    {
      var got := impl.Pop();
      r := if got.Taken? then Some(got.e.v) else None;
    }
  }
}
