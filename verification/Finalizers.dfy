/** Deferred destruction in src/xrcu.cpp as one thread sees it: the list of pending objects, linked
    through the objects themselves and extended at its tail. */
module Finalizers {
  import opened Common
  import opened ReaderWord

  /** finalizable. After its destruction an object must not be touched again. */
  class Finalizable {
    var finNext: Finalizable?
    var alive: bool

    constructor ()
      ensures finNext == null && alive
    {
      finNext, alive := null, true;
    }

    method SafeDestroy()
      requires alive
      modifies this
      ensures !alive
    {
      alive := false;
    }
  }

  /** The list that starts at `first` links the objects s, all alive, in order. */
  ghost predicate List(first: Finalizable?, s: seq<Finalizable>)
    reads s
  {
    && Distinct(s)
    && first == (if s == [] then null else s[0])
    && (forall i :: 0 <= i < |s| ==> s[i].alive)
    && (forall i, j :: 0 <= i < |s| - 1 && j == i + 1 ==> s[i].finNext == s[j])
    && (s != [] ==> s[|s| - 1].finNext == null)
  }

  /** What the test of n_fins makes of a list of n objects. */
  predicate Reached(n: nat) {
    n % UINT_RANGE >= MAX_FINS
  }

  /** tl_data, without its ring links. `last` stands for finpp: the object whose link it points
      at, or null for fin_objs. */
  class TlData {
    var counter: Word
    var mustFlush: bool
    var nFins: nat
    var finObjs: Finalizable?
    var last: Finalizable?

    /** The objects that wait, and those that were destroyed, in order. */
    ghost var Pending: seq<Finalizable>
    ghost var Destroyed: seq<Finalizable>

    ghost predicate Valid()
      reads this, Pending
    {
      && List(finObjs, Pending)
      && last == (if Pending == [] then null else Pending[|Pending| - 1])
      && nFins == |Pending| % UINT_RANGE
      // Only a critical section lets the list reach its limit, and its end flushes the list.
      && (|Pending| >= MAX_FINS ==> mustFlush && InCs(counter))
    }

    /** add_tdata, for a zeroed tl_data. */
    constructor ()
      ensures Valid() && Pending == [] && Destroyed == [] && counter == ZERO && !mustFlush
    {
      counter, mustFlush, nFins, finObjs, last := ZERO, false, 0, null, null;
      Pending, Destroyed := [], [];
    }

    /** flush_all: outside of critical sections, wait for a grace period and destroy everything, in
        the order of the list. The link of an object is read before it is destroyed. */
    method FlushAll() returns (ok: bool)
      requires List(finObjs, Pending)
      modifies this, Pending
      ensures ok <==> !InCs(counter)
      ensures counter == old(counter)
      ensures ok ==> Valid() && Pending == [] && nFins == 0 && !mustFlush
      ensures ok ==> Destroyed == old(Destroyed) + old(Pending) && forall f :: f in old(Pending) ==> !f.alive
      ensures !ok ==> unchanged(this) && unchanged(old(Pending)) && List(finObjs, Pending)
    {
      if InCs(counter) {
        return false;
      }
      ghost var all, done, i := Pending, Destroyed, 0;
      var f := finObjs;
      while f != null
        invariant 0 <= i <= |all| && f == if i < |all| then all[i] else null
        invariant counter == old(counter) && Destroyed == done + all[..i]
        invariant forall k :: i <= k < |all| ==> all[k].alive && all[k].finNext == old(all[k].finNext)
        invariant forall k :: 0 <= k < i ==> !all[k].alive
        decreases |all| - i
      {
        var next := f.finNext;
        assert i + 1 < |all| ==> next == all[i + 1];
        f.SafeDestroy();
        Destroyed := Destroyed + [f];
        i := i + 1;
        f := next;
      }
      finObjs, last, nFins, mustFlush := null, null, 0, false;
      Pending := [];
      return true;
    }

    /** The stores through finpp. */
    method Append(finp: Finalizable)
      requires Valid() && finp !in Pending && finp.finNext == null && finp.alive
      modifies this`finObjs, this`last, this`Pending, last, finp
      ensures List(finObjs, Pending) && last == finp && Pending == old(Pending) + [finp]
    {
      if last == null {
        finObjs := finp;
      } else {
        last.finNext := finp;
      }
      last := finp;
      Pending := Pending + [finp];
    }

    /** finalize: append the object, and flush the list when it has reached its limit. */
    method Finalize(finp: Finalizable)
      requires Valid() && finp !in Pending && finp.finNext == null && finp.alive
      modifies this, Pending, finp
      ensures Valid() && counter == old(counter)
      ensures
        if Reached(old(|Pending|) + 1) && !InCs(counter)
        then Pending == [] && Destroyed == old(Destroyed) + (old(Pending) + [finp])
        else Pending == old(Pending) + [finp] && Destroyed == old(Destroyed)
      ensures mustFlush ==
              if Reached(old(|Pending|) + 1) then InCs(counter) else old(mustFlush)
    {
      WrappedNext(|Pending|);
      Append(finp);
      nFins := (nFins + 1) % UINT_RANGE;
      if nFins < MAX_FINS {
        return;
      }
      var ok := FlushAll();
      if !ok {
        mustFlush := true;
      }
    }

    /** enter_cs: a first entry takes the global counter, which never has a nesting count of 0. */
    method EnterCs(global: Word)
      requires Valid() && InCs(global) && counter.nest != GP_NEST_MASK
      modifies this`counter
      ensures Valid() && InCs(counter)
      ensures counter == if InCs(old(counter)) then Nested(old(counter)) else global
    {
      counter := if InCs(counter) then Nested(counter) else global;
    }

    /** exit_cs: the end of an outermost section makes up for a flush that had to wait. */
    method ExitCs()
      requires Valid() && InCs(counter)
      modifies this, Pending
      ensures Valid() && counter == Exited(old(counter))
      ensures
        if old(mustFlush) && !InCs(counter)
        then Pending == [] && Destroyed == old(Destroyed + Pending) && !mustFlush
        else Pending == old(Pending) && Destroyed == old(Destroyed) && mustFlush == old(mustFlush)
    {
      counter := Exited(counter);
      if mustFlush && !InCs(counter) {
        var _ := FlushAll();
      }
    }

    /** flush_finalizers */
    method FlushFinalizers() returns (ok: bool)
      requires Valid()
      modifies this, Pending
      ensures Valid() && counter == old(counter) && (ok <==> !InCs(counter))
      ensures if ok then Pending == [] && Destroyed == old(Destroyed + Pending)
              else Pending == old(Pending) && Destroyed == old(Destroyed) && mustFlush
    {
      ok := FlushAll();
      if !ok {
        mustFlush := true;
      }
    }

    /** ~tl_data, but for the ring: a section that is still open is closed first. The test of n_fins
        misses a list whose length is a multiple of 2^32, which only such a section can have let
        grow. */
    method Fini()
      requires Valid()
      modifies this, Pending
      ensures !InCs(counter) && (Pending == [] ==> Valid())
      ensures Pending != [] ==> InCs(old(counter))
      ensures
        if old(|Pending|) % UINT_RANGE == 0
        then Pending == old(Pending) && Destroyed == old(Destroyed)
        else Pending == [] && Destroyed == old(Destroyed + Pending)
    {
      counter := ZERO;
      if nFins > 0 {
        var _ := FlushAll();
      }
    }
  }
}
