/** upsize of xrcu/utils.hpp, which rounds the capacity of a sized queue up to a power of two, and
    the constructor in xrcu/queue.hpp that relies on it. */
module Upsize {
  import Queue
  import QueueData

  const HIGH_BIT: bv64 := 0x8000_0000_0000_0000
  const ALL_ONES: bv64 := 0xffff_ffff_ffff_ffff

  function Pow2(k: nat): (p: nat)
    ensures p > 0
  {
    if k == 0 then 1 else 2 * Pow2(k - 1)
  }

  lemma {:induction false} Pow2Monotone(j: nat, k: nat)
    requires j <= k
    ensures Pow2(j) <= Pow2(k)
  {
    if j < k {
      Pow2Monotone(j, k - 1);
    }
  }

  /** The number that a word stands for. */
  function Value(x: bv64): nat
    decreases x
  {
    if x == 0 then 0 else (if x & 1 != 0 then 1 else 0) + 2 * Value(x >> 1)
  }

  /** The number of bits of a word without leading zeros. */
  function Length(x: bv64): nat
    decreases x
  {
    if x == 0 then 0 else 1 + Length(x >> 1)
  }

  /** The steps of upsize before the final increment. */
  function Smear(x: bv64): bv64 {
    var a := x | (x >> 1);
    var b := a | (a >> 2);
    var c := b | (b >> 4);
    var d := c | (c >> 8);
    var e := d | (d >> 16);
    e | (e >> 32)
  }

  /** m has ones exactly up to the highest one of x: each of its bits is set if that bit of x or
      the next higher bit of m is. */
  predicate Covers(x: bv64, m: bv64) {
    m == x | (m >> 1)
  }

  lemma SmearCovers(x: bv64)
    ensures Covers(x, Smear(x))
  {
  }

  lemma HighestBit(x: bv64, m: bv64)
    requires Covers(x, m)
    ensures m == ALL_ONES <==> x >= HIGH_BIT
  {
  }

  lemma CoversHalf(x: bv64, m: bv64)
    requires Covers(x, m) && m != 0
    ensures Covers(x >> 1, m >> 1) && m & 1 != 0 && x != 0
  {
  }

  /** A word lies between the mask that covers it and half of that mask. */
  lemma {:induction false} CoverValue(x: bv64, m: bv64)
    requires Covers(x, m)
    ensures Value(x) <= Value(m) && Value(m) + 1 == Pow2(Length(m))
    ensures m != 0 ==> Value(m >> 1) < Value(x)
    decreases m
  {
    if m != 0 {
      CoversHalf(x, m);
      CoverValue(x >> 1, m >> 1);
    }
  }

  lemma NextOfMask(m: bv64)
    requires m | (m >> 1) == m && m != 0 && m != ALL_ONES
    ensures m & 1 != 0 && (m + 1) & 1 == 0 && (m + 1) >> 1 == (m >> 1) + 1 && m + 1 != 0
    ensures (m >> 1) | ((m >> 1) >> 1) == m >> 1 && m >> 1 != ALL_ONES
  {
  }

  lemma {:induction false} IncrementMask(m: bv64)
    requires m | (m >> 1) == m && m != ALL_ONES
    ensures Value(m + 1) == Value(m) + 1
    decreases m
  {
    if m == 0 {
      assert Value(1) == 1 + 2 * Value(0);
    } else {
      NextOfMask(m);
      IncrementMask(m >> 1);
    }
  }

  /** p is the least power of two above n. */
  ghost predicate LeastPowerAbove(p: nat, n: nat) {
    && (exists k :: p == Pow2(k))
    && p > n
    && (forall k :: Pow2(k) > n ==> p <= Pow2(k))
  }

  lemma LeastPower(k: nat, n: nat)
    requires n < Pow2(k) && (k > 0 ==> Pow2(k - 1) <= n)
    ensures LeastPowerAbove(Pow2(k), n)
  {
    forall j: nat | Pow2(j) > n ensures Pow2(k) <= Pow2(j) {
      if j < k {
        Pow2Monotone(j, k - 1);
      } else {
        Pow2Monotone(k, j);
      }
    }
  }

  lemma CoverPlusOne(x: bv64, m: bv64)
    requires Covers(x, m) && m != ALL_ONES
    ensures LeastPowerAbove(Value(m + 1), Value(x))
  {
    CoverValue(x, m);
    IncrementMask(m);
    if m != 0 {
      CoversHalf(x, m);
      CoverValue(x >> 1, m >> 1);
    }
    LeastPower(Length(m), Value(x));
  }

  /** Below 2^63 the smeared word plus one is the least power of two above x; from there on it
      wraps around to 0. */
  lemma SmearPlusOne(x: bv64)
    ensures x < HIGH_BIT ==> LeastPowerAbove(Value(Smear(x) + 1), Value(x))
    ensures x >= HIGH_BIT ==> Smear(x) + 1 == 0
  {
    SmearCovers(x);
    HighestBit(x, Smear(x));
    if x < HIGH_BIT {
      CoverPlusOne(x, Smear(x));
    }
  }

  /** upsize */
  method Upsize(x0: bv64) returns (r: bv64)
    ensures x0 < HIGH_BIT ==> LeastPowerAbove(Value(r), Value(x0))
    ensures x0 >= HIGH_BIT ==> r == 0
  {
    var x := x0;
    x := x | (x >> 1);
    x := x | (x >> 2);
    x := x | (x >> 4);
    x := x | (x >> 8);
    x := x | (x >> 16);
    x := x | (x >> 32);
    r := x + 1;
    SmearPlusOne(x0);
  }

  /** The capacity exceeds the size exactly for sizes below 2^63. */
  lemma RoomIff(n: bv64)
    ensures Value(Smear(n) + 1) > Value(n) <==> n < HIGH_BIT
  {
    SmearPlusOne(n);
  }

  /** The slots of a sized queue. */
  function Copies(n: nat, val: Queue.Value): seq<Queue.Slot> {
    seq(n, _ => Queue.Slot(Queue.Val(val), false))
  }

  /** The constructor queue (n, val): all n writes fit, in an array that has room for more. */
  method SizedQueue(n: bv64, val: Queue.Value) returns (qdp: QueueData.QData)
    requires n < HIGH_BIT
    ensures fresh(qdp) && fresh(qdp.ptrs) && LeastPowerAbove(qdp.cap, Value(n))
    ensures qdp.Abs() == Queue.MakeArr(qdp.cap, Copies(Value(n), val))
    ensures qdp.Valid(true) && qdp.wrIdx < qdp.cap
  {
    var ns := Value(n);
    var cap := Upsize(n);
    qdp := new QueueData.QData(Value(cap));
    var i := 0;
    while i < ns
      invariant 0 <= i <= ns && qdp.wrIdx == i
      invariant fresh(qdp) && fresh(qdp.ptrs) && qdp.rdIdx == 0
      invariant forall j :: 0 <= j <= qdp.cap ==>
                  qdp.ptrs[j] == if j < i then Queue.Slot(Queue.Val(val), false) else Queue.EMPTY
    {
      qdp.ptrs[i] := Queue.Slot(Queue.Val(val), false);
      i := i + 1;
      qdp.wrIdx := i;
    }
    assert qdp.ptrs[..] == Queue.MakeArr(qdp.cap, Copies(ns, val)).slots;
  }
}
