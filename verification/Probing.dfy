/** The probe sequence of xrcu/hash_table.hpp: starting at a hash, step by 2, 3, 5 or 7 entries
    with one conditional subtraction. */
module Probing {
  import opened Primes

  const STEPS: seq<nat> := [2, 3, 5, 7]

  /** secondary_hash */
  function SecondaryHash(code: nat): nat {
    STEPS[code % 4]
  }

  /** One step of the probe loop. */
  function Advance(n: nat, idx: nat, sec: nat): nat
    requires idx < n && sec < n
  {
    if idx + sec >= n then idx + sec - n else idx + sec
  }

  /** The j-th slot probed for a key with hash `code` in a table of n entries. */
  function {:induction false} Pos(n: nat, code: nat, j: nat): (idx: nat)
    requires n > 7
    ensures idx < n
  {
    if j == 0 then code % n else Advance(n, Pos(n, code, j - 1), SecondaryHash(code))
  }

  /** How often the first j steps have wrapped around. */
  function Laps(n: nat, code: nat, j: nat): nat
    requires n > 7
  {
    if j == 0 then 0
    else
      Laps(n, code, j - 1)
      + if Pos(n, code, j - 1) + SecondaryHash(code) >= n then 1 else 0
  }

  lemma Distribute(a: int, b: int, c: int)
    ensures (a + b) * c == a * c + b * c
  {
  }

  lemma {:induction false} PosLaps(n: nat, code: nat, j: nat)
    requires n > 7
    ensures code % n + j * SecondaryHash(code) == Pos(n, code, j) + Laps(n, code, j) * n
  {
    if j == 0 {
      assert 0 * SecondaryHash(code) == 0 && 0 * n == 0;
    } else {
      PosLaps(n, code, j - 1);
      Distribute(j - 1, 1, SecondaryHash(code));
      Distribute(Laps(n, code, j - 1), 1, n);
    }
  }

  lemma Monotone(a: int, b: int, c: int)
    requires a <= b && 0 <= c
    ensures a * c <= b * c
  {
  }

  lemma CancelLess(a: int, b: int, c: int)
    requires a * c < b * c && 0 <= c
    ensures a < b
  {
    if b <= a {
      Monotone(b, a, c);
    }
  }

  /** m * n by repeated addition. */
  function Times(m: nat, n: nat): nat {
    if m == 0 then 0 else Times(m - 1, n) + n
  }

  lemma {:induction false} TimesIsProduct(m: nat, n: nat)
    ensures Times(m, n) == m * n
  {
    if m > 0 {
      TimesIsProduct(m - 1, n);
      Distribute(m - 1, 1, n);
    }
  }

  /** n has no common factor with 2, 3, 5 or 7, so none of its small multiples is a multiple of
      the step. */
  lemma NotAMultiple(n: nat, sec: nat, d: int, m: nat)
    requires GoodSize(n) && sec in STEPS && 0 < m < sec
    ensures d * sec != m * n
  {
    TimesIsProduct(m, n);
    if sec == 2 {
      NotEven(n, d, m);
    } else if sec == 3 {
      NotByThree(n, d, m);
    } else if sec == 5 {
      NotByFive(n, d, m);
    } else {
      NotBySeven(n, d, m);
    }
  }

  lemma NotEven(n: nat, d: int, m: nat)
    requires n % 2 != 0 && m == 1
    ensures d * 2 != Times(m, n)
  {
  }

  lemma NotByThree(n: nat, d: int, m: nat)
    requires n % 3 != 0 && 0 < m < 3
    ensures d * 3 != Times(m, n)
  {
    assert Times(1, n) == n;
    assert Times(2, n) == Times(1, n) + n;
  }

  /** With d * 5 == m * n, the inverse of m modulo 5 shows that 5 divides n. */
  lemma NotByFive(n: nat, d: int, m: nat)
    requires n % 5 != 0 && 0 < m < 5
    ensures d * 5 != Times(m, n)
  {
    assert Times(1, n) == n;
    assert Times(2, n) == Times(1, n) + n;
    assert Times(4, n) == Times(2, n) + 2 * n;
    var k := if m == 1 then d else if m == 2 then 3 * d - n else if m == 3 then 2 * d - n else 4 * d - 3 * n;
    assert d * 5 == Times(m, n) ==> n == 5 * k;
  }

  lemma NotBySeven(n: nat, d: int, m: nat)
    requires n % 7 != 0 && 0 < m < 7
    ensures d * 7 != Times(m, n)
  {
    assert Times(1, n) == n;
    assert Times(2, n) == Times(1, n) + n;
    assert Times(4, n) == Times(2, n) + 2 * n;
    assert Times(6, n) == Times(4, n) + 2 * n;
    var k :=
      if m == 1 then d else if m == 2 then 4 * d - n else if m == 3 then 5 * d - 2 * n
      else if m == 4 then 2 * d - n else if m == 5 then 3 * d - 2 * n else 6 * d - 5 * n;
    assert d * 7 == Times(m, n) ==> n == 7 * k;
  }

  /** A walk of fewer than n steps does not come back to where it was. */
  lemma NoShortCycle(n: nat, sec: nat, d: nat, m: int)
    requires GoodSize(n) && sec in STEPS && 0 < d < n
    ensures d * sec != m * n
  {
    Monotone(1, d, sec);
    Monotone(d + 1, n, sec);
    Distribute(d, 1, sec);
    if d * sec == m * n {
      CancelLess(0, m, n);
      CancelLess(m, sec, n);
      NotAMultiple(n, sec, d, m);
    }
  }

  /** Any n probes in a row visit different slots. */
  lemma PosInjective(n: nat, code: nat, i: nat, j: nat)
    requires GoodSize(n) && i < j < i + n
    ensures Pos(n, code, i) != Pos(n, code, j)
  {
    var sec := SecondaryHash(code);
    var m := Laps(n, code, j) - Laps(n, code, i);
    PosLaps(n, code, i);
    PosLaps(n, code, j);
    Distribute(j - i, i, sec);
    Distribute(m, Laps(n, code, i), n);
    NoShortCycle(n, sec, j - i, m);
  }

  /** Hash codes that meet in one slot go on to different slots if they differ modulo 4. */
  lemma SecondProbesDiffer(n: nat, c: nat, d: nat)
    requires GoodSize(n) && c % n == d % n && c % 4 != d % 4
    ensures Pos(n, c, 0) == Pos(n, d, 0) && Pos(n, c, 1) != Pos(n, d, 1)
  {
    assert Pos(n, c, 1) == Advance(n, c % n, SecondaryHash(c));
    assert Pos(n, d, 1) == Advance(n, d % n, SecondaryHash(d));
  }

  // ----- Coverage -----

  function Visited(n: nat, code: nat, k: nat): set<nat>
    requires n > 7
  {
    set j | 0 <= j < k :: Pos(n, code, j)
  }

  function Below(n: nat): (s: set<nat>)
    ensures forall i: nat :: i in s <==> i < n
  {
    if n == 0 then {} else Below(n - 1) + {n - 1}
  }

  lemma {:induction false} BelowSize(n: nat)
    ensures |Below(n)| == n
  {
    if n > 0 {
      BelowSize(n - 1);
    }
  }

  lemma {:induction false} VisitedSize(n: nat, code: nat, k: nat)
    requires GoodSize(n) && k <= n
    ensures |Visited(n, code, k)| == k
  {
    if k > 0 {
      VisitedSize(n, code, k - 1);
      assert Visited(n, code, k) == Visited(n, code, k - 1) + {Pos(n, code, k - 1)};
      forall j | 0 <= j < k - 1 ensures Pos(n, code, j) != Pos(n, code, k - 1) {
        PosInjective(n, code, j, k - 1);
      }
    }
  }

  lemma SubsetOfSameSize(a: set<nat>, b: set<nat>)
    requires a <= b && |a| == |b|
    ensures a == b
  {
    assert |b - a| == |b| - |a|;
  }

  /** The first n probes visit every slot, each exactly once. */
  lemma Coverage(n: nat, code: nat, slot: nat) returns (j: nat)
    requires GoodSize(n) && slot < n
    ensures j < n && Pos(n, code, j) == slot
    ensures forall i :: 0 <= i < n && i != j ==> Pos(n, code, i) != slot
  {
    BelowSize(n);
    VisitedSize(n, code, n);
    SubsetOfSameSize(Visited(n, code, n), Below(n));
    assert slot in Visited(n, code, n);
    j :| 0 <= j < n && Pos(n, code, j) == slot;
    forall i | 0 <= i < n && i != j ensures Pos(n, code, i) != slot {
      if i < j {
        PosInjective(n, code, i, j);
      } else {
        PosInjective(n, code, j, i);
      }
    }
  }

  /** After n probes the walk is back at its start. */
  lemma PosReturns(n: nat, code: nat)
    requires GoodSize(n)
    ensures Pos(n, code, n) == Pos(n, code, 0)
  {
    var j := Coverage(n, code, Pos(n, code, n));
    if j > 0 {
      PosInjective(n, code, j, n);
    }
  }

  /** The test that ends a fruitless probe fires after n steps and not before. */
  lemma BackAtStart(n: nat, code: nat, j: nat)
    requires GoodSize(n) && 0 < j <= n
    ensures Pos(n, code, j) == code % n <==> j == n
  {
    if j < n {
      PosInjective(n, code, 0, j);
    } else {
      PosReturns(n, code);
    }
  }
}
