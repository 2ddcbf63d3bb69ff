/** The table sizes of src/hash_table.cpp. */
module Primes {
  const PRIMES: seq<nat> := [
    0xb, 0x25, 0x71, 0x15b, 0x419, 0xc4d, 0x24f5, 0x6ee3, 0x14cb3, 0x3e61d,
    0xbb259, 0x23170f, 0x694531, 0x13bcf95, 0x3b36ec3, 0xb1a4c4b, 0x214ee4e3,
    0x63ecaead,
    0x12bc60c09, 0x38352241d, 0xa89f66c5b, 0x1f9de34513,
    0x5ed9a9cf3b, 0x11c8cfd6db5, 0x355a6f84921, 0xa00f4e8db65,
    0x1e02deba9233, 0x5a089c2fb69b, 0x10e19d48f23d3, 0x32a4d7dad6b7d,
    0x97ee879084279, 0x1c7cb96b18c76d, 0x55762c414a564b,
    0x1006284c3df02e3, 0x301278e4b9d08ab, 0x90376aae2d71a05,
    0x1b0a6400a8854e11, 0x511f2c01f98fea35]

  /** What the hash table relies on in a table size: it is a 63-bit number, it exceeds every probe
      step, and it has no common factor with one. */
  predicate GoodSize(n: nat) {
    7 < n < 0x8000_0000_0000_0000 && n % 2 != 0 && n % 3 != 0 && n % 5 != 0 && n % 7 != 0
  }

  /** What the hash table needs of its table of sizes: every size is good, and each is at least
      three times the one before it. */
  ghost predicate GoodTable(sizes: seq<nat>) {
    && sizes != []
    && (forall i :: 0 <= i < |sizes| ==> GoodSize(sizes[i]))
    && (forall i, j :: 0 <= i < j < |sizes| && j == i + 1 ==> sizes[j] >= 3 * sizes[i])
  }

  lemma EveryPrimeGood()
    ensures |PRIMES| == 38 && forall i :: 0 <= i < |PRIMES| ==> GoodSize(PRIMES[i])
  {
  }

  lemma EveryPrimeTriples()
    ensures forall i :: 0 <= i < |PRIMES| - 1 ==> PRIMES[i + 1] >= 3 * PRIMES[i]
  {
  }

  /** The sizes that the source uses meet all that the proofs need. */
  lemma PrimesAreGood()
    ensures GoodTable(PRIMES)
  {
    EveryPrimeGood();
    EveryPrimeTriples();
  }

  lemma {:induction false} Sorted(sizes: seq<nat>, i: nat, j: nat)
    requires GoodTable(sizes) && i <= j < |sizes|
    ensures sizes[i] <= sizes[j]
    decreases j
  {
    if i < j {
      Sorted(sizes, i, j - 1);
    }
  }

  /** The number of entries that a load factor allows in a table of n. */
  function LimitOf(n: nat, loadf: real): int {
    (n as real * loadf).Floor
  }

  /** find_hsize: the smallest table size that is not below `size`, and its limit. The source
      indexes past the table when `size` exceeds the last entry. */
  method FindHsize(sizes: seq<nat>, size: nat, mvr: real) returns (limit: int, pidx: nat)
    requires GoodTable(sizes) && size <= sizes[|sizes| - 1]
    ensures pidx < |sizes| && sizes[pidx] >= size
    ensures forall i :: 0 <= i < pidx ==> sizes[i] < size
    ensures limit == LimitOf(sizes[pidx], mvr)
  {
    var i1, i2 := 0, |sizes|;
    while i1 < i2
      invariant 0 <= i1 <= i2 <= |sizes|
      invariant forall i :: 0 <= i < i1 ==> sizes[i] < size
      invariant forall i :: i2 <= i < |sizes| ==> sizes[i] >= size
    {
      var step := (i1 + i2) / 2;
      if sizes[step] < size {
        forall i | 0 <= i <= step ensures sizes[i] < size {
          Sorted(sizes, i, step);
        }
        i1 := step + 1;
      } else {
        forall i | step <= i < |sizes| ensures sizes[i] >= size {
          Sorted(sizes, step, i);
        }
        i2 := step;
      }
    }
    pidx := i1;
    limit := LimitOf(sizes[i1], mvr);
  }
}
