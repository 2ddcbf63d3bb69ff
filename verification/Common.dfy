/** Definitions that several models share. */
module Common {
  datatype Option<+T> = None | Some(value: T)

  /** No element occurs twice. */
  predicate Distinct<T(==)>(s: seq<T>) {
    forall i, j :: 0 <= i < j < |s| ==> s[i] != s[j]
  }

  ghost predicate Disjoint<T>(s: seq<T>, t: seq<T>) {
    forall x :: x in s ==> x !in t
  }

  /** XRCU_MAX_FINS, and the range of the unsigned int that counts pending objects. */
  const MAX_FINS: nat := 1000
  const UINT_RANGE: nat := 0x1_0000_0000

  /** Counting on from a wrapped counter. */
  lemma WrappedNext(n: nat)
    ensures (n % UINT_RANGE + 1) % UINT_RANGE == (n + 1) % UINT_RANGE
    ensures (n + 1) % UINT_RANGE < MAX_FINS && n + 1 >= MAX_FINS ==> n >= MAX_FINS
  {
  }
}
