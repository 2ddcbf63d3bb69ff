/** The slot array of xrcu/hash_table.hpp as a sequence: what it means for it to denote a map, and
    what single-slot updates do to that. */
module HashSlots {
  import opened Primes
  import opened Probing

  /** A key word is FREE, DELT or a key; a value word is FREE, DELT or a value. Each pair carries
      the XBIT of its value word, which a rehash sets in the array that it retires. */
  datatype KeyWord<K> = KFree | KDelt | Key(k: K)
  datatype ValWord<V> = VFree | VDelt | Val(v: V)
  datatype Entry<K, V> = Entry(key: KeyWord<K>, val: ValWord<V>, x: bool)

  predicate EntryOk<K, V>(e: Entry<K, V>) {
    !e.x && (e.key.KFree? <==> e.val.VFree?) && (e.key.KDelt? <==> e.val.VDelt?)
  }

  /** Slot i is probed for `code` before any FREE slot is. */
  ghost predicate OnPath<K, V>(d: seq<Entry<K, V>>, code: nat, i: nat)
    requires |d| > 7
  {
    exists j: nat :: j < |d| && PathTo(d, code, i, j)
  }

  ghost predicate PathTo<K, V>(d: seq<Entry<K, V>>, code: nat, i: nat, j: nat)
    requires |d| > 7
  {
    Pos(|d|, code, j) == i && forall l: nat :: l < j ==> !d[Pos(|d|, code, l)].key.KFree?
  }

  /** Keys are unique, and each is reachable on its probe path. */
  ghost predicate WellFormed<K(!new), V>(d: seq<Entry<K, V>>, hash: K -> nat) {
    && GoodSize(|d|)
    && (forall i :: 0 <= i < |d| ==> EntryOk(d[i]))
    && (forall i :: 0 <= i < |d| && d[i].key.Key? ==> OnPath(d, hash(d[i].key.k), i))
    && (forall i, j :: 0 <= i < |d| && 0 <= j < |d| && d[i].key.Key? && d[i].key == d[j].key ==> i == j)
  }

  ghost predicate HasKey<K(!new), V>(d: seq<Entry<K, V>>, k: K) {
    exists i :: 0 <= i < |d| && d[i].key == Key(k)
  }

  /** The map that the slots denote. */
  ghost predicate Denotes<K(!new), V>(d: seq<Entry<K, V>>, m: map<K, V>) {
    && (forall i :: 0 <= i < |d| && d[i].key.Key? && d[i].val.Val? ==> d[i].key.k in m && m[d[i].key.k] == d[i].val.v)
    && (forall k :: k in m ==> HasKey(d, k))
  }

  // ----- Counting -----

  function NonFree<K, V>(d: seq<Entry<K, V>>): (n: nat)
    ensures n <= |d|
  {
    if d == [] then 0 else NonFree(d[..|d| - 1]) + if d[|d| - 1].key.KFree? then 0 else 1
  }

  function Live<K, V>(d: seq<Entry<K, V>>): (n: nat)
    ensures n <= NonFree(d)
  {
    if d == [] then 0 else Live(d[..|d| - 1]) + if d[|d| - 1].key.Key? then 1 else 0
  }

  lemma {:induction false} CountUpdate<K, V>(d: seq<Entry<K, V>>, i: nat, e: Entry<K, V>)
    requires i < |d|
    ensures NonFree(d[i := e]) + (if d[i].key.KFree? then 0 else 1) == NonFree(d) + (if e.key.KFree? then 0 else 1)
    ensures Live(d[i := e]) + (if d[i].key.Key? then 1 else 0) == Live(d) + (if e.key.Key? then 1 else 0)
  {
    var n := |d| - 1;
    if i == n {
      assert d[i := e][..n] == d[..n];
    } else {
      CountUpdate(d[..n], i, e);
      assert d[i := e][..n] == d[..n][i := e];
    }
  }

  lemma {:induction false} CountEmpty<K, V>(d: seq<Entry<K, V>>)
    requires forall i :: 0 <= i < |d| ==> d[i].key.KFree?
    ensures NonFree(d) == 0 && Live(d) == 0
  {
    if d != [] {
      CountEmpty(d[..|d| - 1]);
    }
  }

  lemma {:induction false} SomeFree<K, V>(d: seq<Entry<K, V>>) returns (i: nat)
    requires NonFree(d) < |d|
    ensures i < |d| && d[i].key.KFree?
  {
    var n := |d| - 1;
    if d[n].key.KFree? {
      i := n;
    } else {
      i := SomeFree(d[..n]);
    }
  }

  // ----- Probing -----

  /** A path survives updates that free no slot. */
  lemma OnPathKept<K, V>(d: seq<Entry<K, V>>, d': seq<Entry<K, V>>, code: nat, i: nat)
    requires |d| > 7 && |d'| == |d| && OnPath(d, code, i)
    requires forall l :: 0 <= l < |d| && d'[l].key.KFree? ==> d[l].key.KFree?
    ensures OnPath(d', code, i)
  {
    var j: nat :| j < |d| && PathTo(d, code, i, j);
    assert PathTo(d', code, i, j);
  }

  /** The first j slots on the path of k are neither FREE nor hold k. */
  ghost predicate Passed<K(!new), V>(d: seq<Entry<K, V>>, code: nat, k: K, j: nat)
    requires |d| > 7
  {
    forall l: nat :: l < j ==>
      !d[Pos(|d|, code, l)].key.KFree? && d[Pos(|d|, code, l)].key != Key(k)
  }

  /** A probe that meets a FREE slot, or that comes back to its start, has shown that the key is
      not in the table. */
  lemma ProbeMisses<K(!new), V>(d: seq<Entry<K, V>>, hash: K -> nat, k: K, j: nat)
    requires WellFormed(d, hash) && j <= |d| && Passed(d, hash(k), k, j)
    requires j == |d| || d[Pos(|d|, hash(k), j)].key.KFree?
    ensures !HasKey(d, k)
  {
    forall i | 0 <= i < |d| ensures d[i].key != Key(k) {
      assert d[i].key == Key(k) ==> OnPath(d, hash(k), i);
    }
  }

  /** A probe that comes back to its start has visited every slot. */
  lemma FullCircle<K(!new), V>(d: seq<Entry<K, V>>, code: nat, k: K)
    requires GoodSize(|d|) && Passed(d, code, k, |d|)
    ensures NonFree(d) == |d|
  {
    if NonFree(d) < |d| {
      var i := SomeFree(d);
      var j := Coverage(|d|, code, i);
    }
  }

  // ----- Updates -----

  /** Filling the FREE slot that a probe for an absent key has found. */
  lemma Filled<K(!new), V>(d: seq<Entry<K, V>>, hash: K -> nat, m: map<K, V>, i: nat, k: K, v: V)
    requires WellFormed(d, hash) && Denotes(d, m) && !HasKey(d, k)
    requires i < |d| && d[i].key.KFree? && OnPath(d, hash(k), i)
    ensures
      var d' := d[i := Entry(Key(k), Val(v), false)];
      WellFormed(d', hash) && Denotes(d', m[k := v]) && k !in m
  {
    var d' := d[i := Entry(Key(k), Val(v), false)];
    assert k !in m;
    forall l | 0 <= l < |d'| && d'[l].key.Key? ensures OnPath(d', hash(d'[l].key.k), l) {
      if l != i {
        assert OnPath(d, hash(d[l].key.k), l);
      }
      OnPathKept(d, d', hash(d'[l].key.k), l);
    }
    forall a | a in m[k := v] ensures HasKey(d', a) {
      if a == k {
        assert d'[i].key == Key(k);
      } else {
        var l :| 0 <= l < |d| && d[l].key == Key(a);
        assert d'[l].key == Key(a);
      }
    }
  }

  /** Replacing the value of a key. */
  lemma Replaced<K(!new), V>(d: seq<Entry<K, V>>, hash: K -> nat, m: map<K, V>, i: nat, v: V)
    requires WellFormed(d, hash) && Denotes(d, m) && i < |d| && d[i].key.Key?
    ensures
      var d' := d[i := d[i].(val := Val(v))];
      WellFormed(d', hash) && Denotes(d', m[d[i].key.k := v]) && d[i].key.k in m && d[i].val == Val(m[d[i].key.k])
  {
    var d' := d[i := d[i].(val := Val(v))];
    assert EntryOk(d[i]);
    forall l | 0 <= l < |d'| && d'[l].key.Key? ensures OnPath(d', hash(d'[l].key.k), l) {
      assert OnPath(d, hash(d[l].key.k), l);
      OnPathKept(d, d', hash(d'[l].key.k), l);
    }
    forall a | a in m[d[i].key.k := v] ensures HasKey(d', a) {
      if a in m {
        var l :| 0 <= l < |d| && d[l].key == Key(a);
        assert d'[l].key == Key(a);
      }
    }
  }

  /** Turning the slot of a key into a tombstone. */
  lemma Deleted<K(!new), V>(d: seq<Entry<K, V>>, hash: K -> nat, m: map<K, V>, i: nat)
    requires WellFormed(d, hash) && Denotes(d, m) && i < |d| && d[i].key.Key?
    ensures
      var d' := d[i := Entry(KDelt, VDelt, false)];
      WellFormed(d', hash) && Denotes(d', m - {d[i].key.k})
  {
    var d' := d[i := Entry(KDelt, VDelt, false)];
    forall l | 0 <= l < |d'| && d'[l].key.Key? ensures OnPath(d', hash(d'[l].key.k), l) {
      assert OnPath(d, hash(d[l].key.k), l);
      OnPathKept(d, d', hash(d'[l].key.k), l);
    }
    forall a | a in m - {d[i].key.k} ensures HasKey(d', a) {
      var l :| 0 <= l < |d| && d[l].key == Key(a);
      assert d'[l].key == Key(a);
    }
  }

  /** An array of FREE slots denotes the empty map. */
  lemma AllFree<K(!new), V>(d: seq<Entry<K, V>>, hash: K -> nat)
    requires GoodSize(|d|) && forall i :: 0 <= i < |d| ==> d[i] == Entry(KFree, VFree, false)
    ensures WellFormed(d, hash) && Denotes(d, map[])
    ensures NonFree(d) == 0 && Live(d) == 0
  {
    CountEmpty(d);
  }

  // ----- Walking over the slots -----

  predicate Holds<K, V>(e: Entry<K, V>) {
    !e.key.KFree? && !e.key.KDelt? && !e.val.VFree? && !e.val.VDelt?
  }

  /** The pairs in the first n slots, in slot order. */
  function Items<K, V>(d: seq<Entry<K, V>>, n: nat): seq<(K, V)>
    requires n <= |d|
  {
    if n == 0 then []
    else if Holds(d[n - 1]) then Items(d, n - 1) + [(d[n - 1].key.k, d[n - 1].val.v)]
    else Items(d, n - 1)
  }

  function KeysOf<K, V>(items: seq<(K, V)>): set<K> {
    set i | 0 <= i < |items| :: items[i].0
  }

  /** The map that a rehash has built after n slots of the old array. */
  function Copied<K, V>(d: seq<Entry<K, V>>, n: nat): map<K, V>
    requires n <= |d|
  {
    if n == 0 then map[]
    else if Holds(d[n - 1]) then Copied(d, n - 1)[d[n - 1].key.k := d[n - 1].val.v]
    else Copied(d, n - 1)
  }

  lemma {:induction false} CopiedBelow<K(!new), V>(d: seq<Entry<K, V>>, hash: K -> nat, m: map<K, V>, n: nat)
    requires WellFormed(d, hash) && Denotes(d, m) && n <= |d|
    ensures forall k :: k in Copied(d, n) ==> k in m && m[k] == Copied(d, n)[k]
    ensures forall k :: k in Copied(d, n) <==> exists i :: 0 <= i < n && d[i].key == Key(k)
  {
    if n > 0 {
      CopiedBelow(d, hash, m, n - 1);
      assert EntryOk(d[n - 1]);
    }
  }

  /** A rehash that has walked over all slots has the whole map. */
  lemma CopiedAll<K(!new), V>(d: seq<Entry<K, V>>, hash: K -> nat, m: map<K, V>)
    requires WellFormed(d, hash) && Denotes(d, m)
    ensures Copied(d, |d|) == m
  {
    CopiedBelow(d, hash, m, |d|);
    forall k | k in m ensures k in Copied(d, |d|) {
      assert HasKey(d, k);
    }
  }

  /** A rehash never meets a key twice. */
  lemma CopiedFresh<K(!new), V>(d: seq<Entry<K, V>>, hash: K -> nat, m: map<K, V>, n: nat)
    requires WellFormed(d, hash) && Denotes(d, m) && n < |d| && Holds(d[n])
    ensures d[n].key.k !in Copied(d, n)
  {
    CopiedBelow(d, hash, m, n);
  }

  /** The items of the first n slots are the pairs of the map that these slots denote, each
      once. */
  lemma {:induction false} ItemsBelow<K(!new), V>(d: seq<Entry<K, V>>, hash: K -> nat, m: map<K, V>, n: nat)
    requires WellFormed(d, hash) && Denotes(d, m) && n <= |d|
    ensures KeysOf(Items(d, n)) == Copied(d, n).Keys
    ensures |Items(d, n)| == |Copied(d, n)| == Live(d[..n])
  {
    if n > 0 {
      ItemsBelow(d, hash, m, n - 1);
      assert d[..n][..n - 1] == d[..n - 1];
      assert EntryOk(d[n - 1]);
      if Holds(d[n - 1]) {
        var p := (d[n - 1].key.k, d[n - 1].val.v);
        KeysAppend(Items(d, n - 1), p);
        CopiedFresh(d, hash, m, n - 1);
        assert Copied(d, n).Keys == Copied(d, n - 1).Keys + {p.0};
      }
    }
  }

  lemma KeysAppend<K, V>(items: seq<(K, V)>, p: (K, V))
    ensures KeysOf(items + [p]) == KeysOf(items) + {p.0}
  {
    forall k | k in KeysOf(items) ensures k in KeysOf(items + [p]) {
      var i :| 0 <= i < |items| && items[i].0 == k;
      assert (items + [p])[i].0 == k;
    }
    assert (items + [p])[|items|].0 == p.0;
  }

  lemma {:induction false} ItemsPairs<K(!new), V>(d: seq<Entry<K, V>>, hash: K -> nat, m: map<K, V>, n: nat)
    requires WellFormed(d, hash) && Denotes(d, m) && n <= |d|
    ensures forall p :: p in Items(d, n) ==> p.0 in m && m[p.0] == p.1
  {
    if n > 0 {
      ItemsPairs(d, hash, m, n - 1);
    }
  }

  /** All items are the pairs of the map, each once, and they are as many as the live slots. */
  lemma AllItems<K(!new), V>(d: seq<Entry<K, V>>, hash: K -> nat, m: map<K, V>)
    requires WellFormed(d, hash) && Denotes(d, m)
    ensures forall p :: p in Items(d, |d|) ==> p.0 in m && m[p.0] == p.1
    ensures KeysOf(Items(d, |d|)) == m.Keys
    ensures |Items(d, |d|)| == |m| == Live(d)
  {
    ItemsBelow(d, hash, m, |d|);
    ItemsPairs(d, hash, m, |d|);
    CopiedAll(d, hash, m);
    assert d[..|d|] == d;
  }

  /** An array that denotes a map has no key outside it. */
  lemma NoOtherKey<K(!new), V>(d: seq<Entry<K, V>>, hash: K -> nat, m: map<K, V>, k: K)
    requires WellFormed(d, hash) && Denotes(d, m) && k !in m
    ensures !HasKey(d, k)
  {
    forall i | 0 <= i < |d| ensures d[i].key != Key(k) {
      assert EntryOk(d[i]);
    }
  }

  /** The array with the XBIT set in its first n slots. */
  function Marked<K, V>(d: seq<Entry<K, V>>, n: nat): seq<Entry<K, V>>
    requires n <= |d|
  {
    seq(|d|, i requires 0 <= i < |d| => if i < n then d[i].(x := true) else d[i])
  }

  /** One step of a rehash: the pair of slot n goes to a FREE slot on the path of its key. */
  lemma CopyOne<K(!new), V>(d: seq<Entry<K, V>>, hash: K -> nat, m: map<K, V>, n: nat, nd: seq<Entry<K, V>>, i: nat)
    requires WellFormed(d, hash) && Denotes(d, m) && n < |d| && Holds(d[n])
    requires WellFormed(nd, hash) && Denotes(nd, Copied(d, n))
    requires i < |nd| && nd[i].key.KFree? && OnPath(nd, hash(d[n].key.k), i)
    ensures
      var nd' := nd[i := Entry(d[n].key, d[n].val, false)];
      && WellFormed(nd', hash) && Denotes(nd', Copied(d, n + 1)) && |Copied(d, n + 1)| == |Copied(d, n)| + 1
      && NonFree(nd') == NonFree(nd) + 1 && Live(nd') == Live(nd) + 1
  {
    var k, v := d[n].key.k, d[n].val.v;
    CopiedFresh(d, hash, m, n);
    NoOtherKey(nd, hash, Copied(d, n), k);
    Filled(nd, hash, Copied(d, n), i, k, v);
    CountUpdate(nd, i, Entry(Key(k), Val(v), false));
    assert Copied(d, n + 1).Keys == Copied(d, n).Keys + {k};
  }

  // ----- Growth arithmetic -----

  lemma Scale(c: real, low: real, x: real, high: real)
    requires 0.0 <= c && low <= x <= high
    ensures c * low <= c * x <= c * high
  {
  }

  lemma ScaleBelow(c: real, x: real)
    requires c > 7.0 && 0.4 <= x <= 0.9
    ensures 0.0 <= c * x < c
  {
    Scale(c, 0.0, x, 0.9);
  }

  lemma FloorBelow(n: nat, x: real)
    requires 0.0 <= x < n as real
    ensures 0 <= x.Floor < n
  {
  }

  /** The limit is the largest whole number of entries within the load factor. */
  lemma LimitIs(n: nat, loadf: real)
    requires 0.0 <= loadf
    ensures LimitOf(n, loadf) as real <= n as real * loadf < LimitOf(n, loadf) as real + 1.0
  {
  }

  /** What a budget and a number of used slots that make a limit together say about the load. */
  lemma LimitShare(n: nat, loadf: real, budget: nat, used: nat)
    requires 0.0 <= loadf && budget + used == LimitOf(n, loadf)
    ensures used as real <= n as real * loadf
    ensures budget == 0 <==> used as real + 1.0 > n as real * loadf
  {
    LimitIs(n, loadf);
  }

  /** A load factor of at most 0.9 never lets a table fill up. */
  lemma LimitBelowSize(n: nat, loadf: real)
    requires n > 7 && 0.4 <= loadf <= 0.9
    ensures 0 <= LimitOf(n, loadf) < n
  {
    ScaleBelow(n as real, loadf);
    FloorBelow(n, n as real * loadf);
  }

  /** The next table size is at least three times as large and the load factor at least 0.4, so
      the new limit exceeds whatever the old table held. */
  lemma RoomAfterRehash(n: nat, n': nat, loadf: real, nelem: nat)
    requires n > 7 && n' >= 3 * n && 0.4 <= loadf <= 0.9 && nelem < n
    ensures LimitOf(n', loadf) > nelem
  {
    var c := n' as real;
    Scale(c, 0.4, loadf, 0.9);
    assert c >= 3.0 * n as real;
  }

  /** The same over the table of sizes, with the reserve that the new budget leaves. */
  lemma NextSizeHasRoom(sizes: seq<nat>, pidx: nat, loadf: real, nelem: nat)
    requires GoodTable(sizes) && pidx + 1 < |sizes| && 0.4 <= loadf <= 0.9 && nelem < sizes[pidx]
    ensures GoodSize(sizes[pidx]) && GoodSize(sizes[pidx + 1]) && sizes[pidx] < sizes[pidx + 1]
    ensures nelem < LimitOf(sizes[pidx + 1], loadf) < sizes[pidx + 1]
  {
    RoomAfterRehash(sizes[pidx], sizes[pidx + 1], loadf, nelem);
    LimitBelowSize(sizes[pidx + 1], loadf);
  }

  lemma LimitAtMost(n: nat, loadf: real)
    requires 0.4 <= loadf <= 0.9
    ensures 0 <= LimitOf(n, loadf) <= n
  {
    Scale(n as real, 0.0, loadf, 1.0);
    FloorAtMost(n, n as real * loadf);
  }

  lemma FloorAtMost(n: nat, x: real)
    requires 0.0 <= x <= n as real
    ensures 0 <= x.Floor <= n
  {
  }

  /** A limit is positive if and only if the load factor lets in one whole entry. */
  lemma LimitPositive(n: nat, loadf: real)
    requires 0.4 <= loadf <= 0.9
    ensures LimitOf(n, loadf) > 0 <==> 1.0 <= n as real * loadf
    ensures n <= 1 ==> LimitOf(n, loadf) == 0
  {
    LimitAtMost(n, loadf);
    Scale(n as real, 0.4, loadf, 0.9);
  }
}
