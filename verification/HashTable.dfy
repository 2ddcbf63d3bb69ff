/** The hash table of xrcu/hash_table.hpp, used by one thread at a time: open addressing with
    double hashing, tombstones, and a budget of insertions until the next rehash. */
module HashTable {
  import opened Common
  import opened Primes
  import opened Probing
  import opened HashSlots

  /** What a probe of the slots d for a key returns: it goes along the path of the key, past slots
      that are neither FREE nor hold the key, up to one that is or does, or once around. */
  ghost predicate Probed<K(!new), V>(d: seq<Entry<K, V>>, code: nat, key: K, put: bool, vidx: Option<nat>, found: bool)
    requires |d| > 7
  {
    exists j: nat :: ProbedUpTo(d, code, key, put, vidx, found, j)
  }

  ghost predicate ProbedUpTo<K(!new), V>(d: seq<Entry<K, V>>, code: nat, key: K, put: bool, vidx: Option<nat>,
                                         found: bool, j: nat)
    requires |d| > 7
  {
    && j <= |d| && Passed(d, code, key, j)
    && (vidx.Some? ==> j < |d| && vidx.value == Pos(|d|, code, j))
    && (vidx.Some? && found ==> put && d[vidx.value].key.KFree?)
    && (vidx.Some? && !found ==> d[vidx.value].key == Key(key))
    && (vidx.None? ==> !found && (j == |d| || (!put && d[Pos(|d|, code, j)].key.KFree?)))
  }

  /** The answer of a probe tells whether the map has the key, and a probe for insertion always
      comes back with a slot. */
  lemma ProbeAnswers<K(!new), V>(d: seq<Entry<K, V>>, hash: K -> nat, m: map<K, V>, key: K, put: bool,
                                 vidx: Option<nat>, found: bool)
    requires WellFormed(d, hash) && Denotes(d, m) && NonFree(d) < |d|
    requires Probed(d, hash(key), key, put, vidx, found)
    ensures vidx.None? ==> !put && key !in m
    ensures vidx.Some? && found ==>
              !HasKey(d, key) && key !in m && d[vidx.value].key.KFree? && OnPath(d, hash(key), vidx.value)
    ensures vidx.Some? && !found ==>
              key in m && d[vidx.value] == Entry(Key(key), Val(m[key]), false)
  {
    var j: nat :| ProbedUpTo(d, hash(key), key, put, vidx, found, j);
    if vidx.Some? && !found {
      assert EntryOk(d[vidx.value]);
    } else {
      ProbeMisses(d, hash, key, j);
      if j == |d| {
        FullCircle(d, hash(key), key);
      } else {
        assert PathTo(d, hash(key), Pos(|d|, hash(key), j), j);
      }
    }
  }

  /** detail::ht_vector */
  class HashVector<K, V> {
    const entries: nat
    const pidx: nat
    const data: array<Entry<K, V>>
    var nelems: nat

    /** ht_vector::make, with FREE keys and values. */
    constructor (sizes: seq<nat>, pidx: nat)
      requires pidx < |sizes|
      ensures fresh(data)
      ensures this.pidx == pidx && entries == sizes[pidx] == data.Length && nelems == 0
      ensures forall i :: 0 <= i < data.Length ==> data[i] == Entry(KFree, VFree, false)
    {
      var n := sizes[pidx];
      this.pidx := pidx;
      entries := n;
      data := new Entry<K, V>[n](_ => Entry(KFree, VFree, false));
      nelems := 0;
    }
  }

  /** detail::ht_iter, over an array that nobody is writing to. */
  class HashIter<K(!new), V> {
    const data: array<Entry<K, V>>
    var idx: nat
    var key: KeyWord<K>
    var val: ValWord<V>
    var valid: bool

    /** Standing on a pair, the iterator is one slot past it; at the end, it is past the array. */
    ghost predicate Valid()
      reads this, data
    {
      && idx <= data.Length
      && (forall i :: 0 <= i < data.Length && data[i].key.KDelt? ==> data[i].val.VDelt?)
      && (valid ==> 0 < idx && Holds(data[idx - 1]) && key == data[idx - 1].key && val == data[idx - 1].val)
      && (!valid ==> idx == data.Length || idx == 0)
    }

    /** The pairs of the slots before idx. */
    ghost function Seen(): seq<(K, V)>
      requires idx <= data.Length
      reads this, data
    {
      Items(data[..], idx)
    }

    ghost function Current(): seq<(K, V)>
      requires Valid()
      reads this, data
    {
      if valid then [(key.k, val.v)] else []
    }

    constructor (data: array<Entry<K, V>>)
      requires forall i :: 0 <= i < data.Length && data[i].key.KDelt? ==> data[i].val.VDelt?
      ensures this.data == data && idx == 0 && !valid
    {
      this.data := data;
      idx, key, val, valid := 0, KFree, VFree, false;
    }

    /** _Adv: on to the next pair, or to the end. */
    method Adv()
      requires Valid()
      modifies this
      ensures Valid() && (valid || idx == data.Length)
      ensures Seen() == old(Seen()) + Current()
      ensures old(idx) <= idx && (valid ==> old(idx) < idx)
    {
      valid := false;
      while idx < data.Length
        invariant !valid && old(idx) <= idx <= data.Length
        invariant Items(data[..], idx) == Items(data[..], old(idx))
      {
        key := data[idx].key;
        val := data[idx].val;
        idx := idx + 1;
        if !key.KFree? && !val.VFree? && !val.VDelt? {
          valid := true;
          return;
        }
      }
    }
  }

  /** The loop of clear. */
  method FreeSlots<K, V>(data: array<Entry<K, V>>)
    modifies data
    ensures forall i :: 0 <= i < data.Length ==> data[i] == Entry(KFree, VFree, false)
  {
    var i := 0;
    while i < data.Length
      invariant 0 <= i <= data.Length
      invariant forall l :: 0 <= l < i ==> data[l] == Entry(KFree, VFree, false)
    {
      data[i] := Entry(KFree, VFree, false);
      i := i + 1;
    }
  }

  class HashTable<K(!new, ==), V> {
    var vec: HashVector<K, V>
    const sizes: seq<nat>
    const hashfn: K -> nat
    var loadf: real
    var growLimit: int

    /** The map that the table stands for. */
    ghost var Contents: map<K, V>

    ghost predicate Valid()
      reads this, vec, vec.data
    {
      && GoodTable(sizes)
      && vec.pidx < |sizes| && vec.entries == sizes[vec.pidx] == vec.data.Length
      && WellFormed(vec.data[..], hashfn)
      && Denotes(vec.data[..], Contents)
      && vec.nelems == |Contents| == Live(vec.data[..])
      && 0.4 <= loadf <= 0.9
      // The reserve: the budget never covers all FREE slots.
      && 0 <= growLimit && growLimit + NonFree(vec.data[..]) < vec.entries
    }

    /** The constructor for any good table of sizes; the source passes PRIMES. */
    constructor (sizes: seq<nat>, size: nat, ldf: real, hash: K -> nat)
      requires GoodTable(sizes) && size <= sizes[|sizes| - 1]
      ensures Valid() && fresh(vec) && fresh(vec.data)
      ensures Contents == map[] && hashfn == hash && this.sizes == sizes
      ensures loadf == if 0.4 <= ldf <= 0.9 then ldf else 0.85
      ensures vec.entries >= size && growLimit == LimitOf(vec.entries, loadf) && Budgeted()
    {
      var l := if 0.4 <= ldf <= 0.9 then ldf else 0.85;
      var limit, pidx := FindHsize(sizes, size, l);
      var v := new HashVector<K, V>(sizes, pidx);
      loadf := l;
      this.sizes := sizes;
      hashfn := hash;
      vec := v;
      growLimit := limit;
      Contents := map[];
      new;
      AllFree(vec.data[..], hashfn);
      LimitBelowSize(vec.entries, loadf);
    }

    /** load_factor: values outside [0.4, 0.9] are ignored. */
    method SetLoadFactor(ldf: real) returns (previous: real)
      requires Valid()
      modifies this`loadf
      ensures Valid() && Contents == old(Contents)
      ensures previous == old(loadf) && loadf == if 0.4 <= ldf <= 0.9 then ldf else previous
    {
      previous := loadf;
      if 0.4 <= ldf <= 0.9 {
        loadf := ldf;
      }
    }

    method Size() returns (n: nat)
      requires Valid()
      ensures n == |Contents|
    {
      n := vec.nelems;
    }

    /** _Probe: a probe for insertion stops at the first FREE slot, a probe for lookup gives up
        there. It comes back with nothing when it returns to its start. */
    method Probe(key: K, put: bool) returns (vidx: Option<nat>, found: bool)
      requires GoodSize(vec.data.Length) && vec.entries == vec.data.Length
      ensures Probed(vec.data[..], hashfn(key), key, put, vidx, found)
    {
      var code := hashfn(key);
      var entries := vec.entries;
      ghost var d := vec.data[..];
      var idx := code % entries;
      ghost var j: nat := 0;
      var k := vec.data[idx].key;
      if k.KFree? {
        vidx, found := if put then Some(idx) else None, put;
        assert ProbedUpTo(d, code, key, put, vidx, found, 0);
        return;
      } else if k == Key(key) {
        vidx, found := Some(idx), false;
        assert ProbedUpTo(d, code, key, put, vidx, found, 0);
        return;
      }
      var initial, sec := idx, SecondaryHash(code);
      while true
        invariant j < entries && idx == Pos(entries, code, j)
        invariant Passed(d, code, key, j + 1)
        decreases entries - j
      {
        idx := idx + sec;
        if idx >= entries {
          idx := idx - entries;
        }
        j := j + 1;
        BackAtStart(entries, code, j);
        if idx == initial {
          vidx, found := None, false;
          assert ProbedUpTo(d, code, key, put, vidx, found, j);
          return;
        }
        k := vec.data[idx].key;
        if k.KFree? {
          vidx, found := if put then Some(idx) else None, put;
          assert ProbedUpTo(d, code, key, put, vidx, found, j);
          return;
        } else if k == Key(key) {
          vidx, found := Some(idx), false;
          assert ProbedUpTo(d, code, key, put, vidx, found, j);
          return;
        }
      }
    }

    /** _Find */
    method Find(key: K) returns (r: Option<V>)
      requires Valid()
      ensures r == if key in Contents then Some(Contents[key]) else None
    {
      var idx, found := Probe(key, false);
      ProbeAnswers(vec.data[..], hashfn, Contents, key, false, idx, found);
      if idx.None? {
        return None;
      }
      r := Some(vec.data[idx.value].val.v);
    }

    /** contains */
    method Has(key: K) returns (r: bool)
      requires Valid()
      ensures r <==> key in Contents
    {
      var v := Find(key);
      r := v.Some?;
    }

    /** _Gprobe: the first FREE slot for a key. The source has no other exit from this loop; it
        ends because some slot is FREE. */
    method GProbe(key: K, vp: HashVector<K, V>) returns (vidx: nat)
      requires GoodSize(vp.data.Length) && vp.entries == vp.data.Length
      requires NonFree(vp.data[..]) < vp.data.Length
      ensures vidx < vp.data.Length && vp.data[vidx].key.KFree? && OnPath(vp.data[..], hashfn(key), vidx)
    {
      var code := hashfn(key);
      var entries := vp.entries;
      var idx := code % entries;
      ghost var d := vp.data[..];
      ghost var slot := SomeFree(d);
      ghost var last := Coverage(entries, code, slot);
      ghost var j: nat := 0;
      assert PathTo(d, code, idx, 0);
      if vp.data[idx].key.KFree? {
        return idx;
      }
      var sec := SecondaryHash(code);
      while true
        invariant j < last < entries
        invariant PathTo(d, code, idx, j) && !d[idx].key.KFree?
        decreases last - j
      {
        idx := idx + sec;
        if idx >= entries {
          idx := idx - entries;
        }
        j := j + 1;
        assert PathTo(d, code, idx, j);
        if vp.data[idx].key.KFree? {
          return idx;
        }
      }
    }

    /** What a rehash keeps true of its new array after n slots of the old one. */
    ghost predicate Copying(d: seq<Entry<K, V>>, m: map<K, V>, nd: seq<Entry<K, V>>, n: nat)
    {
      && WellFormed(d, hashfn) && Denotes(d, m) && n <= |d|
      && WellFormed(nd, hashfn) && Denotes(nd, Copied(d, n))
      && NonFree(nd) == Live(nd) == |Copied(d, n)| <= n
    }

    /** The body of the loop of _Rehash. */
    method MoveSlot(prev: HashVector<K, V>, np: HashVector<K, V>, i: nat, ghost d: seq<Entry<K, V>>,
                    ghost m: map<K, V>) returns (moved: nat)
      requires prev.data != np.data && i < |d| && prev.data[..] == Marked(d, i)
      requires Copying(d, m, np.data[..], i)
      requires np.entries == np.data.Length > |d|
      modifies prev.data, np.data
      ensures prev.data[..] == Marked(d, i + 1)
      ensures Copying(d, m, np.data[..], i + 1)
      ensures |Copied(d, i + 1)| == |Copied(d, i)| + moved
    {
      assert prev.data[..][i] == d[i];
      var e := prev.data[i];
      prev.data[i] := e.(x := true);
      assert prev.data[..] == Marked(d, i + 1);
      moved := 0;
      if !e.key.KFree? && !e.key.KDelt? && !e.val.VFree? && !e.val.VDelt? {
        var nidx := GProbe(e.key.k, np);
        ghost var nd := np.data[..];
        CopyOne(d, hashfn, m, i, nd, nidx);
        np.data[nidx] := Entry(e.key, e.val, false);
        assert np.data[..] == nd[nidx := Entry(e.key, e.val, false)];
        moved := 1;
      }
    }

    /** The loop of _Rehash. */
    method MoveSlots(prev: HashVector<K, V>, np: HashVector<K, V>, ghost m: map<K, V>) returns (nelem: nat)
      requires prev.data != np.data && np.entries == np.data.Length > prev.data.Length
      requires Copying(prev.data[..], m, np.data[..], 0)
      modifies prev.data, np.data
      ensures prev.data[..] == Marked(old(prev.data[..]), prev.data.Length)
      ensures WellFormed(np.data[..], hashfn) && Denotes(np.data[..], m)
      ensures nelem == NonFree(np.data[..]) == Live(np.data[..]) == |m| <= prev.data.Length
    {
      ghost var d := prev.data[..];
      assert Marked(d, 0) == d;
      var i := 0;
      nelem := 0;
      while i < prev.data.Length
        invariant 0 <= i <= prev.data.Length
        invariant prev.data[..] == Marked(d, i)
        invariant Copying(d, m, np.data[..], i) && nelem == |Copied(d, i)|
      {
        var moved := MoveSlot(prev, np, i, d, m);
        nelem := nelem + moved;
        i := i + 1;
      }
      CopiedAll(d, hashfn, m);
    }

    /** The new array of _Rehash, filled from the old one. */
    method Refill(prev: HashVector<K, V>, n: nat, ghost m: map<K, V>) returns (np: HashVector<K, V>)
      requires prev.pidx + 1 < |sizes| && n == sizes[prev.pidx + 1] && GoodSize(n) && n > prev.data.Length
      requires WellFormed(prev.data[..], hashfn) && Denotes(prev.data[..], m)
      modifies prev.data
      ensures fresh(np) && fresh(np.data) && np.pidx == prev.pidx + 1
      ensures np.entries == np.data.Length == n
      ensures prev.data[..] == Marked(old(prev.data[..]), prev.data.Length)
      ensures WellFormed(np.data[..], hashfn) && Denotes(np.data[..], m)
      ensures np.nelems == NonFree(np.data[..]) == Live(np.data[..]) == |m|
    {
      np := new HashVector<K, V>(sizes, prev.pidx + 1);
      AllFree(np.data[..], hashfn);
      assert Copying(prev.data[..], m, np.data[..], 0);
      var nelem := MoveSlots(prev, np, m);
      np.nelems := nelem;
    }

    /** It has room for more, and a budget. */
    method Grown(prev: HashVector<K, V>, ghost m: map<K, V>) returns (np: HashVector<K, V>)
      requires GoodTable(sizes) && prev.pidx + 1 < |sizes| && prev.data.Length == sizes[prev.pidx] > |m|
      requires 0.4 <= loadf <= 0.9
      requires WellFormed(prev.data[..], hashfn) && Denotes(prev.data[..], m)
      modifies prev.data
      ensures fresh(np) && fresh(np.data) && np.pidx == prev.pidx + 1
      ensures np.entries == np.data.Length == sizes[np.pidx]
      ensures prev.data[..] == Marked(old(prev.data[..]), prev.data.Length)
      ensures WellFormed(np.data[..], hashfn) && Denotes(np.data[..], m)
      ensures np.nelems == NonFree(np.data[..]) == Live(np.data[..]) == |m| < LimitOf(np.entries, loadf)
    {
      NextSizeHasRoom(sizes, prev.pidx, loadf, |m|);
      np := Refill(prev, sizes[prev.pidx + 1], m);
    }

    /** The end of _Rehash: a new budget and the new array. */
    method Install(np: HashVector<K, V>)
      requires GoodTable(sizes) && np.pidx < |sizes| && np.entries == sizes[np.pidx] == np.data.Length
      requires 0.4 <= loadf <= 0.9 && np.nelems < LimitOf(np.entries, loadf)
      requires WellFormed(np.data[..], hashfn) && Denotes(np.data[..], Contents)
      requires np.nelems == NonFree(np.data[..]) == Live(np.data[..]) == |Contents|
      modifies this`vec, this`growLimit
      ensures Valid() && vec == np && growLimit == LimitOf(np.entries, loadf) - np.nelems > 0
    {
      LimitBelowSize(np.entries, loadf);
      growLimit := LimitOf(np.entries, loadf) - np.nelems;
      vec := np;
    }

    /** _Rehash behind its test of the budget. */
    method Migrate()
      requires Valid() && vec.pidx + 1 < |sizes|
      modifies this`vec, this`growLimit, vec.data
      ensures Valid() && fresh(vec) && fresh(vec.data) && vec.pidx == old(vec.pidx) + 1
      ensures NonFree(vec.data[..]) == |Contents|
      ensures growLimit == LimitOf(vec.entries, loadf) - |Contents| > 0
      ensures old(vec).data[..] == Marked(old(vec.data[..]), old(vec).data.Length)
    {
      var prev := vec;
      var np := Grown(prev, Contents);
      Install(np);
    }

    /** _Rehash: unless the budget has grown in the meantime, move to the next table size. The
        values of the old array get their XBIT, and readers that still hold that array see the
        old pairs. */
    method Rehash()
      requires Valid() && vec.pidx + 1 < |sizes|
      modifies this`vec, this`growLimit, vec.data
      ensures Valid()
      ensures vec != old(vec) ==> fresh(vec) && fresh(vec.data)
      ensures old(growLimit) > 0 ==>
                vec == old(vec) && growLimit == old(growLimit) && vec.data[..] == old(vec.data[..])
      ensures old(growLimit) <= 0 ==>
                && vec.pidx == old(vec.pidx) + 1
                && NonFree(vec.data[..]) == |Contents|
                && growLimit == LimitOf(vec.entries, loadf) - |Contents| > 0
                && old(vec).data[..] == Marked(old(vec.data[..]), old(vec).data.Length)
    {
      if !(growLimit <= 0) {
        return;
      }
      Migrate();
    }

    /** _Decr_limit */
    method DecrLimit() returns (ok: bool)
      requires Valid()
      modifies this`growLimit
      ensures Valid() && (ok <==> old(growLimit) > 0)
      ensures growLimit == old(growLimit) - if ok then 1 else 0
    {
      if growLimit <= 0 {
        return false;
      }
      growLimit := growLimit - 1;
      return true;
    }

    /** The exchange of a value in _Upsert. */
    method StoreValue(idx: nat, key: K, v: V)
      requires Valid() && key in Contents
      requires idx < vec.data.Length && vec.data[idx] == Entry(Key(key), Val(Contents[key]), false)
      modifies vec.data, this`Contents
      ensures Valid() && Contents == old(Contents)[key := v]
      ensures NonFree(vec.data[..]) == old(NonFree(vec.data[..]))
    {
      ghost var d := vec.data[..];
      Replaced(d, hashfn, Contents, idx, v);
      CountUpdate(d, idx, Entry(Key(key), Val(v), false));
      vec.data[idx] := Entry(Key(key), Val(v), false);
      assert vec.data[..] == d[idx := d[idx].(val := Val(v))];
      assert Contents[key := v].Keys == Contents.Keys;
      Contents := Contents[key := v];
    }

    /** The double-width exchange of a FREE pair in _Upsert. */
    method StorePair(idx: nat, key: K, v: V)
      requires Valid() && growLimit + NonFree(vec.data[..]) + 1 < vec.entries
      requires idx < vec.data.Length && vec.data[idx].key.KFree?
      requires !HasKey(vec.data[..], key) && OnPath(vec.data[..], hashfn(key), idx)
      modifies vec.data, vec`nelems, this`Contents
      ensures Valid() && Contents == old(Contents)[key := v]
      ensures NonFree(vec.data[..]) == old(NonFree(vec.data[..])) + 1
    {
      ghost var d := vec.data[..];
      Filled(d, hashfn, Contents, idx, key, v);
      CountUpdate(d, idx, Entry(Key(key), Val(v), false));
      vec.data[idx] := Entry(Key(key), Val(v), false);
      vec.nelems := vec.nelems + 1;
      assert vec.data[..] == d[idx := Entry(Key(key), Val(v), false)];
      assert Contents[key := v].Keys == Contents.Keys + {key};
      Contents := Contents[key := v];
    }

    /** One round of the loop of _Upsert, up to the rehash. A value never carries an XBIT here, as no
        rehash is under way. */
    method TryUpsert(key: K, call0: V, call1: V -> V) returns (done: bool, found: bool)
      requires Valid()
      modifies this`growLimit, this`Contents, vec.data, vec`nelems
      ensures Valid() && (found <==> key !in old(Contents))
      ensures done <==> !found || old(growLimit) > 0
      ensures if done then Contents == old(Contents)[key := if found then call0 else call1(old(Contents)[key])]
              else Contents == old(Contents)
      ensures growLimit == old(growLimit) - if done && found then 1 else 0
      ensures NonFree(vec.data[..]) == old(NonFree(vec.data[..])) + if done && found then 1 else 0
    {
      var idx, isNew := Probe(key, true);
      ProbeAnswers(vec.data[..], hashfn, Contents, key, true, idx, isNew);
      if !isNew {
        var e := vec.data[idx.value];
        if e.val.Val? && !e.x {
          StoreValue(idx.value, key, call1(e.val.v));
          return true, isNew;
        }
      } else {
        var ok := DecrLimit();
        if ok {
          StorePair(idx.value, key, call0);
          return true, isNew;
        }
      }
      return false, isNew;
    }

    /** The slots in use and the budget together make the limit of the load factor. */
    ghost predicate Budgeted()
      reads this, vec, vec.data
    {
      growLimit + NonFree(vec.data[..]) == LimitOf(vec.entries, loadf)
    }

    /** What an upsert does to size and budget: a new key takes one off the budget, after a move to the
        next size if there was none. So the budget tells how many new keys there will be before the
        next move. The slots in use are counted along. */
    twostate predicate Accounted(found: bool)
      reads this, vec, vec.data
    {
      && loadf == old(loadf)
      && vec.pidx == old(vec.pidx) + (if found && old(growLimit) <= 0 then 1 else 0)
      && growLimit == (if !found then old(growLimit)
                       else if old(growLimit) > 0 then old(growLimit) - 1
                       else LimitOf(vec.entries, loadf) - |old(Contents)| - 1)
      && NonFree(vec.data[..]) == (if !found then old(NonFree(vec.data[..]))
                                   else if old(growLimit) > 0 then old(NonFree(vec.data[..])) + 1
                                   else |old(Contents)| + 1)
    }

    /** A table is budgeted from the start and after a move, until its load factor is changed or it is
        cleared. Then the share of the slots in use, tombstones included, stays within the load factor,
        and the next new key moves the table exactly if one more slot in use would exceed it. */
    lemma WithinLoadFactor()
      requires 0.4 <= loadf && growLimit >= 0 && Budgeted()
      ensures NonFree(vec.data[..]) as real <= vec.entries as real * loadf
      ensures growLimit == 0 <==> NonFree(vec.data[..]) as real + 1.0 > vec.entries as real * loadf
    {
      LimitShare(vec.entries, loadf, growLimit, NonFree(vec.data[..]));
    }

    /** _Upsert: for a new key store call0, for a present one what call1 makes of its value. The
        answer is whether the key is new. A rehash leaves a positive budget, so that the second
        round returns. */
    method Upsert(key: K, call0: V, call1: V -> V) returns (found: bool)
      requires Valid()
      requires key in Contents || growLimit > 0 || vec.pidx + 1 < |sizes|
      modifies this, vec, vec.data
      ensures Valid()
      ensures vec != old(vec) ==> fresh(vec) && fresh(vec.data)
      ensures found <==> key !in old(Contents)
      ensures Contents == old(Contents)[key := if found then call0 else call1(old(Contents)[key])]
      ensures Accounted(found)
    {
      while true
        invariant Valid() && Contents == old(Contents) && loadf == old(loadf)
        invariant vec == old(vec) ==> growLimit == old(growLimit) && NonFree(vec.data[..]) == old(NonFree(vec.data[..]))
        invariant vec != old(vec) ==>
                    && fresh(vec) && fresh(vec.data) && vec.pidx == old(vec.pidx) + 1
                    && growLimit == LimitOf(vec.entries, loadf) - |Contents| > 0
                    && NonFree(vec.data[..]) == |Contents|
                    && key !in Contents && old(growLimit) <= 0
        decreases growLimit <= 0
      {
        var done, isNew := TryUpsert(key, call0, call1);
        if done {
          return isNew;
        }
        Rehash();
      }
    }

    /** insert: the inserter stores the same value in both cases. */
    method Insert(key: K, val: V) returns (added: bool)
      requires Valid()
      requires key in Contents || growLimit > 0 || vec.pidx + 1 < |sizes|
      modifies this, vec, vec.data
      ensures Valid()
      ensures vec != old(vec) ==> fresh(vec) && fresh(vec.data)
      ensures added <==> key !in old(Contents)
      ensures Contents == old(Contents)[key := val] && Accounted(added)
    {
      added := Upsert(key, val, _ => val);
    }

    /** New keys, as many as the budget allows, fill one slot each and leave the table where it is, which
        so keeps within its load factor. */
    method InsertNew(keys: seq<K>, val: V)
      requires Valid() && Budgeted() && |keys| <= growLimit
      requires Distinct(keys) && forall k :: k in keys ==> k !in Contents
      modifies this, vec, vec.data
      ensures Valid() && Budgeted() && loadf == old(loadf) && vec.pidx == old(vec.pidx)
      ensures NonFree(vec.data[..]) == old(NonFree(vec.data[..])) + |keys|
    {
      var i := 0;
      while i < |keys|
        invariant 0 <= i <= |keys| && Valid() && Budgeted() && loadf == old(loadf) && vec.pidx == old(vec.pidx)
        invariant vec != old(vec) ==> fresh(vec) && fresh(vec.data)
        invariant growLimit == old(growLimit) - i
        invariant NonFree(vec.data[..]) == old(NonFree(vec.data[..])) + i
        invariant forall j :: i <= j < |keys| ==> keys[j] !in Contents
      {
        var _ := Insert(keys[i], val);
        i := i + 1;
      }
    }

    /** update: the function is applied to the default value or to the current one. */
    method Update(key: K, f: V -> V, default: V) returns (added: bool)
      requires Valid()
      requires key in Contents || growLimit > 0 || vec.pidx + 1 < |sizes|
      modifies this, vec, vec.data
      ensures Valid()
      ensures vec != old(vec) ==> fresh(vec) && fresh(vec.data)
      ensures added <==> key !in old(Contents)
      ensures Contents == old(Contents)[key := f(if key in old(Contents) then old(Contents)[key] else default)]
      ensures Accounted(added)
    {
      added := Upsert(key, f(default), f);
    }

    /** The exchange of a value and a key for DELT in _Erase. */
    method StoreTombstone(idx: nat, key: K)
      requires Valid() && key in Contents
      requires idx < vec.data.Length && vec.data[idx] == Entry(Key(key), Val(Contents[key]), false)
      modifies vec.data, vec`nelems, this`Contents
      ensures Valid() && Contents == old(Contents) - {key}
      ensures NonFree(vec.data[..]) == old(NonFree(vec.data[..]))
    {
      ghost var d := vec.data[..];
      Deleted(d, hashfn, Contents, idx);
      CountUpdate(d, idx, Entry(KDelt, VDelt, false));
      vec.nelems := vec.nelems - 1;
      vec.data[idx] := Entry(KDelt, VDelt, false);
      assert vec.data[..] == d[idx := Entry(KDelt, VDelt, false)];
      assert (Contents - {key}).Keys == Contents.Keys - {key};
      Contents := Contents - {key};
    }

    /** _Erase, as used by erase and remove: the pair becomes a tombstone, which still counts
        against the free slots. */
    method Remove(key: K) returns (erased: bool, out: Option<V>)
      requires Valid()
      modifies vec.data, vec`nelems, this`Contents
      ensures Valid() && Contents == old(Contents) - {key}
      ensures erased <==> key in old(Contents)
      ensures out == if erased then Some(old(Contents)[key]) else None
      ensures NonFree(vec.data[..]) == old(NonFree(vec.data[..]))
    {
      var idx, found := Probe(key, false);
      ProbeAnswers(vec.data[..], hashfn, Contents, key, false, idx, found);
      if idx.None? {
        return false, None;
      }
      var e := vec.data[idx.value];
      StoreTombstone(idx.value, key);
      return true, Some(e.val.v);
    }

    /** clear, but for its budget */
    method Wipe(limit: nat)
      requires Valid() && limit <= |Contents|
      modifies this`growLimit, this`Contents, vec.data, vec`nelems
      ensures Valid() && Contents == map[] && NonFree(vec.data[..]) == 0 && growLimit == limit
    {
      growLimit := 0;
      FreeSlots(vec.data);
      AllFree(vec.data[..], hashfn);
      growLimit := limit;
      vec.nelems := 0;
      Contents := map[];
    }

    /** The budget of clear, and when there is one. */
    method ClearLimit(n: nat) returns (limit: nat)
      requires 0.4 <= loadf <= 0.9
      ensures limit == LimitOf(n, loadf) <= n && (limit > 0 <==> 1.0 <= n as real * loadf)
    {
      LimitPositive(n, loadf);
      LimitAtMost(n, loadf);
      limit := LimitOf(n, loadf);
    }

    /** clear: the new budget is computed from the number of pairs that were stored, not from the
        number of slots. It is positive if and only if these, times the load factor, make one. */
    method Clear()
      requires Valid()
      modifies this`growLimit, this`Contents, vec.data, vec`nelems
      ensures Valid() && Contents == map[]
      ensures NonFree(vec.data[..]) == 0 && growLimit == LimitOf(old(|Contents|), loadf)
      ensures growLimit > 0 <==> 1.0 <= old(|Contents|) as real * loadf
    {
      var limit := ClearLimit(vec.nelems);
      Wipe(limit);
    }

    /** An insertion into a table that has just been cleared moves to the next size if and only if the
        pairs stored before, times the load factor, make less than one. */
    method ClearThenInsert(key: K, val: V)
      requires Valid() && vec.pidx + 1 < |sizes|
      modifies this, vec, vec.data
      ensures Valid() && Contents == map[key := val]
      ensures vec != old(vec) ==> fresh(vec) && fresh(vec.data)
      ensures vec.pidx == old(vec.pidx) + if 1.0 <= old(|Contents|) as real * old(loadf) then 0 else 1
      ensures old(|Contents|) <= 1 ==> vec.pidx == old(vec.pidx) + 1
    {
      LimitPositive(|Contents|, loadf);
      Clear();
      var _ := Insert(key, val);
    }

    /** So n rounds of one insertion and one clear, in a table that has just been cleared of at most one
        pair, move it n sizes up. */
    method InsertAndClear(n: nat, key: K, val: V)
      requires Valid() && Contents == map[] && growLimit == 0 && vec.pidx + n < |sizes|
      modifies this, vec, vec.data
      ensures Valid() && Contents == map[] && growLimit == 0 && vec.pidx == old(vec.pidx) + n
    {
      LimitPositive(1, loadf);
      var i := 0;
      while i < n
        invariant 0 <= i <= n && Valid() && Contents == map[] && growLimit == 0 && loadf == old(loadf)
        invariant vec.pidx == old(vec.pidx) + i
        invariant vec != old(vec) ==> fresh(vec) && fresh(vec.data)
      {
        var _ := Insert(key, val);
        assert |Contents| == 1;
        Clear();
        i := i + 1;
      }
    }

    /** Tombstones are not used again. Up to growLimit + 1 rounds of one insertion and one removal, in a
        table without pairs, move it to the next size if and only if there are as many as that,
        although it never holds more than one pair. */
    method InsertAndRemove(n: nat, key: K, val: V)
      requires Valid() && Contents == map[] && n <= growLimit + 1 && (n == growLimit + 1 ==> vec.pidx + 1 < |sizes|)
      modifies this, vec, vec.data
      ensures Valid() && Contents == map[]
      ensures vec.pidx == old(vec.pidx) + if n == old(growLimit) + 1 then 1 else 0
    {
      var i := 0;
      while i < n
        invariant 0 <= i <= n && Valid() && Contents == map[]
        invariant i <= old(growLimit) ==> vec.pidx == old(vec.pidx) && growLimit == old(growLimit) - i
        invariant i > old(growLimit) ==> vec.pidx == old(vec.pidx) + 1
        invariant vec != old(vec) ==> fresh(vec) && fresh(vec.data)
      {
        var _ := Insert(key, val);
        assert Contents == map[key := val];
        var _, _ := Remove(key);
        i := i + 1;
      }
    }

    /** begin */
    method Begin() returns (it: HashIter<K, V>)
      requires Valid()
      ensures fresh(it) && it.data == vec.data && it.Valid()
      ensures it.Seen() == it.Current() && (it.valid || it.idx == it.data.Length)
    {
      assert forall i :: 0 <= i < vec.data.Length ==> EntryOk(vec.data[..][i]);
      it := new HashIter(vec.data);
      it.Adv();
    }

    /** A walk from begin to end yields each pair of the map exactly once. */
    method Pairs() returns (items: seq<(K, V)>)
      requires Valid()
      ensures forall p :: p in items ==> p.0 in Contents && Contents[p.0] == p.1
      ensures KeysOf(items) == Contents.Keys && |items| == |Contents|
    {
      var it := Begin();
      items := Collect(it);
      AllItems(vec.data[..], hashfn, Contents);
    }
  }

  /** From an iterator at the first pair to the end. */
  method Collect<K(!new), V>(it: HashIter<K, V>) returns (items: seq<(K, V)>)
    requires it.Valid() && it.Seen() == it.Current() && (it.valid || it.idx == it.data.Length)
    modifies it
    ensures items == Items(it.data[..], it.data.Length)
  {
    items := [];
    while it.valid
      invariant it.Valid() && (it.valid || it.idx == it.data.Length)
      invariant it.Seen() == items + it.Current()
      decreases it.data.Length - it.idx, it.valid
    {
      items := items + [(it.key.k, it.val.v)];
      it.Adv();
    }
  }

  /** A table as xrcu makes it, with the sizes of src/hash_table.cpp. */
  method Make<K(!new, ==), V>(size: nat, ldf: real, hash: K -> nat) returns (t: HashTable<K, V>)
    requires size <= PRIMES[|PRIMES| - 1]
    ensures fresh(t) && t.Valid() && t.Contents == map[] && t.sizes == PRIMES && t.vec.entries >= size
  {
    PrimesAreGood();
    t := new HashTable(PRIMES, size, ldf, hash);
  }
}
