/** The skip list of xrcu/skip_list.hpp, used by one thread at a time: deletion marks the links of
    a node from the top level down and then unlinks it in one search. */
module SkipList {
  import opened Common
  import opened SkipLevels

  const MAX_DEPTH: nat := 24

  datatype Unlink = Keep | Assist | Force

  /** The part of a node that never changes. */
  datatype Info<K> = Root(nlvl: nat) | Elem(nlvl: nat, key: K)

  /** Levels for new nodes. The level that a draw asks for, the level that rand_lvl grants, and the
      high-water mark that it leaves. */
  function Asked(zeros: nat): nat {
    zeros * 2 / 3
  }

  function Granted(zeros: nat, hiWater: nat): nat {
    if Asked(zeros) == 0 then 1 else if Asked(zeros) <= hiWater then Asked(zeros) else hiWater
  }

  function Bumped(zeros: nat, hiWater: nat): nat {
    if Asked(zeros) <= hiWater || hiWater == MAX_DEPTH then hiWater else hiWater + 1
  }

  /** Level l is granted for the counts of zeros from 3l/2 up to 3(l+1)/2, all smaller ones going to
      level 1 and all larger ones to the high-water mark, which rises when the level above it is
      asked for. */
  lemma GrantedIff(zeros: nat, hiWater: nat, l: nat)
    requires 1 <= hiWater <= MAX_DEPTH
    ensures Granted(zeros, hiWater) == l <==>
            1 <= l <= hiWater && (l == 1 || 3 * l <= 2 * zeros) && (l == hiWater || 2 * zeros < 3 * l + 3)
    ensures Bumped(zeros, hiWater) ==
            if 3 * hiWater + 3 <= 2 * zeros && hiWater < MAX_DEPTH then hiWater + 1 else hiWater
  {
  }

  ghost predicate Elems<K>(t: Table, nodes: map<nat, Info<K>>) {
    forall a :: a in t ==> a in nodes && nodes[a].Elem?
  }

  ghost function KeysOf<K>(t: Table, nodes: map<nat, Info<K>>): set<K>
    requires Elems(t, nodes)
  {
    set a | a in t :: nodes[a].key
  }

  lemma KeysAdd<K>(t: Table, nodes: map<nat, Info<K>>, nv: nat, s: Spot, n: nat, key: K)
    requires Elems(t, nodes) && nv !in nodes
    ensures Elems(t[nv := s], nodes[nv := Elem(n, key)])
    ensures KeysOf(t[nv := s], nodes[nv := Elem(n, key)]) == KeysOf(t, nodes) + {key}
  {
    var t', nodes' := t[nv := s], nodes[nv := Elem(n, key)];
    forall k | k in KeysOf(t, nodes) ensures k in KeysOf(t', nodes') {
      var a :| a in t && nodes[a].key == k;
      assert a in t' && nodes'[a].key == k;
    }
    assert nv in t' && nodes'[nv].key == key;
  }

  lemma KeysDrop<K>(t: Table, nodes: map<nat, Info<K>>, x: nat)
    requires Elems(t, nodes) && x in t
    requires forall a, b :: a in t && b in t && nodes[a].key == nodes[b].key ==> a == b
    ensures Elems(t - {x}, nodes)
    ensures KeysOf(t - {x}, nodes) == KeysOf(t, nodes) - {nodes[x].key}
  {
    forall k | k in KeysOf(t, nodes) && k != nodes[x].key ensures k in KeysOf(t - {x}, nodes) {
      var a :| a in t && nodes[a].key == k;
      assert a in t - {x};
    }
  }

  // ----- How far the high-water mark can rise -----

  /** The counts of trailing zeros that 32-bit random numbers other than 0 can have. */
  predicate Drawn(draws: seq<nat>) {
    forall i :: 0 <= i < |draws| ==> draws[i] <= 31
  }

  function HiWaterAfter(draws: seq<nat>): nat {
    if draws == [] then 1 else Bumped(draws[|draws| - 1], HiWaterAfter(draws[..|draws| - 1]))
  }

  lemma {:induction false} HiWaterBound(draws: seq<nat>)
    requires Drawn(draws)
    ensures 1 <= HiWaterAfter(draws) <= 20
  {
    if draws != [] {
      HiWaterBound(draws[..|draws| - 1]);
    }
  }

  lemma HiWaterStep(draws: seq<nat>, i: nat)
    requires Drawn(draws) && i < |draws|
    ensures HiWaterAfter(draws[..i + 1]) == Bumped(draws[i], HiWaterAfter(draws[..i])) <= 20
  {
    assert draws[..i + 1][..i] == draws[..i];
    HiWaterBound(draws[..i + 1]);
  }

  /** The highest draw, k times. */
  function Climb(k: nat): seq<nat> {
    if k == 0 then [] else Climb(k - 1) + [31]
  }

  lemma {:induction false} ClimbRises(k: nat)
    requires k <= 19
    ensures Drawn(Climb(k)) && HiWaterAfter(Climb(k)) == k + 1
  {
    if k > 0 {
      ClimbRises(k - 1);
      assert Climb(k)[..|Climb(k)| - 1] == Climb(k - 1);
    }
  }

  /** The levels of the root: _Init gives it one more than the depth, clear does not. */
  function InitLevels(depth: nat): nat {
    (if depth > MAX_DEPTH then MAX_DEPTH else depth) + 1
  }

  function ClearLevels(depth: nat): nat {
    if depth > MAX_DEPTH then MAX_DEPTH else depth
  }

  /** Searches start at the high-water mark and index the root there, but the mark does not know
      the depth. Whatever is drawn, it stays within a root of n levels exactly if n >= 20. */
  lemma RootSuffices(n: nat)
    ensures (forall draws | Drawn(draws) :: HiWaterAfter(draws) <= n) <==> 20 <= n
  {
    forall draws | Drawn(draws) && 20 <= n ensures HiWaterAfter(draws) <= n {
      HiWaterBound(draws);
    }
    ClimbRises(19);
  }

  /** So a list is safe for all draws exactly if its depth is at least 19, and a list that has
      been cleared exactly if it is at least 20. */
  lemma DepthSuffices(depth: nat)
    ensures (forall draws | Drawn(draws) :: HiWaterAfter(draws) <= InitLevels(depth)) <==> 19 <= depth
    ensures (forall draws | Drawn(draws) :: HiWaterAfter(draws) <= ClearLevels(depth)) <==> 20 <= depth
  {
    RootSuffices(InitLevels(depth));
    RootSuffices(ClearLevels(depth));
  }

  /** The comparison cmpfn(a, b) is rank(a) < rank(b): keys of equal rank are equivalent. */
  class SkipList<K(!new)> {
    const rank: K -> real
    const maxDepth: nat
    var head: nat
    /** Memory: nodes by address, and the words of their `next` arrays by address and level. */
    var nodes: map<nat, Info<K>>
    var links: Links
    /** The word before the root's `next` array: twice the number of elements. */
    var length: int
    var hiWater: nat
    var free: nat
    /** The nodes that are in the list. */
    ghost var linked: Table

    ghost predicate NodesOk()
      reads this
    {
      && TableOk(linked, head)
      && head in nodes && nodes[head].Root?
      && (forall a :: a in linked ==>
            && a in nodes && nodes[a].Elem? && linked[a] == Spot(rank(nodes[a].key), nodes[a].nlvl)
            && 1 <= nodes[a].nlvl <= hiWater)
      && 1 <= hiWater <= MAX_DEPTH && hiWater <= nodes[head].nlvl
      && (forall a :: a in nodes ==> 0 < a < free)
      && (forall p :: p in links ==> p.0 in nodes && p.1 < nodes[p.0].nlvl)
    }

    /** Every level is a right chain, and x is the one node that is marked, at all its levels. */
    ghost predicate State(x: nat)
      reads this
    {
      NodesOk() && forall l: nat | l < nodes[head].nlvl :: LevelOk(linked, head, links, l, x)
    }

    ghost predicate Valid()
      reads this
    {
      State(0) && length == 2 * |linked|
    }

    ghost function Keys(): set<K>
      requires NodesOk()
      reads this
    {
      KeysOf(linked, nodes)
    }

    /** The list has a key of the given rank. */
    ghost predicate Has(r: real)
      reads this
    {
      HasPlace(linked, r)
    }

    /** Where a search for place r stops at level l: node p comes before it, and q, the next one,
        does not. */
    ghost predicate StopsAt(l: nat, r: real, p: nat, q: nat)
      reads this
    {
      && Reaches(linked, head, p, l) && Before(linked, head, p, r)
      && (p, l) in links && links[(p, l)].to == q
      && (q == 0 || (q in linked && r <= linked[q].r))
    }

    /** The inner loops of _Find_preds: from pr along level lvl up to the place of key, unlinking x
        on the way if the search is a forced one. */
    method WalkLevel(lvl: nat, start: nat, key: K, unlink: Unlink, before: bool, ghost x: nat)
        returns (pr: nat, it: nat, got: bool)
      requires NodesOk() && LevelOk(linked, head, links, lvl, x)
      requires Reaches(linked, head, start, lvl) && Before(linked, head, start, rank(key))
      requires unlink.Force? <==> x != 0
      requires x != 0 ==> x in linked && linked[x].r == rank(key)
      modifies this`links
      ensures Reaches(linked, head, pr, lvl) && Before(linked, head, pr, rank(key))
      ensures x == 0 ==> links == old(links) && StopsAt(lvl, rank(key), pr, it)
      ensures x == 0 && it != 0 && linked[it].r == rank(key) ==> got
      ensures x == 0 && !(it != 0 && linked[it].r == rank(key)) ==> (got ==> before)
      ensures x != 0 ==> got == before
      ensures x != 0 && linked[x].n <= lvl ==> links == old(links)
      ensures x != 0 && lvl < linked[x].n ==>
                && (x, lvl) in old(links) && old(links)[(pr, lvl)].to == x
                && links == old(links)[(pr, lvl) := Link(old(links)[(x, lvl)].to, false)]
    {
      pr, got := start, before;
      it := links[(pr, lvl)].to;
      ghost var rest := linked.Keys;
      while it != 0
        invariant links == old(links)
        invariant Reaches(linked, head, pr, lvl) && Before(linked, head, pr, rank(key))
        invariant it == links[(pr, lvl)].to
        invariant (got ==> before) && (x != 0 ==> got == before)
        invariant forall c :: c in linked && Before(linked, head, pr, linked[c].r) ==> c in rest
        decreases |rest|
      {
        assert IsNext(linked, head, pr, lvl, it);
        assert Reaches(linked, head, it, lvl);
        var next := links[(it, lvl)];
        if next.mark {
          // Only a forced search meets a marked node, and the one behind it is not marked.
          assert IsNext(linked, head, it, lvl, next.to);
          links := links[(pr, lvl) := Link(next.to, false)];
          it := next.to;
          next := if it != 0 then links[(it, lvl)] else Link(0, false);
          assert !next.mark;
        }
        if it == 0 || rank(key) < rank(nodes[it].key) {
          break;
        }
        if !unlink.Force? {
          got := !(rank(nodes[it].key) < rank(key));
          if got {
            break;
          }
        }
        rest := rest - {it};
        pr, it := it, next.to;
      }
    }

    /** What a search without unlinking has found when it has done the levels at lvl and above. */
    ghost predicate Searched(lvl: nat, n: nat, r: real, it: nat, got: bool, preds: seq<nat>, succs: seq<nat>)
      reads this
    {
      && |preds| == |succs| == MAX_DEPTH
      && (got ==> it in linked && linked[it].r == r && lvl < linked[it].n)
      && (!got ==> forall c :: c in linked && linked[c].r == r ==> linked[c].n <= lvl)
      && (forall l: nat :: lvl <= l < n && l < hiWater && l < MAX_DEPTH ==> StopsAt(l, r, preds[l], succs[l]))
    }

    /** A level that ends before the place of the key adds nothing. */
    lemma SearchSkips(lvl: nat, n: nat, r: real, pr: nat, it: nat, got: bool, preds: seq<nat>, succs: seq<nat>)
      requires Searched(lvl + 1, n, r, it, got, preds, succs) && n <= lvl
      requires Before(linked, head, pr, r) && IsNext(linked, head, pr, lvl, 0) && TableOk(linked, head)
      ensures Searched(lvl, n, r, it, got, preds, succs)
    {
      forall c | c in linked && linked[c].r == r && !got ensures linked[c].n <= lvl {
        assert Before(linked, head, pr, linked[c].r);
      }
    }

    /** A level that was walked to the place of the key settles whether the key is there. */
    lemma SearchWalks(lvl: nat, n: nat, r: real, before: nat, was: bool, pr: nat, it: nat, got: bool,
                      preds: seq<nat>, succs: seq<nat>)
      requires Searched(lvl + 1, n, r, before, was, preds, succs) && lvl < MAX_DEPTH
      requires StopsAt(lvl, r, pr, it) && IsNext(linked, head, pr, lvl, it) && TableOk(linked, head)
      requires it != 0 && linked[it].r == r ==> got
      requires !(it != 0 && linked[it].r == r) ==> (got ==> was)
      ensures Searched(lvl, n, r, it, got, preds[lvl := pr], succs[lvl := it])
    {
      forall c | c in linked && linked[c].r == r && lvl < linked[c].n ensures it == c {
        assert Before(linked, head, pr, linked[c].r);
      }
    }

    /** The outer loop of _Find_preds has done the levels at lvl and above and stands at pr. */
    ghost predicate Searching(lvl: nat, n: nat, r: real, x: nat, pr: nat, it: nat, got: bool,
                              preds: seq<nat>, succs: seq<nat>)
      reads this
    {
      && NodesOk() && lvl <= hiWater && |preds| == |succs| == MAX_DEPTH
      && HalfDone(linked, head, links, nodes[head].nlvl, lvl, x)
      && Before(linked, head, pr, r) && (lvl > 0 ==> Reaches(linked, head, pr, lvl - 1))
      && (x == 0 ==> Searched(lvl, n, r, it, got, preds, succs))
      && (x != 0 ==> !got && x in linked && linked[x].r == r)
    }

    /** WalkLevel as a step of a search: level lvl is done afterwards. */
    method LeaveLevel(lvl: nat, start: nat, key: K, unlink: Unlink, before: bool, ghost x: nat)
        returns (pr: nat, it: nat, got: bool)
      requires NodesOk() && lvl < hiWater && HalfDone(linked, head, links, nodes[head].nlvl, lvl + 1, x)
      requires Reaches(linked, head, start, lvl) && Before(linked, head, start, rank(key))
      requires unlink.Force? <==> x != 0
      requires x != 0 ==> x in linked && linked[x].r == rank(key)
      modifies this`links
      ensures NodesOk() && HalfDone(linked, head, links, nodes[head].nlvl, lvl, x)
      ensures Reaches(linked, head, pr, lvl) && Before(linked, head, pr, rank(key))
      ensures x != 0 ==> got == before
      ensures x == 0 ==> links == old(links)
      ensures x == 0 ==> StopsAt(lvl, rank(key), pr, it) && IsNext(linked, head, pr, lvl, it)
      ensures x == 0 && it != 0 && linked[it].r == rank(key) ==> got
      ensures x == 0 && !(it != 0 && linked[it].r == rank(key)) ==> (got ==> before)
    {
      ghost var was, top := links, nodes[head].nlvl;
      assert LevelOk(linked, head, links, lvl, x);
      pr, it, got := WalkLevel(lvl, start, key, unlink, before, x);
      if x != 0 && lvl < linked[x].n {
        HalfDoneNext(linked, head, was, top, lvl, x, pr);
      } else {
        HalfDoneSame(linked, head, links, top, lvl, x);
      }
    }

    /** One round of the outer loop of _Find_preds. */
    method SearchLevel(lvl: nat, n: nat, key: K, unlink: Unlink, ghost x: nat, pr0: nat, it0: nat, got0: bool,
                       preds0: seq<nat>, succs0: seq<nat>)
        returns (pr: nat, it: nat, got: bool, preds: seq<nat>, succs: seq<nat>)
      requires Searching(lvl + 1, n, rank(key), x, pr0, it0, got0, preds0, succs0) && (unlink.Force? <==> x != 0)
      modifies this`links
      ensures Searching(lvl, n, rank(key), x, pr, it, got, preds, succs)
      ensures x == 0 ==> links == old(links)
    {
      pr, it, got, preds, succs := pr0, it0, got0, preds0, succs0;
      ghost var top := nodes[head].nlvl;
      assert LevelOk(linked, head, links, lvl, x);
      var next := links[(pr, lvl)];
      assert IsNext(linked, head, pr, lvl, next.to);
      // The search never stands on a marked node, so it is not started again here.
      assert !next.mark;
      if next.to == 0 && lvl >= n {
        HalfDoneSame(linked, head, links, top, lvl, x);
        if x == 0 {
          SearchSkips(lvl, n, rank(key), pr, it, got, preds, succs);
        }
        return;
      }
      pr, it, got := LeaveLevel(lvl, pr, key, unlink, got, x);
      if x == 0 {
        SearchWalks(lvl, n, rank(key), it0, got0, pr, it, got, preds, succs);
      }
      preds, succs := preds[lvl := pr], succs[lvl := it];
    }

    lemma SearchStarts(n: nat, r: real, x: nat, preds: seq<nat>, succs: seq<nat>)
      requires State(x) && |preds| == |succs| == MAX_DEPTH
      requires x != 0 ==> x in linked && linked[x].r == r
      ensures Searching(hiWater, n, r, x, head, 0, false, preds, succs)
    {
      HalfDoneStart(linked, head, links, nodes[head].nlvl, hiWater, x);
    }

    /** The search has unlinked x, if it is a forced one, from all levels. */
    ghost method Forget(x: nat)
      requires NodesOk() && HalfDone(linked, head, links, nodes[head].nlvl, 0, x)
      modifies this`linked
      ensures State(0) && linked == old(linked) - {x}
    {
      linked := linked - {x};
    }

    /** _Find_preds. A forced search is made for a key whose node x has just been marked. */
    method FindPreds(n: nat, key: K, unlink: Unlink, ghost x: nat)
        returns (found: nat, preds: seq<nat>, succs: seq<nat>)
      requires State(x) && (unlink.Force? <==> x != 0)
      requires x != 0 ==> x in linked && linked[x].r == rank(key)
      modifies this`links, this`linked
      ensures State(0)
      ensures x != 0 ==> linked == old(linked) - {x} && found == 0
      ensures x == 0 ==> linked == old(linked) && links == old(links)
      ensures x == 0 ==> Searched(0, n, rank(key), found, found != 0, preds, succs)
    {
      var got, pr, it, lvl := false, head, 0, hiWater;
      preds, succs := seq(MAX_DEPTH, _ => 0), seq(MAX_DEPTH, _ => 0);
      SearchStarts(n, rank(key), x, preds, succs);
      while lvl > 0
        invariant linked == old(linked) && (x == 0 ==> links == old(links))
        invariant Searching(lvl, n, rank(key), x, pr, it, got, preds, succs)
      {
        lvl := lvl - 1;
        pr, it, got, preds, succs := SearchLevel(lvl, n, key, unlink, x, pr, it, got, preds, succs);
      }
      found := if got then it else 0;
      Forget(x);
    }

    /** find, and with it contains. */
    method Find(key: K) returns (r: Option<K>)
      requires Valid()
      modifies this`links, this`linked
      ensures Valid() && linked == old(linked) && links == old(links)
      ensures r.None? <==> !Has(rank(key))
      ensures r.Some? ==> r.value in Keys() && rank(r.value) == rank(key)
    {
      var it, _, _ := FindPreds(0, key, Keep, 0);
      if it == 0 {
        assert forall c :: c in linked && linked[c].r == rank(key) ==> linked[c].n <= 0;
        return None;
      }
      return Some(nodes[it].key);
    }

    /** rand_lvl, for a random number with the given count of trailing zeros. */
    method RandLvl(zeros: nat) returns (n: nat)
      requires Valid() && Bumped(zeros, hiWater) <= nodes[head].nlvl
      modifies this`hiWater
      ensures Valid() && n == Granted(zeros, old(hiWater)) && hiWater == Bumped(zeros, old(hiWater))
      ensures 1 <= n <= old(hiWater) <= hiWater <= old(hiWater) + 1 && hiWater <= MAX_DEPTH
    {
      var lvl := zeros * 2 / 3;
      if lvl == 0 {
        return 1;
      }
      var prev := hiWater;
      if lvl <= prev {
        return lvl;
      } else if prev == MAX_DEPTH {
        return prev;
      }
      hiWater := prev + 1;
      return prev;
    }

    /** xatomic_cas on one word of a `next` array. */
    method CasNext(a: nat, lvl: nat, expected: nat, desired: nat) returns (ok: bool)
      requires (a, lvl) in links
      modifies this`links
      ensures ok <==> old(links)[(a, lvl)] == Link(expected, false)
      ensures links == if ok then old(links)[(a, lvl) := Link(desired, false)] else old(links)
    {
      ok := links[(a, lvl)] == Link(expected, false);
      if ok {
        links := links[(a, lvl) := Link(desired, false)];
      }
    }

    /** What the search of _Insert leaves for the levels at `done` and above of the new node nv. */
    ghost predicate Linking(done: nat, n: nat, r: real, nv: nat, preds: seq<nat>, succs: seq<nat>)
      reads this
    {
      && NodesOk() && nv in nodes && nodes[nv].Elem? && nodes[nv].nlvl == n && rank(nodes[nv].key) == r
      && nv !in linked && !Has(r) && 1 <= n <= hiWater && |preds| == |succs| == MAX_DEPTH
      && HalfIn(linked, linked[nv := Spot(r, n)], head, links, nodes[head].nlvl, done)
      && (forall l: nat :: done <= l < n && l < MAX_DEPTH ==>
            && StopsAt(l, r, preds[l], succs[l]) && (succs[l] == 0 || r < linked[succs[l]].r)
            && (nv, l) in links && links[(nv, l)] == Link(succs[l], false))
    }

    lemma LinksHere(lvl: nat, n: nat, r: real, nv: nat, preds: seq<nat>, succs: seq<nat>)
      requires Linking(lvl, n, r, nv, preds, succs) && lvl < n
      ensures (preds[lvl], lvl) in links && links[(preds[lvl], lvl)] == Link(succs[lvl], false)
      ensures preds[lvl] != nv
      ensures HalfIn(linked, linked[nv := Spot(r, n)], head, links[(preds[lvl], lvl) := Link(nv, false)],
                     nodes[head].nlvl, lvl + 1)
    {
      assert StopsAt(lvl, r, preds[lvl], succs[lvl]);
      assert LevelOk(linked, head, links, lvl, 0);
      HalfInNext(linked, linked[nv := Spot(r, n)], head, links, nodes[head].nlvl, lvl, preds[lvl], nv, Spot(r, n));
    }

    /** The exchange that links the new node at one level. Nobody has changed the predecessor since
        the search, so that it succeeds. */
    method LinkAt(lvl: nat, n: nat, ghost r: real, nv: nat, preds: seq<nat>, succs: seq<nat>)
      requires Linking(lvl, n, r, nv, preds, succs) && lvl < n
      modifies this`links
      ensures Linking(lvl + 1, n, r, nv, preds, succs)
    {
      LinksHere(lvl, n, r, nv, preds, succs);
      var ok := CasNext(preds[lvl], lvl, succs[lvl], nv);
      assert ok;
    }

    /** The stores of the successors into a new node. */
    method FillNext(nv: nat, n: nat, succs: seq<nat>)
      requires n <= |succs| && forall p :: p in links ==> p.0 != nv
      modifies this`links
      ensures forall p :: p in links <==> p in old(links) || (p.0 == nv && p.1 < n)
      ensures forall p :: p in old(links) ==> links[p] == old(links)[p]
      ensures forall l: nat :: l < n ==> (nv, l) in links && links[(nv, l)] == Link(succs[l], false)
    {
      var lvl := 0;
      while lvl < n
        invariant 0 <= lvl <= n
        invariant forall p :: p in links <==> p in old(links) || (p.0 == nv && p.1 < lvl)
        invariant forall p :: p in old(links) ==> links[p] == old(links)[p]
        invariant forall l: nat :: l < lvl ==> (nv, l) in links && links[(nv, l)] == Link(succs[l], false)
      {
        links := links[(nv, lvl) := Link(succs[lvl], false)];
        lvl := lvl + 1;
      }
    }

    /** Levels do not change when words are added for a node that is not in the list. */
    lemma LevelsKept(before: Links, top: nat)
      requires forall l: nat | l < top :: LevelOk(linked, head, before, l, 0)
      requires forall p :: p in before ==> p in links && links[p] == before[p]
      ensures forall l: nat | l < top :: LevelOk(linked, head, links, l, 0)
    {
      forall l: nat | l < top ensures LevelOk(linked, head, links, l, 0) {
        LevelFrame(linked, head, before, links, l, 0);
      }
    }

    /** _Node::copy, with the successors that the search has found. */
    method NewNode(n: nat, key: K, preds: seq<nat>, succs: seq<nat>) returns (nv: nat)
      requires State(0) && 1 <= n <= hiWater && !Has(rank(key))
      requires Searched(0, n, rank(key), 0, false, preds, succs)
      modifies this`nodes, this`links, this`free
      ensures nv !in old(nodes) && nodes == old(nodes)[nv := Elem(n, key)]
      ensures Linking(0, n, rank(key), nv, preds, succs)
    {
      nv := free;
      assert nv !in nodes && nv !in linked && nv != head;
      free := free + 1;
      nodes := nodes[nv := Elem(n, key)];
      FillNext(nv, n, succs);
      LevelsKept(old(links), nodes[head].nlvl);
      assert NodesOk();
      forall l: nat | l < n && l < MAX_DEPTH
        ensures StopsAt(l, rank(key), preds[l], succs[l]) && (succs[l] == 0 || rank(key) < linked[succs[l]].r)
      {
        assert old(StopsAt(l, rank(key), preds[l], succs[l]));
        assert succs[l] != 0 ==> linked[succs[l]].r != rank(key);
      }
    }

    /** The linking loops of _Insert, from the bottom level up. */
    method LinkLevels(n: nat, ghost r: real, nv: nat, preds: seq<nat>, succs: seq<nat>)
      requires Linking(0, n, r, nv, preds, succs)
      modifies this`links
      ensures Linking(n, n, r, nv, preds, succs)
    {
      LinkAt(0, n, r, nv, preds, succs);
      var lvl := 1;
      while lvl < n
        invariant 1 <= lvl <= n && Linking(lvl, n, r, nv, preds, succs)
      {
        LinkAt(lvl, n, r, nv, preds, succs);
        lvl := lvl + 1;
      }
    }

    method LinkNode(n: nat, ghost r: real, nv: nat, preds: seq<nat>, succs: seq<nat>)
      requires Linking(0, n, r, nv, preds, succs)
      modifies this`links, this`linked
      ensures State(0) && linked == old(linked)[nv := Spot(r, n)] && |linked| == |old(linked)| + 1
    {
      ghost var t := linked[nv := Spot(r, n)];
      LinkLevels(n, r, nv, preds, succs);
      HalfInEnds(linked, t, head, links, nodes[head].nlvl, nv, Spot(r, n));
      SizeAdd(linked, nv, Spot(r, n));
      linked := t;
    }

    /** The atomic addition to the length word. */
    method Count(change: int)
      requires State(0) && length + change == 2 * |linked|
      modifies this`length
      ensures Valid()
    {
      length := length + change;
    }

    /** The part of _Insert behind the search. */
    method InsertAt(n: nat, key: K, preds: seq<nat>, succs: seq<nat>) returns (ghost nv: nat)
      requires Valid() && 1 <= n <= hiWater && !Has(rank(key))
      requires Searched(0, n, rank(key), 0, false, preds, succs)
      modifies this`nodes, this`links, this`free, this`length, this`linked
      ensures Valid() && nv !in old(nodes) && nodes == old(nodes)[nv := Elem(n, key)]
      ensures linked == old(linked)[nv := Spot(rank(key), n)]
    {
      var node := NewNode(n, key, preds, succs);
      LinkNode(n, rank(key), node, preds, succs);
      nv := node;
      Count(2);
    }

    /** _Insert */
    method Insert(key: K, zeros: nat) returns (added: bool, ghost nv: nat)
      requires Valid() && Bumped(zeros, hiWater) <= nodes[head].nlvl
      modifies this`nodes, this`links, this`free, this`length, this`hiWater, this`linked
      ensures Valid() && hiWater == Bumped(zeros, old(hiWater)) && nodes[head] == old(nodes[head])
      ensures added <==> !old(Has(rank(key)))
      ensures added ==> nv !in old(nodes) && nodes == old(nodes)[nv := Elem(Granted(zeros, old(hiWater)), key)]
      ensures added ==> linked == old(linked)[nv := Spot(rank(key), nodes[nv].nlvl)]
      ensures Keys() == if added then old(Keys()) + {key} else old(Keys())
      ensures forall r: real :: HasPlace(linked, r) <==> HasPlace(old(linked), r) || r == rank(key)
      ensures !added ==> linked == old(linked) && nodes == old(nodes)
    {
      var n := RandLvl(zeros);
      var it, preds, succs := FindPreds(n, key, Assist, 0);
      nv := it;
      if it != 0 {
        return false, nv;
      }
      assert !Has(rank(key));
      ghost var t, before := linked, nodes;
      nv := InsertAt(n, key, preds, succs);
      KeysAdd(t, before, nv, Spot(rank(key), n), n, key);
      PlaceAdded(t, nv, Spot(rank(key), n));
      return true, nv;
    }

    /** The marking loop of _Erase, from the top level of the node down. */
    method MarkNode(it: nat)
      requires State(0) && it in linked
      modifies this`links
      ensures State(it)
    {
      HalfMarkedStart(linked, head, links, nodes[head].nlvl, it);
      var lvl := nodes[it].nlvl;
      while lvl > 0
        invariant 0 <= lvl <= nodes[it].nlvl && NodesOk()
        invariant HalfMarked(linked, head, links, nodes[head].nlvl, lvl, it)
      {
        lvl := lvl - 1;
        assert LevelOk(linked, head, links, lvl, 0);
        HalfMarkedNext(linked, head, links, nodes[head].nlvl, lvl, it);
        links := links[(it, lvl) := Link(links[(it, lvl)].to, true)];
      }
    }

    /** The part of _Erase behind its search: mark the node, search again to unlink it, and count. */
    method EraseNode(it: nat, key: K)
      requires Valid() && it in linked && linked[it].r == rank(key)
      modifies this`links, this`length, this`linked
      ensures Valid() && linked == old(linked) - {it}
    {
      SizeDrop(linked, it);
      MarkNode(it);
      var _, _, _ := FindPreds(0, key, Force, it);
      Count(-2);
    }

    /** _Erase, as used by erase and remove: the address of the node that was removed, or 0. */
    method Erase(key: K) returns (it: nat)
      requires Valid()
      modifies this`links, this`length, this`linked
      ensures Valid()
      ensures it == 0 <==> !old(Has(rank(key)))
      ensures it == 0 ==> linked == old(linked)
      ensures it != 0 ==> it in old(linked) && old(linked)[it].r == rank(key) && linked == old(linked) - {it}
      ensures it != 0 ==> Keys() == old(Keys()) - {nodes[it].key}
    {
      var found, _, _ := FindPreds(hiWater, key, Keep, 0);
      it := found;
      if it == 0 {
        return 0;
      }
      KeysDrop(linked, nodes, it);
      EraseNode(it, key);
    }

    /** size */
    method Size() returns (n: nat)
      requires Valid()
      ensures n == |Keys()|
    {
      KeysDistinct();
      n := length / 2;
    }

    lemma {:induction false} KeyCount(s: set<nat>)
      requires NodesOk() && s <= linked.Keys
      ensures |set a | a in s :: nodes[a].key| == |s|
    {
      if s != {} {
        var a :| a in s;
        KeyCount(s - {a});
        var rest := set b | b in s - {a} :: nodes[b].key;
        assert nodes[a].key !in rest;
        assert (set b | b in s :: nodes[b].key) == rest + {nodes[a].key};
        assert |s| == |s - {a}| + 1;
      }
    }

    /** No two linked nodes have the same key. */
    lemma KeysDistinct()
      requires NodesOk()
      ensures |Keys()| == |linked|
    {
      KeyCount(linked.Keys);
      assert Keys() == set a | a in linked.Keys :: nodes[a].key;
    }

    /** _Init */
    constructor (rank: K -> real, depth: nat)
      ensures Valid() && linked == map[] && hiWater == 1 && this.rank == rank
      ensures nodes[head].nlvl == InitLevels(depth) && maxDepth == ClearLevels(depth)
    {
      var n := (if depth > MAX_DEPTH then MAX_DEPTH else depth) + 1;
      this.rank := rank;
      maxDepth := n - 1;
      head, free, hiWater, length := 1, 2, 1, 0;
      nodes := map[1 := Root(n)];
      links := ZeroLinks(map[], 1, n);
      linked := map[];
    }

    /** clear: a new root, with as many levels as the depth. The high-water mark stays. */
    method Clear()
      requires Valid() && hiWater <= maxDepth
      modifies this`head, this`nodes, this`links, this`free, this`length, this`linked
      ensures Valid() && linked == map[] && nodes[head].nlvl == maxDepth
    {
      head, free := free, free + 1;
      nodes := nodes[head := Root(maxDepth)];
      links := ZeroLinks(links, head, maxDepth);
      EmptyLevels(head, links, maxDepth);
      length := 0;
      linked := map[];
    }

    /** make_root zeroes the new words. */
    static function ZeroLinks(links: Links, a: nat, n: nat): (r: Links)
      requires forall p :: p in links ==> p.0 != a
      ensures forall p :: p in r <==> p in links || (p.0 == a && p.1 < n)
      ensures forall p :: p in links ==> r[p] == links[p]
      ensures forall l: nat :: l < n ==> (a, l) in r && r[(a, l)] == Link(0, false)
    {
      if n == 0 then links else ZeroLinks(links, a, n - 1)[(a, n - 1) := Link(0, false)]
    }

    /** Level 0 holds every key in ascending order, and each level is the sublist of the one below
        whose nodes reach it. */
    lemma LevelsNest(l: nat)
      requires Valid() && l + 1 < nodes[head].nlvl
      ensures LevelOk(linked, head, links, l, 0) && LevelOk(linked, head, links, l + 1, 0)
      ensures Chain(linked, head, links, head, l + 1) == Reaching(linked, Chain(linked, head, links, head, l), l + 1)
      ensures Ascending(linked, Chain(linked, head, links, head, l))
      ensures l == 0 ==> forall a :: a in Chain(linked, head, links, head, 0) <==> a in linked
    {
      assert LevelOk(linked, head, links, l, 0) && LevelOk(linked, head, links, l + 1, 0);
      UpperLevel(linked, head, links, l);
      ChainAscends(linked, head, links, head, l);
      ChainHolds(linked, head, links, head, l);
    }

    /** The iterator from begin to end, over the links of level 0. */
    method Walk(ghost all: seq<nat>) returns (keys: seq<K>)
      requires (head, 0) in links && Follows(links, 0, links[(head, 0)].to, all)
      requires forall i :: 0 <= i < |all| ==> all[i] in nodes && nodes[all[i]].Elem?
      ensures |keys| == |all| && forall i :: 0 <= i < |keys| ==> keys[i] == nodes[all[i]].key
    {
      var node := links[(head, 0)].to;
      keys := [];
      while node != 0
        invariant |keys| <= |all| && Follows(links, 0, node, all[|keys|..])
        invariant forall i :: 0 <= i < |keys| ==> keys[i] == nodes[all[i]].key
        decreases |all| - |keys|
      {
        assert all[|keys|..][0] == all[|keys|] && all[|keys|..][1..] == all[|keys| + 1..];
        keys := keys + [nodes[node].key];
        node := links[(node, 0)].to;
      }
    }

    /** The linked nodes in the order of level 0. */
    lemma InOrder() returns (all: seq<nat>)
      requires Valid()
      ensures (head, 0) in links && Follows(links, 0, links[(head, 0)].to, all)
      ensures Ascending(linked, all) && forall a :: a in all <==> a in linked
      ensures |all| == |linked|
    {
      assert LevelOk(linked, head, links, 0, 0);
      all := Chain(linked, head, links, head, 0);
      ChainFollows(linked, head, links, head, 0);
      ChainHolds(linked, head, links, head, 0);
      ChainAscends(linked, head, links, head, 0);
      SortedSize(linked, all);
    }

    lemma KeysInOrder(all: seq<nat>, keys: seq<K>)
      requires NodesOk() && Ascending(linked, all) && forall a :: a in all <==> a in linked
      requires |keys| == |all| && forall i :: 0 <= i < |keys| ==> keys[i] == nodes[all[i]].key
      ensures forall i, j :: 0 <= i < j < |keys| ==> rank(keys[i]) < rank(keys[j])
      ensures forall k :: k in keys <==> k in Keys()
    {
      forall k | k in Keys() ensures k in keys {
        var a :| a in linked && nodes[a].key == k;
        assert a in all;
        var i :| 0 <= i < |all| && all[i] == a;
        assert keys[i] == k;
      }
    }

    /** Iteration yields each key of the list once, in ascending order. */
    method Elements() returns (keys: seq<K>)
      requires Valid()
      ensures forall i, j :: 0 <= i < j < |keys| ==> rank(keys[i]) < rank(keys[j])
      ensures forall k :: k in keys <==> k in Keys()
      ensures |keys| == |Keys()|
    {
      ghost var all := InOrder();
      keys := Walk(all);
      KeysInOrder(all, keys);
      KeysDistinct();
    }
  }

  /** The constructor from a range: all insertions of a run, with any draws. */
  method FromKeys<K(!new)>(rank: K -> real, depth: nat, keys: seq<K>, zeros: seq<nat>) returns (list: SkipList<K>)
    requires 19 <= depth && Drawn(zeros) && |zeros| == |keys|
    ensures fresh(list) && list.Valid() && list.rank == rank
    ensures forall k :: k in list.Keys() ==> k in keys
    ensures forall j :: 0 <= j < |keys| ==> list.Has(rank(keys[j]))
  {
    list := new SkipList(rank, depth);
    var i := 0;
    while i < |keys|
      invariant 0 <= i <= |keys| && fresh(list) && list.Valid() && list.rank == rank
      invariant list.hiWater == HiWaterAfter(zeros[..i]) && list.nodes[list.head].nlvl == InitLevels(depth)
      invariant forall k :: k in list.Keys() ==> k in keys
      invariant forall j :: 0 <= j < i ==> HasPlace(list.linked, rank(keys[j]))
    {
      HiWaterStep(zeros, i);
      ghost var t := list.linked;
      var added, nv := list.Insert(keys[i], zeros[i]);
      forall j | 0 <= j <= i ensures HasPlace(list.linked, rank(keys[j])) {
        assert HasPlace(t, rank(keys[j])) || j == i;
      }
      i := i + 1;
    }
  }
}
