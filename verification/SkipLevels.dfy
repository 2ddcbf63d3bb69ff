/** The levels of xrcu/skip_list.hpp as chains of links over a table of linked nodes, and what
    linking and unlinking one node does to a chain. */
module SkipLevels {
  /** A word of a `next` array: an address (0 at the end) and the mark SL_XBIT. */
  datatype Link = Link(to: nat, mark: bool)

  /** A linked node: the place of its key in the order, and its number of levels. */
  datatype Spot = Spot(r: real, n: nat)

  type Table = map<nat, Spot>
  type Links = map<(nat, nat), Link>

  /** Node a, which may be the head, comes before the place r. */
  predicate Before(t: Table, head: nat, a: nat, r: real) {
    a == head || (a in t && t[a].r < r)
  }

  predicate Reaches(t: Table, head: nat, a: nat, l: nat) {
    a == head || (a in t && l < t[a].n)
  }

  /** Node b is the first one after a that reaches level l; it is 0 if there is none. */
  ghost predicate IsNext(t: Table, head: nat, a: nat, l: nat, b: nat) {
    && (b == 0 || (b in t && l < t[b].n && Before(t, head, a, t[b].r)))
    && (forall c :: c in t && l < t[c].n && Before(t, head, a, t[c].r) ==> b in t && t[b].r <= t[c].r)
  }

  /** The node of level l: the links of level l are right, and node x alone has the mark. */
  ghost predicate LevelOk(t: Table, head: nat, links: Links, l: nat, x: nat) {
    forall a: nat | Reaches(t, head, a, l) ::
      && (a, l) in links && (links[(a, l)].mark <==> a == x)
      && IsNext(t, head, a, l, links[(a, l)].to)
  }

  ghost predicate TableOk(t: Table, head: nat) {
    && 0 !in t && head !in t && head != 0
    && (forall a, b :: a in t && b in t && t[a].r == t[b].r ==> a == b)
  }

  /** The table has a node at place r. */
  ghost predicate HasPlace(t: Table, r: real) {
    exists a :: a in t && t[a].r == r
  }

  lemma PlaceAdded(t: Table, x: nat, s: Spot)
    requires x !in t
    ensures forall r: real :: HasPlace(t[x := s], r) <==> HasPlace(t, r) || r == s.r
  {
    var t' := t[x := s];
    forall r: real | HasPlace(t, r) || r == s.r ensures HasPlace(t', r) {
      if HasPlace(t, r) {
        var a :| a in t && t[a].r == r;
        assert a in t' && t'[a].r == r;
      } else {
        assert t'[x].r == r;
      }
    }
  }

  /** A level depends on its own links only. */
  lemma LevelFrame(t: Table, head: nat, links: Links, links': Links, l: nat, x: nat)
    requires LevelOk(t, head, links, l, x)
    requires forall a: nat | Reaches(t, head, a, l) :: (a, l) in links' && links'[(a, l)] == links[(a, l)]
    ensures LevelOk(t, head, links', l, x)
  {
  }

  /** Linking node x behind p, where the walk for its place r has stopped. */
  lemma LinkLevel(t: Table, head: nat, links: Links, l: nat, p: nat, x: nat, s: Spot)
    requires TableOk(t, head) && LevelOk(t, head, links, l, 0)
    requires Reaches(t, head, p, l) && Before(t, head, p, s.r)
    requires links[(p, l)].to == 0 || s.r < t[links[(p, l)].to].r
    requires x !in t && x != head && x != 0 && l < s.n
    requires (x, l) in links && links[(x, l)] == Link(links[(p, l)].to, false)
    ensures LevelOk(t[x := s], head, links[(p, l) := Link(x, false)], l, 0)
  {
    var t', links' := t[x := s], links[(p, l) := Link(x, false)];
    var q := links[(p, l)].to;
    forall a | Reaches(t', head, a, l)
      ensures (a, l) in links' && !links'[(a, l)].mark && IsNext(t', head, a, l, links'[(a, l)].to)
    {
      if a == x {
        assert IsNext(t, head, p, l, q);
      } else {
        assert Reaches(t, head, a, l);
        assert IsNext(t, head, a, l, links[(a, l)].to);
        assert IsNext(t, head, p, l, q);
      }
    }
  }

  /** A node that does not reach a level does not change it. */
  lemma LinkAbove(t: Table, head: nat, links: Links, l: nat, x: nat, s: Spot)
    requires LevelOk(t, head, links, l, 0) && x !in t && x != head && x != 0 && s.n <= l
    ensures LevelOk(t[x := s], head, links, l, 0)
  {
    forall a | Reaches(t[x := s], head, a, l) ensures IsNext(t[x := s], head, a, l, links[(a, l)].to) {
      assert Reaches(t, head, a, l);
      assert IsNext(t, head, a, l, links[(a, l)].to);
    }
  }

  /** Unlinking the marked node x from its predecessor p. */
  lemma UnlinkLevel(t: Table, head: nat, links: Links, l: nat, p: nat, x: nat)
    requires TableOk(t, head) && LevelOk(t, head, links, l, x)
    requires x in t && l < t[x].n && Reaches(t, head, p, l) && p != x && links[(p, l)].to == x
    ensures LevelOk(t - {x}, head, links[(p, l) := Link(links[(x, l)].to, false)], l, 0)
  {
    var t', q := t - {x}, links[(x, l)].to;
    var links' := links[(p, l) := Link(q, false)];
    assert IsNext(t, head, x, l, q);
    assert IsNext(t, head, p, l, x);
    forall a | Reaches(t', head, a, l)
      ensures (a, l) in links' && !links'[(a, l)].mark && IsNext(t', head, a, l, links'[(a, l)].to)
    {
      assert Reaches(t, head, a, l) && a != x;
      assert IsNext(t, head, a, l, links[(a, l)].to);
    }
  }

  lemma UnlinkAbove(t: Table, head: nat, links: Links, l: nat, x: nat)
    requires TableOk(t, head) && LevelOk(t, head, links, l, x) && x in t && t[x].n <= l
    ensures LevelOk(t - {x}, head, links, l, 0)
  {
    forall a | Reaches(t - {x}, head, a, l) ensures a != x && IsNext(t - {x}, head, a, l, links[(a, l)].to) {
      assert Reaches(t, head, a, l);
      assert IsNext(t, head, a, l, links[(a, l)].to);
    }
  }

  /** During a search that unlinks x: it is gone from the levels at `done` and above. With x == 0
      nothing is being unlinked. */
  ghost predicate HalfDone(t: Table, head: nat, links: Links, top: nat, done: nat, x: nat) {
    forall l: nat | l < top ::
      if done <= l then LevelOk(t - {x}, head, links, l, 0) else LevelOk(t, head, links, l, x)
  }

  lemma HalfDoneStart(t: Table, head: nat, links: Links, top: nat, hiWater: nat, x: nat)
    requires TableOk(t, head) && forall l: nat | l < top :: LevelOk(t, head, links, l, x)
    requires x == 0 || (x in t && t[x].n <= hiWater)
    ensures HalfDone(t, head, links, top, hiWater, x)
  {
    forall l: nat | hiWater <= l < top ensures LevelOk(t - {x}, head, links, l, 0) {
      if x == 0 {
        assert t - {x} == t;
      } else {
        UnlinkAbove(t, head, links, l, x);
      }
    }
  }

  lemma HalfDoneSame(t: Table, head: nat, links: Links, top: nat, lvl: nat, x: nat)
    requires TableOk(t, head) && lvl < top && HalfDone(t, head, links, top, lvl + 1, x)
    requires x == 0 || (x in t && t[x].n <= lvl)
    ensures HalfDone(t, head, links, top, lvl, x)
  {
    if x == 0 {
      assert t - {x} == t;
    } else {
      assert LevelOk(t, head, links, lvl, x);
      UnlinkAbove(t, head, links, lvl, x);
    }
  }

  lemma HalfDoneNext(t: Table, head: nat, links: Links, top: nat, lvl: nat, x: nat, p: nat)
    requires TableOk(t, head) && lvl < top && HalfDone(t, head, links, top, lvl + 1, x)
    requires x in t && lvl < t[x].n && Reaches(t, head, p, lvl) && p != x
    requires (p, lvl) in links && links[(p, lvl)].to == x && (x, lvl) in links
    ensures HalfDone(t, head, links[(p, lvl) := Link(links[(x, lvl)].to, false)], top, lvl, x)
  {
    var links' := links[(p, lvl) := Link(links[(x, lvl)].to, false)];
    assert LevelOk(t, head, links, lvl, x);
    UnlinkLevel(t, head, links, lvl, p, x);
    forall l: nat | l < top && l != lvl
      ensures if lvl <= l then LevelOk(t - {x}, head, links', l, 0) else LevelOk(t, head, links', l, x)
    {
      if lvl < l {
        LevelFrame(t - {x}, head, links, links', l, 0);
      } else {
        LevelFrame(t, head, links, links', l, x);
      }
    }
  }

  /** While a new node is being linked in: table t' has it and is right below level `done`. */
  ghost predicate HalfIn(t: Table, t': Table, head: nat, links: Links, top: nat, done: nat) {
    forall l: nat | l < top ::
      if l < done then LevelOk(t', head, links, l, 0) else LevelOk(t, head, links, l, 0)
  }

  lemma HalfInNext(t: Table, t': Table, head: nat, links: Links, top: nat, lvl: nat, p: nat, x: nat, s: Spot)
    requires TableOk(t, head) && t' == t[x := s] && x !in t && x != head && x != 0
    requires lvl < top && lvl < s.n && HalfIn(t, t', head, links, top, lvl)
    requires Reaches(t, head, p, lvl) && Before(t, head, p, s.r) && (p, lvl) in links
    requires links[(p, lvl)].to == 0 || (links[(p, lvl)].to in t && s.r < t[links[(p, lvl)].to].r)
    requires (x, lvl) in links && links[(x, lvl)] == Link(links[(p, lvl)].to, false)
    ensures HalfIn(t, t', head, links[(p, lvl) := Link(x, false)], top, lvl + 1)
  {
    var links' := links[(p, lvl) := Link(x, false)];
    assert LevelOk(t, head, links, lvl, 0);
    LinkLevel(t, head, links, lvl, p, x, s);
    forall l: nat | l < top && l != lvl
      ensures if l < lvl + 1 then LevelOk(t', head, links', l, 0) else LevelOk(t, head, links', l, 0)
    {
      if l < lvl {
        LevelFrame(t', head, links, links', l, 0);
      } else {
        LevelFrame(t, head, links, links', l, 0);
      }
    }
  }

  lemma HalfInEnds(t: Table, t': Table, head: nat, links: Links, top: nat, x: nat, s: Spot)
    requires TableOk(t, head) && t' == t[x := s] && x !in t && x != head && x != 0
    requires HalfIn(t, t', head, links, top, s.n)
    ensures forall l: nat | l < top :: LevelOk(t', head, links, l, 0)
  {
    forall l: nat | l < top ensures LevelOk(t', head, links, l, 0) {
      if s.n <= l {
        LinkAbove(t, head, links, l, x, s);
      }
    }
  }

  /** While node x is being marked: it has its mark at the levels at `done` and above. */
  ghost predicate HalfMarked(t: Table, head: nat, links: Links, top: nat, done: nat, x: nat) {
    forall l: nat | l < top ::
      if done <= l then LevelOk(t, head, links, l, x) else LevelOk(t, head, links, l, 0)
  }

  lemma HalfMarkedStart(t: Table, head: nat, links: Links, top: nat, x: nat)
    requires TableOk(t, head) && x in t && forall l: nat | l < top :: LevelOk(t, head, links, l, 0)
    ensures HalfMarked(t, head, links, top, t[x].n, x)
  {
    forall l: nat | t[x].n <= l < top ensures LevelOk(t, head, links, l, x) {
      assert LevelOk(t, head, links, l, 0);
    }
  }

  lemma HalfMarkedNext(t: Table, head: nat, links: Links, top: nat, lvl: nat, x: nat)
    requires TableOk(t, head) && x in t && lvl < t[x].n <= top && HalfMarked(t, head, links, top, lvl + 1, x)
    requires (x, lvl) in links
    ensures HalfMarked(t, head, links[(x, lvl) := Link(links[(x, lvl)].to, true)], top, lvl, x)
  {
    var links' := links[(x, lvl) := Link(links[(x, lvl)].to, true)];
    assert LevelOk(t, head, links, lvl, 0);
    assert LevelOk(t, head, links', lvl, x);
    forall l: nat | l < top && l != lvl
      ensures if lvl <= l then LevelOk(t, head, links', l, x) else LevelOk(t, head, links', l, 0)
    {
      if lvl < l {
        LevelFrame(t, head, links, links', l, x);
      } else {
        LevelFrame(t, head, links, links', l, 0);
      }
    }
  }

  /** A root whose links are all 0 is an empty list. */
  lemma EmptyLevels(head: nat, links: Links, top: nat)
    requires head != 0 && forall l: nat :: l < top ==> (head, l) in links && links[(head, l)] == Link(0, false)
    ensures forall l: nat | l < top :: LevelOk(map[], head, links, l, 0)
  {
  }

  // ----- Chains -----

  /** The nodes at level l after a, in link order. */
  ghost function Chain(t: Table, head: nat, links: Links, a: nat, l: nat): (s: seq<nat>)
    requires TableOk(t, head) && LevelOk(t, head, links, l, 0) && Reaches(t, head, a, l)
    decreases Later(t, head, a)
  {
    var b := links[(a, l)].to;
    assert IsNext(t, head, a, l, b);
    if b == 0 then [] else
      assert b in Later(t, head, a) && b !in Later(t, head, b);
      [b] + Chain(t, head, links, b, l)
  }

  ghost function Later(t: Table, head: nat, a: nat): set<nat> {
    set c | c in t && Before(t, head, a, t[c].r)
  }

  /** A chain holds exactly the later nodes that reach its level. */
  lemma {:induction false} ChainHolds(t: Table, head: nat, links: Links, a: nat, l: nat)
    requires TableOk(t, head) && LevelOk(t, head, links, l, 0) && Reaches(t, head, a, l)
    ensures forall c :: c in Chain(t, head, links, a, l) <==> c in t && l < t[c].n && Before(t, head, a, t[c].r)
    decreases Later(t, head, a)
  {
    var b := links[(a, l)].to;
    assert IsNext(t, head, a, l, b);
    if b != 0 {
      assert b in Later(t, head, a) && b !in Later(t, head, b);
      ChainHolds(t, head, links, b, l);
    }
  }

  /** The links of level l lead from node through s to the end of the level. */
  predicate Follows(links: Links, l: nat, node: nat, s: seq<nat>)
    decreases s
  {
    if s == [] then node == 0
    else node == s[0] != 0 && (node, l) in links && Follows(links, l, links[(node, l)].to, s[1..])
  }

  lemma {:induction false} ChainFollows(t: Table, head: nat, links: Links, a: nat, l: nat)
    requires TableOk(t, head) && LevelOk(t, head, links, l, 0) && Reaches(t, head, a, l)
    ensures Follows(links, l, links[(a, l)].to, Chain(t, head, links, a, l))
    decreases Later(t, head, a)
  {
    var b := links[(a, l)].to;
    assert IsNext(t, head, a, l, b);
    if b != 0 {
      assert b in Later(t, head, a) && b !in Later(t, head, b);
      ChainFollows(t, head, links, b, l);
      assert Chain(t, head, links, a, l)[1..] == Chain(t, head, links, b, l);
    }
  }

  ghost predicate Ascending(t: Table, s: seq<nat>) {
    && (forall i :: 0 <= i < |s| ==> s[i] in t)
    && (forall i, j :: 0 <= i < j < |s| ==> t[s[i]].r < t[s[j]].r)
  }

  /** A chain is strictly sorted. */
  lemma {:induction false} ChainAscends(t: Table, head: nat, links: Links, a: nat, l: nat)
    requires TableOk(t, head) && LevelOk(t, head, links, l, 0) && Reaches(t, head, a, l)
    ensures Ascending(t, Chain(t, head, links, a, l))
    decreases Later(t, head, a)
  {
    var b := links[(a, l)].to;
    assert IsNext(t, head, a, l, b);
    if b != 0 {
      assert b in Later(t, head, a) && b !in Later(t, head, b);
      ChainAscends(t, head, links, b, l);
      ChainHolds(t, head, links, b, l);
    }
  }

  /** The nodes of s that reach level l. */
  function Reaching(t: Table, s: seq<nat>, l: nat): seq<nat> {
    if s == [] then []
    else (if s[0] in t && l < t[s[0]].n then [s[0]] else []) + Reaching(t, s[1..], l)
  }

  lemma {:induction false} ReachingHolds(t: Table, s: seq<nat>, l: nat)
    requires Ascending(t, s)
    ensures forall c :: c in Reaching(t, s, l) <==> c in s && l < t[c].n
    ensures Ascending(t, Reaching(t, s, l))
  {
    if s != [] {
      ReachingHolds(t, s[1..], l);
    }
  }

  lemma SomeElement(s: seq<nat>)
    ensures s == [] || exists c :: c in s
  {
    assert s == [] || s[0] in s;
  }

  /** Strictly sorted sequences with the same elements are equal. */
  lemma {:induction false} SameSorted(t: Table, s: seq<nat>, s': seq<nat>)
    requires Ascending(t, s) && Ascending(t, s') && forall c :: c in s <==> c in s'
    ensures s == s'
  {
    if s == [] {
      SomeElement(s');
    } else {
      assert s[0] in s' && s'[0] in s;
      assert s[0] == s'[0];
      forall c ensures c in s[1..] <==> c in s'[1..] {
        assert c in s <==> c in s';
      }
      SameSorted(t, s[1..], s'[1..]);
    }
  }

  /** Each level is the sublist of the one below whose nodes reach it. */
  lemma UpperLevel(t: Table, head: nat, links: Links, l: nat)
    requires TableOk(t, head) && LevelOk(t, head, links, l, 0) && LevelOk(t, head, links, l + 1, 0)
    ensures Chain(t, head, links, head, l + 1) == Reaching(t, Chain(t, head, links, head, l), l + 1)
  {
    var low, up := Chain(t, head, links, head, l), Chain(t, head, links, head, l + 1);
    ChainHolds(t, head, links, head, l);
    ChainHolds(t, head, links, head, l + 1);
    ChainAscends(t, head, links, head, l);
    ChainAscends(t, head, links, head, l + 1);
    ReachingHolds(t, low, l + 1);
    SameSorted(t, up, Reaching(t, low, l + 1));
  }

  lemma SizeDrop(t: Table, x: nat)
    requires x in t
    ensures |t| == |t - {x}| + 1
  {
    assert t.Keys == (t - {x}).Keys + {x};
  }

  lemma SizeAdd(t: Table, x: nat, s: Spot)
    requires x !in t
    ensures |t[x := s]| == |t| + 1
  {
    assert t[x := s].Keys == t.Keys + {x};
  }

  /** A strictly sorted sequence of all nodes is as long as there are nodes. */
  lemma {:induction false} SortedSize(t: Table, s: seq<nat>)
    requires Ascending(t, s) && forall c :: c in t ==> c in s
    ensures |s| == |t|
  {
    if s != [] {
      var n := |s| - 1;
      var t' := t - {s[n]};
      forall c | c in t' ensures c in s[..n] {
        var i :| 0 <= i < |s| && s[i] == c;
        assert s[..n][i] == c;
      }
      SortedSize(t', s[..n]);
      SizeDrop(t, s[n]);
    }
  }
}
