/** The intrusive rings of src/xrcu.cpp on the heap: td_link and one pass of poll_readers. */
module Rings {
  import opened Common
  import opened ReaderRings

  /** The walk around a ring: from its head over its links and back to the head. */
  ghost function Around(head: TdLink, s: seq<TdLink>): seq<TdLink> {
    [head] + s + [head]
  }

  /** The links that a ring is made of; none if there is no ring. */
  ghost function Foot(head: TdLink?, s: seq<TdLink>): set<TdLink> {
    if head == null then {} else {head} + set x | x in s
  }

  /** The ring of `head` holds the links s, in order: they are pairwise different, and neighbours
      point at each other. */
  ghost predicate Ring(head: TdLink, s: seq<TdLink>)
    reads Foot(head, s)
  {
    Distinct([head] + s) && Chained(Around(head, s))
  }

  ghost predicate Chained(all: seq<TdLink>)
    reads all
  {
    forall i, j :: 0 <= i < |all| - 1 && j == i + 1 ==> all[i].next == all[j] && all[j].prev == all[i]
  }

  lemma DistinctAdd(head: TdLink, s: seq<TdLink>, x: TdLink)
    requires Distinct([head] + s) && x !in [head] + s
    ensures Distinct([head] + ([x] + s))
  {
    var a, b := [head] + s, [head] + ([x] + s);
    assert forall k :: 0 <= k < |a| ==> a[k] in a;
    forall i, j | 0 <= i < j < |b| ensures b[i] != b[j] {
      var i', j' := if i == 0 then 0 else i - 1, j - 1;
      assert b[i] == if i == 1 then x else a[i'];
      assert b[j] == if j == 1 then x else a[j'];
      assert i' < j' ==> a[i'] != a[j'];
      assert a[i'] in a && a[j'] in a;
    }
  }

  lemma DistinctCut(head: TdLink, s: seq<TdLink>, i: nat)
    requires Distinct([head] + s) && i < |s|
    ensures Distinct([head] + (s[..i] + s[i + 1..])) && s[i] !in [head] + (s[..i] + s[i + 1..])
    ensures forall x :: x in s[..i] + s[i + 1..] ==> x in s
  {
    var a, b := [head] + s, [head] + (s[..i] + s[i + 1..]);
    forall k | 0 <= k < |b| ensures b[k] == a[if k <= i then k else k + 1] && b[k] != s[i] {
      assert s[i] == a[i + 1];
    }
  }

  /** Only the head is met twice on the way around. */
  lemma AroundOnce(head: TdLink, s: seq<TdLink>)
    requires Distinct([head] + s)
    ensures
      var a := Around(head, s);
      forall i, j :: 0 <= i < j < |a| && (0 < i || j < |a| - 1) ==> a[i] != a[j]
  {
    var a, b := Around(head, s), [head] + s;
    forall i, j | 0 <= i < j < |a| && (0 < i || j < |a| - 1) ensures a[i] != a[j] {
      assert a[i] == b[i];
      assert a[j] == b[if j < |b| then j else 0];
    }
  }

  /** The fields of a head. */
  lemma Ends(head: TdLink, s: seq<TdLink>)
    requires Ring(head, s)
    ensures head.next == (if s == [] then head else s[0]) && head.prev == (if s == [] then head else s[|s| - 1])
    ensures head.next == head <==> s == []
    ensures head.next in Foot(head, s)
  {
    var a := Around(head, s);
    assert a[0].next == a[1] && a[|s| + 1].prev == a[|s|];
    AroundOnce(head, s);
  }

  /** The fields of a link. */
  lemma Neighbours(head: TdLink, s: seq<TdLink>, i: nat)
    requires Ring(head, s) && i < |s|
    ensures s[i].next == (if i == |s| - 1 then head else s[i + 1]) && s[i].prev == (if i == 0 then head else s[i - 1])
    ensures s[i] != head && s[i] in Foot(head, s) && s[i].next in Foot(head, s) && s[i].prev in Foot(head, s)
  {
    var a := Around(head, s);
    assert a[i + 1].next == a[i + 2] && a[i + 1].prev == a[i];
    AroundOnce(head, s);
    assert a[0] != a[i + 1];
  }

  lemma DistinctJoin(h: TdLink, s: seq<TdLink>, head: TdLink, t: seq<TdLink>)
    requires Distinct([h] + s) && Distinct([head] + t) && Foot(h, s) !! Foot(head, t)
    ensures Distinct([head] + (s + t))
  {
    var a, c, b := [h] + s, [head] + t, [head] + (s + t);
    forall i, j | 0 <= i < j < |b| ensures b[i] != b[j] {
      assert 0 < i <= |s| ==> b[i] == a[i] && a[i] in Foot(h, s);
      assert j <= |s| ==> b[j] == a[j] && a[j] in Foot(h, s);
      assert i == 0 ==> b[i] == c[0];
      assert i > |s| ==> b[i] == c[i - |s|];
      assert j > |s| ==> b[j] == c[j - |s|] && c[j - |s|] in Foot(head, t);
      assert c[0] in Foot(head, t);
    }
  }

  /** td_link */
  class TdLink {
    var next: TdLink?
    var prev: TdLink?

    method InitHead()
      modifies this
      ensures Ring(this, [])
    {
      next, prev := this, this;
    }

    /** Add this link at the front of a ring. */
    method Add(headp: TdLink, ghost s: seq<TdLink>)
      requires Ring(headp, s) && this !in [headp] + s
      modifies this, headp, headp.next
      ensures Ring(headp, [this] + s)
    {
      ghost var a := Around(headp, s);
      assert a[0] == headp && headp.next == a[1];
      this.next := headp.next;
      this.prev := headp;
      headp.next.prev := this;
      headp.next := this;
      DistinctAdd(headp, s, this);
      ghost var b := Around(headp, [this] + s);
      assert forall i :: 2 <= i < |b| ==> b[i] == a[i - 1];
    }

    /** Unlink this link, the i-th of its ring. Its own fields stay as they were. */
    method Del(ghost headp: TdLink, ghost s: seq<TdLink>, ghost i: nat)
      requires Ring(headp, s) && i < |s| && s[i] == this
      modifies this.next, this.prev
      ensures Ring(headp, s[..i] + s[i + 1..])
    {
      ghost var a := Around(headp, s);
      AroundOnce(headp, s);
      assert a[i + 1] == this && prev == a[i] && next == a[i + 2];
      next.prev := prev;
      prev.next := next;
      DistinctCut(headp, s, i);
      ghost var b := Around(headp, s[..i] + s[i + 1..]);
      forall k, l | 0 <= k < |b| - 1 && l == k + 1 ensures b[k].next == b[l] && b[l].prev == b[k] {
        var k', l' := if k <= i then k else k + 1, if l <= i then l else l + 1;
        assert b[k] == a[k'] && b[l] == a[l'];
        assert k != i ==> l' == k' + 1 && a[k'] != a[i] && a[l'] != a[i + 2];
      }
    }

    /** Put this ring's links in front of another ring's. The fields of this head stay as they
        were. */
    method Splice(dst: TdLink, ghost s: seq<TdLink>, ghost t: seq<TdLink>)
      requires Ring(this, s) && Ring(dst, t) && Foot(this, s) !! Foot(dst, t)
      modifies Foot(this, s), Foot(dst, t)
      ensures Ring(dst, s + t)
    {
      ghost var a, c := Around(this, s), Around(dst, t);
      AroundOnce(this, s);
      AroundOnce(dst, t);
      Ends(this, s);
      Ends(dst, t);
      if this == next {
        assert s + t == t;
        return;
      }
      ghost var b := Around(dst, s + t);
      DistinctJoin(this, s, dst, t);
      assert a[0] != a[|s|];
      next.prev := dst;
      prev.next := dst.next;
      dst.next.prev := prev;
      dst.next := next;
      var n := |s|;
      assert a[1] in [this] + s && a[n] in [this] + s && c[0] in [dst] + t && c[1] in [dst] + t;
      forall k, l | 0 <= k < |b| - 1 && l == k + 1 ensures b[k].next == b[l] && b[l].prev == b[k] {
        if k == 0 {
          assert b[k] == c[0] && b[l] == a[1];
        } else if k < n {
          assert b[k] == a[k] && b[l] == a[l] && a[k] in [this] + s && a[l] in [this] + s;
          assert a[k] != a[n] && a[1] != a[l];
        } else if k == n {
          assert b[k] == a[n] && b[l] == c[1];
        } else {
          var i := k - n;
          assert b[k] == c[i] && b[l] == c[i + 1] && c[i] in [dst] + t && c[i + 1] in [dst] + t;
          assert c[0] != c[i] && c[1] != c[i + 1];
        }
      }
    }

    /** The move of poll_readers: del followed by add. */
    method MoveTo(dst: TdLink, ghost headp: TdLink, ghost s: seq<TdLink>, ghost i: nat, ghost d: seq<TdLink>)
      requires Ring(headp, s) && i < |s| && s[i] == this
      requires Ring(dst, d) && Foot(headp, s) !! Foot(dst, d)
      modifies Foot(headp, s), Foot(dst, d)
      ensures Ring(headp, s[..i] + s[i + 1..]) && Ring(dst, [this] + d)
    {
      Neighbours(headp, s, i);
      Ends(dst, d);
      DistinctCut(headp, s, i);
      Del(headp, s, i);
      Add(dst, d);
    }
  }

  // ----- One pass of poll_readers -----

  datatype Place = Stays | ToOut | ToQs

  /** Without an `out` ring, active readers go to `qs` like inactive ones. */
  function Goes(st: ReaderState, hasOut: bool): Place {
    match st
    case Active => if hasOut then ToOut else ToQs
    case Inactive => ToQs
    case Old => Stays
  }

  /** What one pass finds when it looks at a reader. */
  type View = TdLink -> ReaderState

  /** Of the first n readers, those that stay, in order, and those that move, the last one first. */
  ghost function Kept(s: seq<TdLink>, view: View, hasOut: bool, n: nat): seq<TdLink>
    requires n <= |s|
  {
    if n == 0 then []
    else if Goes(view(s[n - 1]), hasOut) == Stays then Kept(s, view, hasOut, n - 1) + [s[n - 1]]
    else Kept(s, view, hasOut, n - 1)
  }

  ghost function Moved(s: seq<TdLink>, view: View, hasOut: bool, to: Place, n: nat): seq<TdLink>
    requires n <= |s|
  {
    if n == 0 then []
    else if Goes(view(s[n - 1]), hasOut) == to then [s[n - 1]] + Moved(s, view, hasOut, to, n - 1)
    else Moved(s, view, hasOut, to, n - 1)
  }

  /** The readers' ring in the middle of a pass, and a ring that receives. */
  ghost function Rest(s: seq<TdLink>, view: View, hasOut: bool, n: nat): seq<TdLink>
    requires n <= |s|
  {
    Kept(s, view, hasOut, n) + s[n..]
  }

  ghost function Grown(s: seq<TdLink>, view: View, hasOut: bool, to: Place, n: nat, d: seq<TdLink>): seq<TdLink>
    requires n <= |s|
  {
    Moved(s, view, hasOut, to, n) + d
  }

  lemma RestStep(s: seq<TdLink>, view: View, hasOut: bool, n: nat)
    requires n < |s|
    ensures
      var r, k := Rest(s, view, hasOut, n), |Kept(s, view, hasOut, n)|;
      && k < |r| && r[k] == s[n] && |r| - k == |s| - n && (k < |r| - 1 ==> r[k + 1] == s[n + 1])
      && Rest(s, view, hasOut, n + 1) == if Goes(view(s[n]), hasOut) == Stays then r else r[..k] + r[k + 1..]
  {
    assert s[n..] == [s[n]] + s[n + 1..];
  }

  lemma GrownStep(s: seq<TdLink>, view: View, hasOut: bool, to: Place, n: nat, d: seq<TdLink>)
    requires n < |s|
    ensures
      var g := Grown(s, view, hasOut, to, n, d);
      Grown(s, view, hasOut, to, n + 1, d) == if Goes(view(s[n]), hasOut) == to then [s[n]] + g else g
  {
  }

  lemma PassBegins(s: seq<TdLink>, view: View, hasOut: bool, o: seq<TdLink>, q: seq<TdLink>)
    ensures Rest(s, view, hasOut, 0) == s && Rest(s, view, hasOut, |s|) == Kept(s, view, hasOut, |s|)
    ensures Grown(s, view, hasOut, ToOut, 0, o) == o && Grown(s, view, hasOut, ToQs, 0, q) == q
  {
  }

  ghost predicate ThreeRings(readers: TdLink, r: seq<TdLink>, outp: TdLink?, o: seq<TdLink>,
                             qsp: TdLink, q: seq<TdLink>)
    reads Foot(readers, r), Foot(outp, o), Foot(qsp, q)
  {
    && Ring(readers, r) && Ring(qsp, q) && (if outp == null then o == [] else Ring(outp, o))
    && Foot(readers, r) !! Foot(outp, o) !! Foot(qsp, q)
  }

  lemma FootMoved(h: TdLink, r: seq<TdLink>, i: nat, dst: TdLink, d: seq<TdLink>)
    requires Distinct([h] + r) && i < |r|
    ensures Foot(h, r[..i] + r[i + 1..]) == Foot(h, r) - {r[i]} && r[i] in Foot(h, r)
    ensures Foot(dst, [r[i]] + d) == Foot(dst, d) + {r[i]}
  {
    DistinctCut(h, r, i);
    var r' := r[..i] + r[i + 1..];
    forall x | x in r && x != r[i] ensures x in r' {
      var k :| 0 <= k < |r| && r[k] == x;
      assert r'[if k < i then k else k - 1] == x;
    }
    assert h == ([h] + r)[0] && r[i] == ([h] + r)[i + 1];
  }

  method ToQsRing(runp: TdLink, ghost readers: TdLink, ghost outp: TdLink?, qsp: TdLink,
                  ghost r: seq<TdLink>, ghost k: nat, ghost o: seq<TdLink>, ghost q: seq<TdLink>)
    requires ThreeRings(readers, r, outp, o, qsp, q) && k < |r| && r[k] == runp
    modifies Foot(readers, r), Foot(qsp, q)
    ensures ThreeRings(readers, r[..k] + r[k + 1..], outp, o, qsp, [runp] + q)
  {
    FootMoved(readers, r, k, qsp, q);
    runp.MoveTo(qsp, readers, r, k, q);
  }

  method ToOutRing(runp: TdLink, ghost readers: TdLink, outp: TdLink, ghost qsp: TdLink,
                   ghost r: seq<TdLink>, ghost k: nat, ghost o: seq<TdLink>, ghost q: seq<TdLink>)
    requires ThreeRings(readers, r, outp, o, qsp, q) && k < |r| && r[k] == runp
    modifies Foot(readers, r), Foot(outp, o)
    ensures ThreeRings(readers, r[..k] + r[k + 1..], outp, [runp] + o, qsp, q)
  {
    FootMoved(readers, r, k, outp, o);
    runp.MoveTo(outp, readers, r, k, o);
  }

  /** The body of the inner loop of poll_readers, for a reader that was seen in state st. */
  method PollOne(runp: TdLink, st: ReaderState, ghost readers: TdLink, outp: TdLink?, qsp: TdLink,
                 ghost r: seq<TdLink>, ghost k: nat, ghost o: seq<TdLink>, ghost q: seq<TdLink>)
    requires ThreeRings(readers, r, outp, o, qsp, q) && k < |r| && r[k] == runp
    modifies Foot(readers, r), Foot(outp, o), Foot(qsp, q)
    ensures
      var to := Goes(st, outp != null);
      var r' := if to == Stays then r else r[..k] + r[k + 1..];
      var o' := if to == ToOut then [runp] + o else o;
      var q' := if to == ToQs then [runp] + q else q;
      && ThreeRings(readers, r', outp, o', qsp, q')
      && Foot(readers, r') + Foot(outp, o') + Foot(qsp, q') == Foot(readers, r) + Foot(outp, o) + Foot(qsp, q)
  {
    if outp != null {
      FootMoved(readers, r, k, outp, o);
    }
    FootMoved(readers, r, k, qsp, q);
    match st {
      case Active =>
        if outp != null {
          ToOutRing(runp, readers, outp, qsp, r, k, o, q);
        } else {
          ToQsRing(runp, readers, outp, qsp, r, k, o, q);
        }
      case Inactive =>
        ToQsRing(runp, readers, outp, qsp, r, k, o, q);
      case Old =>
    }
  }

  /** The state of a pass after n readers. */
  ghost predicate Passing(readers: TdLink, outp: TdLink?, qsp: TdLink, view: View, s: seq<TdLink>,
                          o: seq<TdLink>, q: seq<TdLink>, n: nat, all: set<TdLink>)
    requires n <= |s|
    reads all
  {
    var hasOut := outp != null;
    var r, o', q' := Rest(s, view, hasOut, n), Grown(s, view, hasOut, ToOut, n, o), Grown(s, view, hasOut, ToQs, n, q);
    && Foot(readers, r) + Foot(outp, o') + Foot(qsp, q') == all
    && ThreeRings(readers, r, outp, o', qsp, q')
  }

  /** One round of the inner loop of poll_readers. */
  method PollNext(runp: TdLink, ghost readers: TdLink, outp: TdLink?, qsp: TdLink, view: View, ghost s: seq<TdLink>,
                  ghost o: seq<TdLink>, ghost q: seq<TdLink>, ghost n: nat, ghost all: set<TdLink>)
      returns (next: TdLink)
    requires n < |s| && s[n] == runp && Passing(readers, outp, qsp, view, s, o, q, n, all)
    modifies all
    ensures Passing(readers, outp, qsp, view, s, o, q, n + 1, all)
    ensures next == (if n + 1 < |s| then s[n + 1] else readers) && (next == readers <==> n + 1 == |s|)
  {
    ghost var hasOut := outp != null;
    ghost var r, o' := Rest(s, view, hasOut, n), Grown(s, view, hasOut, ToOut, n, o);
    ghost var q' := Grown(s, view, hasOut, ToQs, n, q);
    ghost var k := |Kept(s, view, hasOut, n)|;
    RestStep(s, view, hasOut, n);
    GrownStep(s, view, hasOut, ToOut, n, o);
    GrownStep(s, view, hasOut, ToQs, n, q);
    Neighbours(readers, r, k);
    next := runp.next;
    if n + 1 < |s| {
      Neighbours(readers, r, k + 1);
    }
    PollOne(runp, view(runp), readers, outp, qsp, r, k, o', q');
  }

  /** The inner loop of poll_readers: one pass over the readers' ring. */
  method PollPass(readers: TdLink, outp: TdLink?, qsp: TdLink, view: View, ghost s: seq<TdLink>,
                  ghost o: seq<TdLink>, ghost q: seq<TdLink>)
    requires ThreeRings(readers, s, outp, o, qsp, q)
    modifies Foot(readers, s), Foot(outp, o), Foot(qsp, q)
    ensures Passing(readers, outp, qsp, view, s, o, q, |s|, Foot(readers, s) + Foot(outp, o) + Foot(qsp, q))
    ensures Rest(s, view, outp != null, |s|) == Kept(s, view, outp != null, |s|)
  {
    ghost var i, all := 0, Foot(readers, s) + Foot(outp, o) + Foot(qsp, q);
    PassBegins(s, view, outp != null, o, q);
    var runp := FirstReader(readers, s);
    while runp != readers
      invariant i <= |s| && (runp == readers <==> i == |s|) && (i < |s| ==> runp == s[i])
      invariant Passing(readers, outp, qsp, view, s, o, q, i, all)
      decreases |s| - i
    {
      runp := PollNext(runp, readers, outp, qsp, view, s, o, q, i, all);
      i := i + 1;
    }
  }

  method FirstReader(readers: TdLink, ghost s: seq<TdLink>) returns (runp: TdLink)
    requires Ring(readers, s)
    ensures (runp == readers <==> s == []) && (s != [] ==> runp == s[0])
  {
    Ends(readers, s);
    runp := readers.next;
  }
}
