/** poll_readers and the ring work of registry::sync on the heap, while threads register and exit
    whenever the mutex is dropped. What happens to the three rings is what the sets of the step
    relation do. */
module RingPolls {
  import opened Common
  import opened ReaderRings
  import opened Rings

  ghost function Elems(s: seq<TdLink>): set<TdLink> {
    set x | x in s
  }

  /** The heads of the three rings; the source has the last two on the stack of sync. */
  datatype Heads = Heads(root: TdLink, out: TdLink, qs: TdLink)

  /** What the three rings hold, in order. */
  datatype Held = Held(root: seq<TdLink>, out: seq<TdLink>, qs: seq<TdLink>)

  ghost function PlacesOf(g: Held): Places<TdLink> {
    Places(Elems(g.root), Elems(g.out), Elems(g.qs))
  }

  ghost function AllFeet(h: Heads, g: Held): set<TdLink> {
    Foot(h.root, g.root) + Foot(h.out, g.out) + Foot(h.qs, g.qs)
  }

  ghost function HeadsOf(h: Heads): set<TdLink> {
    {h.root, h.out, h.qs}
  }

  /** All links of the three rings. */
  ghost function Links(h: Heads, p: Places<TdLink>): set<TdLink> {
    HeadsOf(h) + p.Members()
  }

  /** The three rings hold what p says. */
  ghost predicate Registry(h: Heads, g: Held, p: Places<TdLink>)
    reads AllFeet(h, g)
  {
    && ThreeRings(h.root, g.root, h.out, g.out, h.qs, g.qs)
    && p == PlacesOf(g)
  }

  lemma FeetAreLinks(h: Heads, g: Held)
    ensures AllFeet(h, g) == Links(h, PlacesOf(g))
  {
  }

  // ----- One pass -----

  /** The links of s that a pass moves to a place, or leaves where they are. */
  ghost function Going(s: seq<TdLink>, view: View, hasOut: bool, to: Place): set<TdLink> {
    set x | x in s && Goes(view(x), hasOut) == to
  }

  lemma JoinedElems(s: seq<TdLink>, t: seq<TdLink>)
    ensures Elems(s + t) == Elems(s) + Elems(t)
  {
  }

  lemma GoingLast(s: seq<TdLink>, n: nat, view: View, hasOut: bool, to: Place)
    requires 0 < n <= |s|
    ensures Going(s[..n], view, hasOut, to)
            == Going(s[..n - 1], view, hasOut, to) + if Goes(view(s[n - 1]), hasOut) == to then {s[n - 1]} else {}
  {
    assert s[..n] == s[..n - 1] + [s[n - 1]];
    assert Elems(s[..n]) == Elems(s[..n - 1]) + {s[n - 1]};
  }

  lemma {:induction false} KeptElems(s: seq<TdLink>, view: View, hasOut: bool, n: nat)
    requires n <= |s|
    ensures Elems(Kept(s, view, hasOut, n)) == Going(s[..n], view, hasOut, Stays)
  {
    if n > 0 {
      KeptElems(s, view, hasOut, n - 1);
      GoingLast(s, n, view, hasOut, Stays);
      JoinedElems(Kept(s, view, hasOut, n - 1), [s[n - 1]]);
    }
  }

  lemma {:induction false} MovedElems(s: seq<TdLink>, view: View, hasOut: bool, to: Place, n: nat)
    requires n <= |s|
    ensures Elems(Moved(s, view, hasOut, to, n)) == Going(s[..n], view, hasOut, to)
  {
    if n > 0 {
      MovedElems(s, view, hasOut, to, n - 1);
      GoingLast(s, n, view, hasOut, to);
      JoinedElems([s[n - 1]], Moved(s, view, hasOut, to, n - 1));
    }
  }

  /** What a pass does to its rings, as sets. */
  lemma PassElems(s: seq<TdLink>, view: View, hasOut: bool, o: seq<TdLink>, q: seq<TdLink>)
    ensures Elems(Kept(s, view, hasOut, |s|)) == Going(s, view, hasOut, Stays)
    ensures Elems(Grown(s, view, hasOut, ToOut, |s|, o)) == Elems(o) + Going(s, view, hasOut, ToOut)
    ensures Elems(Grown(s, view, hasOut, ToQs, |s|, q)) == Elems(q) + Going(s, view, hasOut, ToQs)
  {
    assert s[..|s|] == s;
    KeptElems(s, view, hasOut, |s|);
    MovedElems(s, view, hasOut, ToOut, |s|);
    MovedElems(s, view, hasOut, ToQs, |s|);
    JoinedElems(Moved(s, view, hasOut, ToOut, |s|), o);
    JoinedElems(Moved(s, view, hasOut, ToQs, |s|), q);
  }

  lemma GoingFound(s: seq<TdLink>, view: View)
    ensures Going(s, view, true, ToOut) == Found(Elems(s), view, Active)
    ensures Going(s, view, true, ToQs) == Found(Elems(s), view, Inactive)
    ensures Going(s, view, false, ToQs) == Found(Elems(s), view, Active) + Found(Elems(s), view, Inactive)
  {
  }

  lemma StayingFound(s: seq<TdLink>, view: View, hasOut: bool)
    ensures Going(s, view, hasOut, Stays)
            == Elems(s) - Found(Elems(s), view, Active) - Found(Elems(s), view, Inactive)
  {
  }

  /** The sets of a pass are those of the step relation. */
  lemma FirstPassPlaces(r: seq<TdLink>, o: seq<TdLink>, q: seq<TdLink>, view: View)
    ensures Passed(Places(Elems(r), Elems(o), Elems(q)), false, view)
            == Places(Elems(Kept(r, view, true, |r|)), Elems(Grown(r, view, true, ToOut, |r|, o)),
                      Elems(Grown(r, view, true, ToQs, |r|, q)))
  {
    PassElems(r, view, true, o, q);
    GoingFound(r, view);
    StayingFound(r, view, true);
  }

  lemma SecondPassPlaces(r: seq<TdLink>, o: seq<TdLink>, q: seq<TdLink>, view: View)
    ensures Passed(Places(Elems(r), Elems(o), Elems(q)), true, view)
            == Places(Elems(r), Elems(Kept(o, view, false, |o|)), Elems(Grown(o, view, false, ToQs, |o|, q)))
  {
    PassElems(o, view, false, [], q);
    GoingFound(o, view);
    StayingFound(o, view, false);
  }

  /** A pass of the first poll. */
  method FirstPass(h: Heads, view: View, ghost g: Held, ghost p: Places<TdLink>) returns (ghost g': Held)
    requires Registry(h, g, p)
    modifies Links(h, p)
    ensures Registry(h, g', Passed(p, false, view))
  {
    FeetAreLinks(h, g);
    FirstPassPlaces(g.root, g.out, g.qs, view);
    PassKeeps(p, false, view);
    PollPass(h.root, h.out, h.qs, view, g.root, g.out, g.qs);
    ghost var n := |g.root|;
    g' := Held(Kept(g.root, view, true, n), Grown(g.root, view, true, ToOut, n, g.out),
               Grown(g.root, view, true, ToQs, n, g.qs));
  }

  /** A pass of the second poll leaves root alone. */
  method SecondPass(h: Heads, view: View, ghost g: Held, ghost p: Places<TdLink>) returns (ghost g': Held)
    requires Registry(h, g, p)
    modifies Links(h, p)
    ensures Registry(h, g', Passed(p, true, view))
  {
    FeetAreLinks(h, g);
    SecondPassPlaces(g.root, g.out, g.qs, view);
    PassKeeps(p, true, view);
    PollPass(h.out, null, h.qs, view, g.out, [], g.qs);
    ghost var n := |g.out|;
    g' := Held(g.root, Kept(g.out, view, false, n), Grown(g.out, view, false, ToQs, n, g.qs));
  }

  lemma EmptyElems(s: seq<TdLink>)
    ensures Elems(s) == {} <==> s == []
  {
    assert s != [] ==> s[0] in Elems(s);
  }

  /** empty_p of the readers' ring */
  method NoReaders(h: Heads, second: bool, ghost g: Held, ghost p: Places<TdLink>) returns (empty: bool)
    requires Registry(h, g, p)
    ensures empty == (p.Readers(second) == {})
  {
    var readers := if second then h.out else h.root;
    ghost var s := if second then g.out else g.root;
    Ends(readers, s);
    EmptyElems(s);
    empty := readers == readers.next;
  }

  // ----- Between two passes -----

  lemma CutElems(h: TdLink, s: seq<TdLink>, i: nat)
    requires Distinct([h] + s) && i < |s|
    ensures Elems(s[..i] + s[i + 1..]) == Elems(s) - {s[i]}
  {
    FootMoved(h, s, i, h, []);
    DistinctCut(h, s, i);
  }

  /** add_tdata: a thread registers. */
  method Register(x: TdLink, h: Heads, ghost g: Held, ghost p: Places<TdLink>) returns (ghost g': Held)
    requires Registry(h, g, p) && x !in Links(h, p)
    modifies Links(h, p), x
    ensures Registry(h, g', Changed(p, Registers(x)))
  {
    FeetAreLinks(h, g);
    Ends(h.root, g.root);
    x.Add(h.root, g.root);
    g' := g.(root := [x] + g.root);
    JoinedElems([x], g.root);
  }

  /** del, for the i-th link of a ring, whichever ring it is. */
  method Unlink(x: TdLink, ghost head: TdLink, ghost s: seq<TdLink>, ghost i: nat)
    requires Ring(head, s) && i < |s| && s[i] == x
    modifies Foot(head, s)
    ensures Ring(head, s[..i] + s[i + 1..]) && Foot(head, s[..i] + s[i + 1..]) == Foot(head, s) - {x}
    ensures Elems(s[..i] + s[i + 1..]) == Elems(s) - {x} && x in Foot(head, s)
  {
    Neighbours(head, s, i);
    FootMoved(head, s, i, head, []);
    CutElems(head, s, i);
    x.Del(head, s, i);
  }

  /** The ring that holds a registered link, and its place there. */
  ghost predicate LiesIn(x: TdLink, h: Heads, g: Held, head: TdLink, s: seq<TdLink>, i: nat) {
    && i < |s| && s[i] == x
    && ((head == h.root && s == g.root) || (head == h.out && s == g.out) || (head == h.qs && s == g.qs))
  }

  lemma Locate(x: TdLink, h: Heads, g: Held) returns (head: TdLink, s: seq<TdLink>, i: nat)
    requires x in PlacesOf(g).Members()
    ensures LiesIn(x, h, g, head, s, i)
  {
    head, s :=
      if x in g.root then h.root else if x in g.out then h.out else h.qs,
      if x in g.root then g.root else if x in g.out then g.out else g.qs;
    i :| 0 <= i < |s| && s[i] == x;
  }

  /** The end of ~tl_data: a thread unlinks itself from whichever ring it is in. */
  method Exit(x: TdLink, h: Heads, ghost g: Held, ghost p: Places<TdLink>) returns (ghost g': Held)
    requires Registry(h, g, p) && x in p.Members()
    modifies Links(h, p)
    ensures Registry(h, g', Changed(p, Exits(x)))
  {
    FeetAreLinks(h, g);
    ghost var head, s, i := Locate(x, h, g);
    Unlink(x, head, s, i);
    ghost var s' := s[..i] + s[i + 1..];
    g' := if head == h.root then g.(root := s') else if head == h.out then g.(out := s') else g.(qs := s');
  }

  ghost predicate Within(chs: seq<Change<TdLink>>, world: set<TdLink>) {
    forall i :: 0 <= i < |chs| ==> chs[i].x in world
  }

  method OneChange(ch: Change<TdLink>, h: Heads, ghost g: Held, ghost p: Places<TdLink>) returns (ghost g': Held)
    requires Registry(h, g, p) && CanChange(p.Members(), HeadsOf(h), ch)
    modifies Links(h, p), ch.x
    ensures Registry(h, g', Changed(p, ch))
  {
    match ch {
      case Registers(x) =>
        g' := Register(x, h, g, p);
      case Exits(x) =>
        g' := Exit(x, h, g, p);
    }
  }

  /** The mutex is dropped, and threads come and go. */
  method Interlude(chs: seq<Change<TdLink>>, h: Heads, ghost g: Held, ghost p: Places<TdLink>,
                   ghost world: set<TdLink>)
      returns (ghost g': Held)
    requires Registry(h, g, p) && CanAllChange(p.Members(), HeadsOf(h), chs)
    requires Links(h, p) <= world && Within(chs, world)
    modifies world
    ensures Registry(h, g', ChangedBy(p, chs)) && Links(h, ChangedBy(p, chs)) <= world
  {
    g' := g;
    ghost var p' := p;
    var i := 0;
    while i < |chs|
      invariant 0 <= i <= |chs| && Links(h, p') <= world && Registry(h, g', p')
      invariant CanAllChange(p'.Members(), HeadsOf(h), chs[i..])
      invariant ChangedBy(p', chs[i..]) == ChangedBy(p, chs)
    {
      ChangesRest(p', HeadsOf(h), chs, i);
      g' := OneChange(chs[i], h, g', p');
      p' := Changed(p', chs[i]);
      i := i + 1;
    }
  }

  // ----- Both polls -----

  ghost predicate AllWithin(rounds: seq<Round<TdLink>>, world: set<TdLink>) {
    forall i :: 0 <= i < |rounds| ==> Within(rounds[i].changes, world)
  }

  method OnePass(h: Heads, second: bool, view: View, ghost g: Held, ghost p: Places<TdLink>)
      returns (empty: bool, ghost g': Held)
    requires Registry(h, g, p)
    modifies Links(h, p)
    ensures Registry(h, g', Passed(p, second, view))
    ensures empty == (Passed(p, second, view).Readers(second) == {})
  {
    if second {
      g' := SecondPass(h, view, g, p);
    } else {
      g' := FirstPass(h, view, g, p);
    }
    empty := NoReaders(h, second, g', Passed(p, second, view));
  }

  /** A poll that has come to p' has the rounds from k on before it, and leads where it did from p. */
  ghost predicate PollGoesOn(p': Places<TdLink>, heads: set<TdLink>, second: bool, rounds: seq<Round<TdLink>>,
                             k: nat, result: (bool, Places<TdLink>))
  {
    k <= |rounds| && CanPoll(p', heads, second, rounds[k..]) && Polled(p', second, rounds[k..]) == result
  }

  lemma PollStarts(p: Places<TdLink>, heads: set<TdLink>, second: bool, rounds: seq<Round<TdLink>>)
    requires CanPoll(p, heads, second, rounds)
    ensures PollGoesOn(p, heads, second, rounds, 0, Polled(p, second, rounds))
  {
    assert rounds[0..] == rounds;
  }

  /** One round of the outer loop of poll_readers. */
  method PollRound(h: Heads, second: bool, rounds: seq<Round<TdLink>>, k: nat, ghost g: Held,
                   ghost p: Places<TdLink>, ghost world: set<TdLink>, ghost result: (bool, Places<TdLink>))
      returns (empty: bool, ghost g': Held, ghost p': Places<TdLink>)
    requires k < |rounds| && Registry(h, g, p) && PollGoesOn(p, HeadsOf(h), second, rounds, k, result)
    requires Links(h, p) <= world && Within(rounds[k].changes, world)
    modifies world
    ensures Registry(h, g', p') && Links(h, p') <= world
    ensures if empty then result == (true, p') else PollGoesOn(p', HeadsOf(h), second, rounds, k + 1, result)
  {
    PollRest(p, HeadsOf(h), second, rounds, k);
    empty, g' := OnePass(h, second, rounds[k].view, g, p);
    p' := Passed(p, second, rounds[k].view);
    if !empty {
      g' := Interlude(rounds[k].changes, h, g', p', world);
      p' := ChangedBy(p', rounds[k].changes);
    }
  }

  method PollPasses(h: Heads, second: bool, rounds: seq<Round<TdLink>>, ghost g: Held, ghost p: Places<TdLink>,
                    ghost world: set<TdLink>, ghost result: (bool, Places<TdLink>))
      returns (done: bool, ghost g': Held)
    requires Registry(h, g, p) && PollGoesOn(p, HeadsOf(h), second, rounds, 0, result)
    requires Links(h, p) <= world && AllWithin(rounds, world)
    modifies world
    ensures done == result.0 && Registry(h, g', result.1) && Links(h, result.1) <= world
  {
    g' := g;
    ghost var p' := p;
    var loops := 0;
    while loops < |rounds|
      invariant 0 <= loops <= |rounds| && Links(h, p') <= world && Registry(h, g', p')
      invariant PollGoesOn(p', HeadsOf(h), second, rounds, loops, result)
    {
      var empty;
      empty, g', p' := PollRound(h, second, rounds, loops, g', p', world, result);
      if empty {
        return true, g';
      }
      loops := loops + 1;
    }
    return false, g';
  }

  /** poll_readers, for as many passes as there are rounds; the source goes on until the readers' ring
      is empty. */
  method PollReaders(h: Heads, second: bool, rounds: seq<Round<TdLink>>, ghost g: Held, ghost p: Places<TdLink>,
                     ghost world: set<TdLink>)
      returns (done: bool, ghost g': Held)
    requires Registry(h, g, p) && CanPoll(p, HeadsOf(h), second, rounds)
    requires Links(h, p) <= world && AllWithin(rounds, world)
    modifies world
    ensures done == Polled(p, second, rounds).0
    ensures done <==> exists k: nat :: k < |rounds| && SeesNoOld(p, second, rounds, k)
    ensures Registry(h, g', Polled(p, second, rounds).1) && Links(h, Polled(p, second, rounds).1) <= world
  {
    PollEnds(p, second, rounds);
    PollStarts(p, HeadsOf(h), second, rounds);
    done, g' := PollPasses(h, second, rounds, g, p, world, Polled(p, second, rounds));
  }

  method SpliceBack(h: Heads, ghost g: Held, ghost p: Places<TdLink>) returns (ghost r: seq<TdLink>)
    requires Registry(h, g, p)
    modifies Links(h, p)
    ensures Ring(h.root, r) && Elems(r) == p.Spliced().root
  {
    FeetAreLinks(h, g);
    h.qs.Splice(h.root, g.qs, g.root);
    JoinedElems(g.qs, g.root);
    r := g.qs + g.root;
  }

  /** The ring work of registry::sync: both polls, with the flip between them left to their views,
      and the splice. */
  method RunSync(h: Heads, first: seq<Round<TdLink>>, second: seq<Round<TdLink>>,
                   ghost r: seq<TdLink>, ghost p: Places<TdLink>, ghost world: set<TdLink>)
      returns (done: bool, ghost g: Held)
    requires Ring(h.root, r) && p == Places(Elems(r), {}, {})
    requires Foot(h.root, r) !! {h.out} !! {h.qs}
    requires CanSync(p, HeadsOf(h), first, second)
    requires Links(h, p) <= world && AllWithin(first, world) && AllWithin(second, world)
    modifies world
    ensures done == Synced(p, first, second).0
    ensures done ==> Ring(h.root, g.root) && Elems(g.root) == Synced(p, first, second).1.root
    ensures !done ==> Registry(h, g, Synced(p, first, second).1)
  {
    FeetAreLinks(h, Held(r, [], []));
    g := Held(r, [], []);
    EmptyElems(r);
    Ends(h.root, r);
    if h.root == h.root.next {
      return true, g;
    }
    h.qs.InitHead();
    h.out.InitHead();
    done, g := PollReaders(h, false, first, g, p, world);
    if !done {
      return;
    }
    ghost var p1 := Polled(p, false, first).1;
    done, g := PollReaders(h, true, second, g, p1, world);
    if !done {
      return;
    }
    ghost var back := SpliceBack(h, g, Polled(p1, true, second).1);
    g := Held(back, [], []);
  }

  /** A sync while threads come and go. At its end, or wherever it still waits, the rings are well
      formed and hold who is registered, from before or since; at the end all of them are in root. */
  method SyncRings(h: Heads, first: seq<Round<TdLink>>, second: seq<Round<TdLink>>,
                   ghost r: seq<TdLink>, ghost p: Places<TdLink>, ghost world: set<TdLink>)
      returns (done: bool, ghost g: Held, ghost i: nat, ghost j: nat)
    requires Ring(h.root, r) && p == Places(Elems(r), {}, {})
    requires Foot(h.root, r) !! {h.out} !! {h.qs}
    requires CanSync(p, HeadsOf(h), first, second)
    requires Links(h, p) <= world && AllWithin(first, world) && AllWithin(second, world)
    modifies world
    ensures done == Synced(p, first, second).0 && i <= |first| && j <= |second|
    ensures
      var chs := AllChanges(first[..i]) + AllChanges(second[..j]);
      var members := LiveAll(Elems(r), chs);
      if done then Ring(h.root, g.root) && Elems(g.root) == members
      else ThreeRings(h.root, g.root, h.out, g.out, h.qs, g.qs) && PlacesOf(g).Members() == members
  {
    i, j := SyncKeeps(p, HeadsOf(h), first, second);
    done, g := RunSync(h, first, second, r, p, world);
  }
}
