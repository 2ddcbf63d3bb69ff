/** Where the readers of src/xrcu.cpp are during a grace period, as sets: the ring of registered
    threads and the two rings that sync builds. The step relation keeps these sets for thread
    identifiers, the rings on the heap for the links themselves. */
module ReaderRings {
  /** What tl_data::state finds for a reader. */
  datatype ReaderState = Active | Inactive | Old

  datatype Places<T(==)> = Places(root: set<T>, out: set<T>, qs: set<T>) {
    function Remove(u: T): Places<T> {
      Places(root - {u}, out - {u}, qs - {u})
    }

    /** The ring that a call of poll_readers empties; `second` tells the two calls apart. */
    function Readers(second: bool): set<T> {
      if second then out else root
    }

    function Members(): set<T> {
      root + out + qs
    }

    /** One iteration of the inner loop of poll_readers: an active reader falls through to the
        inactive case when the call has no ring for active readers. */
    function Visited(second: bool, u: T, st: ReaderState): Places<T> {
      match st
      case Old => this
      case Inactive => Remove(u).AddQs(u)
      case Active => if second then Remove(u).AddQs(u) else Remove(u).AddOut(u)
    }

    function AddRoot(u: T): Places<T> {
      this.(root := root + {u})
    }

    function AddOut(u: T): Places<T> {
      this.(out := out + {u})
    }

    function AddQs(u: T): Places<T> {
      this.(qs := qs + {u})
    }

    /** splice, of qs into root */
    function Spliced(): Places<T> {
      this.(root := root + qs, qs := {})
    }
  }

  // ----- One pass -----

  /** Those of some readers that a pass finds in state st. */
  function Found<T>(seen: set<T>, view: T -> ReaderState, st: ReaderState): set<T> {
    set x | x in seen && view(x) == st
  }

  /** A pass that has visited the readers in `seen`, and what it found. */
  function PartPassed<T>(p: Places<T>, second: bool, view: T -> ReaderState, seen: set<T>): Places<T> {
    var active, inactive := Found(seen, view, Active), Found(seen, view, Inactive);
    if second then Places(p.root, p.out - active - inactive, p.qs + active + inactive)
    else Places(p.root - active - inactive, p.out + active, p.qs + inactive)
  }

  /** What a whole pass makes of the three rings. */
  function Passed<T>(p: Places<T>, second: bool, view: T -> ReaderState): Places<T> {
    PartPassed(p, second, view, p.Readers(second))
  }

  ghost predicate Apart<T>(p: Places<T>) {
    p.root !! p.out && p.root !! p.qs && p.out !! p.qs
  }

  lemma FoundOne<T>(seen: set<T>, view: T -> ReaderState, st: ReaderState, u: T)
    ensures Found(seen + {u}, view, st) == Found(seen, view, st) + if view(u) == st then {u} else {}
  {
  }

  /** A pass is one visit after the other, in whatever order. */
  lemma PassVisits<T>(p: Places<T>, second: bool, view: T -> ReaderState, seen: set<T>, u: T)
    requires Apart(p) && seen <= p.Readers(second) && u in p.Readers(second) && u !in seen
    ensures PartPassed(p, second, view, seen + {u}) == PartPassed(p, second, view, seen).Visited(second, u, view(u))
  {
    FoundOne(seen, view, Active, u);
    FoundOne(seen, view, Inactive, u);
  }

  /** A pass loses and invents nobody, and empties the ring if and only if it has seen no old
      reader. */
  lemma PassKeeps<T>(p: Places<T>, second: bool, view: T -> ReaderState)
    ensures Passed(p, second, view).Members() == p.Members()
    ensures Apart(p) ==> Apart(Passed(p, second, view))
    ensures Passed(p, second, view).Readers(second) == {}
            <==> forall x :: x in p.Readers(second) ==> view(x) != Old
  {
    var r := p.Readers(second);
    assert Passed(p, second, view).Readers(second) == Found(r, view, Old);
    if Passed(p, second, view).Readers(second) == {} {
      forall x | x in r ensures view(x) != Old {
        assert x !in Passed(p, second, view).Readers(second);
      }
    }
  }

  // ----- Threads that come and go between two passes -----

  datatype Change<T> = Registers(x: T) | Exits(x: T)

  function Changed<T>(p: Places<T>, ch: Change<T>): Places<T> {
    match ch
    case Registers(x) => p.AddRoot(x)
    case Exits(x) => p.Remove(x)
  }

  function ChangedBy<T>(p: Places<T>, chs: seq<Change<T>>): Places<T>
    decreases |chs|
  {
    if chs == [] then p else ChangedBy(Changed(p, chs[0]), chs[1..])
  }

  function LiveAfter<T>(live: set<T>, ch: Change<T>): set<T> {
    match ch
    case Registers(x) => live + {x}
    case Exits(x) => live - {x}
  }

  /** Who is registered after some changes, if those in `live` were before. */
  function LiveAll<T>(live: set<T>, chs: seq<Change<T>>): set<T>
    decreases |chs|
  {
    if chs == [] then live else LiveAll(LiveAfter(live, chs[0]), chs[1..])
  }

  /** A record registers while it is in no ring and is no ring's head, whether or not it has been in
      a ring before; it exits while it is registered. */
  predicate CanChange<T>(live: set<T>, heads: set<T>, ch: Change<T>) {
    match ch
    case Registers(x) => x !in live && x !in heads
    case Exits(x) => x in live
  }

  predicate CanAllChange<T>(live: set<T>, heads: set<T>, chs: seq<Change<T>>)
    decreases |chs|
  {
    chs == [] || (CanChange(live, heads, chs[0]) && CanAllChange(LiveAfter(live, chs[0]), heads, chs[1..]))
  }

  ghost predicate LastChange<T>(chs: seq<Change<T>>, x: T, i: nat) {
    i < |chs| && chs[i].x == x && forall j :: i < j < |chs| ==> chs[j].x != x
  }

  /** Registered at the end is whoever has registered last and not exited since, or was registered
      at the start and has done neither. */
  lemma {:induction false} LiveIff<T>(live: set<T>, chs: seq<Change<T>>, x: T)
    ensures x in LiveAll(live, chs)
            <==> (exists i: nat :: LastChange(chs, x, i) && chs[i].Registers?)
                 || (x in live && forall i :: 0 <= i < |chs| ==> chs[i].x != x)
    decreases |chs|
  {
    if chs != [] {
      var rest := chs[1..];
      LiveIff(LiveAfter(live, chs[0]), rest, x);
      forall i: nat | i < |rest| ensures LastChange(chs, x, i + 1) <==> LastChange(rest, x, i) {
        LastLater(chs, x, i);
      }
      if i: nat :| LastChange(rest, x, i) && rest[i].Registers? {
        assert LastChange(chs, x, i + 1) && chs[i + 1].Registers?;
      }
      if i: nat :| LastChange(chs, x, i) && chs[i].Registers? {
        if i > 0 {
          assert LastChange(rest, x, i - 1) && rest[i - 1].Registers?;
        } else {
          assert forall j :: 0 <= j < |rest| ==> rest[j].x != x;
        }
      }
      if forall i :: 0 <= i < |rest| ==> rest[i].x != x {
        assert chs[0].x == x ==> LastChange(chs, x, 0);
      }
    }
  }

  lemma LastLater<T>(chs: seq<Change<T>>, x: T, i: nat)
    requires i + 1 < |chs|
    ensures LastChange(chs, x, i + 1) <==> LastChange(chs[1..], x, i)
  {
    if LastChange(chs[1..], x, i) {
      forall j | i + 1 < j < |chs| ensures chs[j].x != x {
        assert chs[1..][j - 1] == chs[j];
      }
    }
  }

  /** Whichever rings the changes find their records in, the rings together hold who is registered. */
  lemma {:induction false} ChangesMembers<T>(p: Places<T>, chs: seq<Change<T>>)
    ensures ChangedBy(p, chs).Members() == LiveAll(p.Members(), chs)
    decreases |chs|
  {
    if chs != [] {
      assert Changed(p, chs[0]).Members() == LiveAfter(p.Members(), chs[0]);
      ChangesMembers(Changed(p, chs[0]), chs[1..]);
    }
  }

  lemma {:induction false} ChangesApart<T>(p: Places<T>, heads: set<T>, chs: seq<Change<T>>)
    requires Apart(p) && CanAllChange(p.Members(), heads, chs)
    ensures Apart(ChangedBy(p, chs))
    decreases |chs|
  {
    if chs != [] {
      assert Changed(p, chs[0]).Members() == LiveAfter(p.Members(), chs[0]);
      ChangesApart(Changed(p, chs[0]), heads, chs[1..]);
    }
  }

  lemma ChangesRest<T>(p: Places<T>, heads: set<T>, chs: seq<Change<T>>, i: nat)
    requires i < |chs| && CanAllChange(p.Members(), heads, chs[i..])
    ensures
      var p1 := Changed(p, chs[i]);
      && CanChange(p.Members(), heads, chs[i])
      && CanAllChange(p1.Members(), heads, chs[i + 1..])
      && ChangedBy(p, chs[i..]) == ChangedBy(p1, chs[i + 1..])
  {
    assert chs[i..][0] == chs[i] && chs[i..][1..] == chs[i + 1..];
    assert Changed(p, chs[i]).Members() == LiveAfter(p.Members(), chs[i]);
  }

  lemma {:induction false} LiveJoined<T>(live: set<T>, a: seq<Change<T>>, b: seq<Change<T>>)
    ensures LiveAll(live, a + b) == LiveAll(LiveAll(live, a), b)
    decreases |a|
  {
    if a == [] {
      assert a + b == b;
    } else {
      LiveJoined(LiveAfter(live, a[0]), a[1..], b);
      assert (a + b)[1..] == a[1..] + b;
    }
  }

  // ----- Polls -----

  /** A pass, and what happens while the mutex is dropped after it. */
  datatype Round<!T> = Round(view: T -> ReaderState, changes: seq<Change<T>>)

  /** poll_readers: passes until one leaves the readers' ring empty. The answer is whether that
      happens within the rounds given. */
  function Polled<T>(p: Places<T>, second: bool, rounds: seq<Round<T>>): (bool, Places<T>)
    decreases |rounds|
  {
    if rounds == [] then (false, p)
    else
      var p' := Passed(p, second, rounds[0].view);
      if p'.Readers(second) == {} then (true, p')
      else Polled(ChangedBy(p', rounds[0].changes), second, rounds[1..])
  }

  /** All changes that take place during a poll are possible when they do. */
  predicate CanPoll<T>(p: Places<T>, heads: set<T>, second: bool, rounds: seq<Round<T>>)
    decreases |rounds|
  {
    if rounds == [] then true
    else
      var p' := Passed(p, second, rounds[0].view);
      || p'.Readers(second) == {}
      || (CanAllChange(p'.Members(), heads, rounds[0].changes)
          && CanPoll(ChangedBy(p', rounds[0].changes), heads, second, rounds[1..]))
  }

  lemma PollRest<T>(p: Places<T>, heads: set<T>, second: bool, rounds: seq<Round<T>>, k: nat)
    requires k < |rounds| && CanPoll(p, heads, second, rounds[k..])
    ensures
      var p' := Passed(p, second, rounds[k].view);
      if p'.Readers(second) == {} then Polled(p, second, rounds[k..]) == (true, p')
      else
        var p1 := ChangedBy(p', rounds[k].changes);
        && CanAllChange(p'.Members(), heads, rounds[k].changes)
        && CanPoll(p1, heads, second, rounds[k + 1..])
        && Polled(p, second, rounds[k..]) == Polled(p1, second, rounds[k + 1..])
  {
    assert rounds[k..][0] == rounds[k] && rounds[k..][1..] == rounds[k + 1..];
  }

  /** The readers before pass k, if no earlier pass was the last one. */
  function ReadersAt<T>(p: Places<T>, second: bool, rounds: seq<Round<T>>, k: nat): set<T>
    requires k < |rounds|
    decreases |rounds|
  {
    if k == 0 then p.Readers(second)
    else
      ReadersAt(ChangedBy(Passed(p, second, rounds[0].view), rounds[0].changes), second, rounds[1..], k - 1)
  }

  ghost predicate SeesNoOld<T>(p: Places<T>, second: bool, rounds: seq<Round<T>>, k: nat)
    requires k < |rounds|
  {
    forall x :: x in ReadersAt(p, second, rounds, k) ==> rounds[k].view(x) != Old
  }

  /** A poll comes to its end if and only if one of its passes sees no old reader. */
  lemma {:induction false} PollEnds<T>(p: Places<T>, second: bool, rounds: seq<Round<T>>)
    ensures Polled(p, second, rounds).0 <==> exists k: nat :: k < |rounds| && SeesNoOld(p, second, rounds, k)
    ensures Polled(p, second, rounds).0 ==> Polled(p, second, rounds).1.Readers(second) == {}
    decreases |rounds|
  {
    if rounds != [] {
      var p' := Passed(p, second, rounds[0].view);
      var p1 := ChangedBy(p', rounds[0].changes);
      PassKeeps(p, second, rounds[0].view);
      PollEnds(p1, second, rounds[1..]);
      assert SeesNoOld(p, second, rounds, 0) <==> p'.Readers(second) == {};
      forall k: nat | k < |rounds| - 1
        ensures SeesNoOld(p, second, rounds, k + 1) <==> SeesNoOld(p1, second, rounds[1..], k)
      {
        SeesLater(p, second, rounds, k);
      }
      if k: nat :| k < |rounds| && SeesNoOld(p, second, rounds, k) {
        if k > 0 {
          assert SeesNoOld(p1, second, rounds[1..], k - 1);
        }
      }
    }
  }

  lemma SeesLater<T>(p: Places<T>, second: bool, rounds: seq<Round<T>>, k: nat)
    requires k + 1 < |rounds|
    ensures
      var p1 := ChangedBy(Passed(p, second, rounds[0].view), rounds[0].changes);
      SeesNoOld(p, second, rounds, k + 1) <==> SeesNoOld(p1, second, rounds[1..], k)
  {
    assert rounds[1..][k] == rounds[k + 1];
  }

  function AllChanges<T>(rounds: seq<Round<T>>): seq<Change<T>> {
    if rounds == [] then [] else rounds[0].changes + AllChanges(rounds[1..])
  }

  /** A poll keeps everybody in exactly one ring, but for the changes after the passes that did not
      end it. */
  lemma {:induction false} PollKeeps<T>(p: Places<T>, heads: set<T>, second: bool, rounds: seq<Round<T>>)
      returns (k: nat)
    requires Apart(p) && CanPoll(p, heads, second, rounds)
    ensures k <= |rounds| && (Polled(p, second, rounds).0 <==> k < |rounds|)
    ensures Apart(Polled(p, second, rounds).1)
    ensures Polled(p, second, rounds).1.Members() == LiveAll(p.Members(), AllChanges(rounds[..k]))
    decreases |rounds|
  {
    if rounds == [] {
      return 0;
    }
    var p' := Passed(p, second, rounds[0].view);
    PassKeeps(p, second, rounds[0].view);
    if p'.Readers(second) == {} {
      return 0;
    }
    var chs := rounds[0].changes;
    ChangesMembers(p', chs);
    ChangesApart(p', heads, chs);
    var k1 := PollKeeps(ChangedBy(p', chs), heads, second, rounds[1..]);
    k := k1 + 1;
    assert rounds[..k][1..] == rounds[1..][..k1];
    assert AllChanges(rounds[..k]) == chs + AllChanges(rounds[1..][..k1]);
    LiveJoined(p.Members(), chs, AllChanges(rounds[1..][..k1]));
  }

  /** The ring work of registry::sync: nothing for an empty root, otherwise the two polls, if they
      come to an end, and the splice. */
  function Synced<T>(p: Places<T>, first: seq<Round<T>>, second: seq<Round<T>>): (bool, Places<T>) {
    if p.root == {} then (true, p)
    else
      var (done1, p1) := Polled(p, false, first);
      if !done1 then (false, p1)
      else
        var (done2, p2) := Polled(p1, true, second);
        if !done2 then (false, p2) else (true, p2.Spliced())
  }

  predicate CanSync<T>(p: Places<T>, heads: set<T>, first: seq<Round<T>>, second: seq<Round<T>>) {
    CanPoll(p, heads, false, first)
    && (Polled(p, false, first).0 ==> CanPoll(Polled(p, false, first).1, heads, true, second))
  }

  /** A sync loses nobody, whether it gets to its end or not, while threads come and go: the three
      rings hold who is registered. At the end all of them are in root. */
  lemma SyncKeeps<T>(p: Places<T>, heads: set<T>, first: seq<Round<T>>, second: seq<Round<T>>)
      returns (i: nat, j: nat)
    requires Apart(p) && p.out == {} && p.qs == {} && CanSync(p, heads, first, second)
    ensures i <= |first| && j <= |second|
    ensures
      var (done, p'), chs := Synced(p, first, second), AllChanges(first[..i]) + AllChanges(second[..j]);
      && Apart(p')
      && p'.Members() == LiveAll(p.Members(), chs)
      && (done ==> p'.root == p'.Members() && p'.out == {} && p'.qs == {})
  {
    i, j := 0, 0;
    if p.root != {} {
      i := PollKeeps(p, heads, false, first);
      PollEnds(p, false, first);
      var p1 := Polled(p, false, first).1;
      if Polled(p, false, first).0 {
        j := PollKeeps(p1, heads, true, second);
        PollEnds(p1, true, second);
      }
      LiveJoined(p.Members(), AllChanges(first[..i]), AllChanges(second[..j]));
    }
  }
}
