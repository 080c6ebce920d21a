/** The events of an OSV range and their order.

    A version system is an arbitrary total preorder on version spellings: `rank` gives
    every spelling a place on the real line, and comparing two versions is comparing their
    places.  Spellings are countably many, so every total preorder has this form. */
module OsvEvents {

  type Spelling = string
  type Ranking = Spelling -> real

  datatype Event = Introduced(v: Spelling) | Fixed(v: Spelling) | LastAffected(v: Spelling)

  /** The spelling that sorts before every version, in an introduced event. */
  const ZERO := "0"
  /** The spelling that sorts after every version; only limit events use it. */
  const STAR := "*"

  predicate Closes(e: Event) {
    !e.Introduced?
  }

  // ---------------------------------------------------------------- sorting

  /** The comparator of sortedOSVEvents: negative, zero or positive. */
  function Compare(rank: Ranking, left: Event, right: Event): int {
    if left.v == right.v then
      if left.Introduced? && Closes(right) then -1 else if right.Introduced? && Closes(left) then 1 else 0
    else if left.v == ZERO || right.v == STAR then -1
    else if right.v == ZERO || left.v == STAR then 1
    else if rank(left.v) < rank(right.v) then -1
    else if rank(left.v) > rank(right.v) then 1
    else 0
  }

  ghost predicate Sorted(rank: Ranking, events: seq<Event>) {
    forall i, j | 0 <= i < j < |events| :: Compare(rank, events[i], events[j]) <= 0
  }

  /** Distinct spellings are distinct versions. */
  ghost predicate Distinguished(rank: Ranking, events: seq<Event>) {
    forall e, f | e in events && f in events && rank(e.v) == rank(f.v) :: e.v == f.v
  }

  /** Versions are not empty, and only an introduced event may name the beginning of all. */
  predicate WellFormed(events: seq<Event>) {
    forall e <- events :: e.v != "" && e.v != STAR && (Closes(e) ==> e.v != ZERO)
  }

  /** A stable sort puts each event, in order of appearance, after those that compare equal. */
  function InsertStable(rank: Ranking, sorted: seq<Event>, e: Event): (r: seq<Event>)
    ensures multiset(r) == multiset(sorted) + multiset{e}
  {
    if sorted == [] then [e]
    else
      var last := sorted[|sorted| - 1];
      if Compare(rank, last, e) <= 0 then sorted + [e]
      else
        var front := sorted[..|sorted| - 1];
        assert sorted == front + [last];
        InsertStable(rank, front, e) + [last]
  }

  /** sortedOSVEvents */
  function SortStable(rank: Ranking, events: seq<Event>): (r: seq<Event>)
    ensures multiset(r) == multiset(events)
  {
    if events == [] then []
    else
      var front, last := events[..|events| - 1], events[|events| - 1];
      assert events == front + [last];
      InsertStable(rank, SortStable(rank, front), last)
  }

  // ---------------------------------------------------------------- when the comparator is an order

  ghost predicate Transitive(rank: Ranking, events: seq<Event>) {
    forall a, b, c | a in events && b in events && c in events && Compare(rank, a, b) <= 0 &&
      Compare(rank, b, c) <= 0 ::
      Compare(rank, a, c) <= 0
  }

  /** An introduced event, a closing one of the same spelling, and an event of another spelling of this version: the
      third ties with both, so that the three go round in a circle. */
  predicate Circle(rank: Ranking, a: Event, b: Event, c: Event) {
    && a.Introduced? && Closes(b) && a.v == b.v && c.v != a.v && rank(c.v) == rank(a.v)
    && a.v != ZERO && c.v != ZERO
  }

  ghost predicate HasCircle(rank: Ranking, events: seq<Event>) {
    exists a, b, c :: a in events && b in events && c in events && Circle(rank, a, b, c)
  }

  lemma CirclesGoRound(rank: Ranking, events: seq<Event>, a: Event, b: Event, c: Event)
    requires WellFormed(events) && a in events && b in events && c in events && Circle(rank, a, b, c)
    ensures Compare(rank, b, c) <= 0 && Compare(rank, c, a) <= 0 && Compare(rank, b, a) > 0
  {
  }

  lemma NoCircleAmongThree(rank: Ranking, events: seq<Event>, a: Event, b: Event, c: Event)
    requires WellFormed(events) && a in events && b in events && c in events
    requires Compare(rank, a, b) <= 0 && Compare(rank, b, c) <= 0 && Compare(rank, a, c) > 0
    ensures HasCircle(rank, events)
  {
    assert Circle(rank, c, a, b);
  }

  /** The comparator orders a list of events exactly if the list holds no circle. */
  lemma TransitiveIffNoCircle(rank: Ranking, events: seq<Event>)
    requires WellFormed(events)
    ensures Transitive(rank, events) <==> !HasCircle(rank, events)
  {
    if a, b, c :| a in events && b in events && c in events && Circle(rank, a, b, c) {
      CirclesGoRound(rank, events, a, b, c);
    }
    forall a, b, c | a in events && b in events && c in events && Compare(rank, a, b) <= 0 && Compare(rank, b, c) <= 0
      ensures Compare(rank, a, c) <= 0 || HasCircle(rank, events)
    {
      if Compare(rank, a, c) > 0 {
        NoCircleAmongThree(rank, events, a, b, c);
      }
    }
  }

  /** It does so whenever distinct spellings are distinct versions. */
  lemma DistinguishedIsTransitive(rank: Ranking, events: seq<Event>)
    requires Distinguished(rank, events)
    ensures Transitive(rank, events)
  {
  }

  // ---------------------------------------------------------------- what sorting achieves

  lemma SameElements(a: seq<Event>, b: seq<Event>)
    requires multiset(a) == multiset(b)
    ensures forall e :: e in a <==> e in b
  {
    forall e ensures e in a <==> e in b {
      assert e in a <==> e in multiset(a);
      assert e in b <==> e in multiset(b);
    }
  }

  lemma SortedAppend(rank: Ranking, sorted: seq<Event>, e: Event)
    requires Sorted(rank, sorted) && forall i | 0 <= i < |sorted| :: Compare(rank, sorted[i], e) <= 0
    ensures Sorted(rank, sorted + [e])
  {
  }

  lemma LastStaysLast(rank: Ranking, sorted: seq<Event>, e: Event, x: Event)
    requires sorted != [] && Sorted(rank, sorted) && x in sorted[..|sorted| - 1] + [e]
    requires Compare(rank, sorted[|sorted| - 1], e) > 0
    ensures Compare(rank, x, sorted[|sorted| - 1]) <= 0
  {
    if x != e {
      var i :| 0 <= i < |sorted| - 1 && sorted[i] == x;
    }
  }

  lemma {:induction false} InsertKeepsSorted(rank: Ranking, sorted: seq<Event>, e: Event)
    requires Sorted(rank, sorted) && Transitive(rank, sorted + [e])
    ensures Sorted(rank, InsertStable(rank, sorted, e))
  {
    if sorted != [] {
      var front, last := sorted[..|sorted| - 1], sorted[|sorted| - 1];
      if Compare(rank, last, e) <= 0 {
        assert forall f <- sorted :: f in sorted + [e];
        assert e in sorted + [e];
        SortedAppend(rank, sorted, e);
      } else {
        InsertKeepsSorted(rank, front, e);
        var r := InsertStable(rank, front, e);
        SameElements(r, front + [e]);
        forall i | 0 <= i < |r| ensures Compare(rank, r[i], last) <= 0 {
          assert r[i] in r;
          LastStaysLast(rank, sorted, e, r[i]);
        }
        SortedAppend(rank, r, last);
      }
    }
  }

  lemma {:induction false} TransitiveSorts(rank: Ranking, events: seq<Event>)
    requires Transitive(rank, events)
    ensures Sorted(rank, SortStable(rank, events))
  {
    if events != [] {
      var front, last := events[..|events| - 1], events[|events| - 1];
      TransitiveSorts(rank, front);
      SameElements(SortStable(rank, front), front);
      InsertKeepsSorted(rank, SortStable(rank, front), last);
    }
  }

  /** Sorting sorts, for distinguished versions. */
  lemma {:induction false} SortStableSorts(rank: Ranking, events: seq<Event>)
    requires Distinguished(rank, events)
    ensures Sorted(rank, SortStable(rank, events))
  {
    DistinguishedIsTransitive(rank, events);
    TransitiveSorts(rank, events);
  }

  ghost predicate Before(events: seq<Event>, x: Event, y: Event) {
    exists i, j :: 0 <= i < j < |events| && events[i] == x && events[j] == y
  }

  lemma BeforeInFront(events: seq<Event>, more: seq<Event>, x: Event, y: Event)
    ensures Before(events, x, y) ==> Before(events + more, x, y)
  {
    if i, j :| 0 <= i < j < |events| && events[i] == x && events[j] == y {
      assert (events + more)[i] == x && (events + more)[j] == y;
    }
  }

  /** Inserting an event does not change the order of the others. */
  lemma {:induction false} InsertKeepsBefore(rank: Ranking, sorted: seq<Event>, e: Event, x: Event, y: Event)
    requires Before(sorted, x, y)
    ensures Before(InsertStable(rank, sorted, e), x, y)
  {
    var last := sorted[|sorted| - 1];
    if Compare(rank, last, e) <= 0 {
      BeforeInFront(sorted, [e], x, y);
    } else {
      var front := sorted[..|sorted| - 1];
      var r := InsertStable(rank, front, e);
      var i, j :| 0 <= i < j < |sorted| && sorted[i] == x && sorted[j] == y;
      if j == |sorted| - 1 {
        SameElements(r, front + [e]);
        assert front[i] == x && x in front + [e] && x in r;
        var k :| 0 <= k < |r| && r[k] == x;
        assert (r + [last])[k] == x && (r + [last])[|r|] == y;
      } else {
        assert front[i] == x && front[j] == y;
        InsertKeepsBefore(rank, front, e, x, y);
        BeforeInFront(r, [last], x, y);
      }
    }
  }

  /** An event that does not compare below the last of a list that stays as it is stays last. */
  lemma {:induction false} StaysAppended(rank: Ranking, events: seq<Event>, e: Event, r: seq<Event>)
    requires SortStable(rank, events) == events && r == events + [e]
    requires events != [] ==> Compare(rank, events[|events| - 1], e) <= 0
    ensures SortStable(rank, r) == r
  {
    assert r[..|events|] == events && r[|events|] == e;
  }

  lemma CircleIsStable(rank: Ranking, a: Event, b: Event, c: Event)
    requires Compare(rank, b, c) <= 0 && Compare(rank, c, a) <= 0
    ensures SortStable(rank, [b, c, a]) == [b, c, a]
  {
    hide SortStable, Compare;
    SortOfNone(rank);
    StaysAppended(rank, [], b, [b]);
    StaysAppended(rank, [b], c, [b, c]);
    StaysAppended(rank, [b, c], a, [b, c, a]);
  }

  lemma SortOfNone(rank: Ranking)
    ensures SortStable(rank, []) == []
  {
  }

  /** A circle that comes first stays out of order. */
  lemma {:induction false} CircleStays(rank: Ranking, events: seq<Event>, a: Event, b: Event, c: Event)
    requires |events| >= 3 && events[..3] == [b, c, a] && Compare(rank, b, c) <= 0 && Compare(rank, c, a) <= 0
    ensures Before(SortStable(rank, events), b, a)
  {
    if |events| == 3 {
      CircleIsStable(rank, a, b, c);
      assert events == [b, c, a] && events[0] == b && events[2] == a;
    } else {
      var front, last := events[..|events| - 1], events[|events| - 1];
      assert front[..3] == events[..3];
      CircleStays(rank, front, a, b, c);
      InsertKeepsBefore(rank, SortStable(rank, front), last, b, a);
    }
  }

  lemma ToFront(events: seq<Event>, e: Event) returns (rest: seq<Event>)
    requires e in events
    ensures multiset([e] + rest) == multiset(events)
  {
    var i :| 0 <= i < |events| && events[i] == e;
    rest := events[..i] + events[i + 1..];
    assert events == events[..i] + ([e] + events[i + 1..]);
  }

  lemma CircleToFront(rank: Ranking, events: seq<Event>, a: Event, b: Event, c: Event) returns (p: seq<Event>)
    requires a in events && b in events && c in events && a != b && b != c && a != c
    ensures multiset(p) == multiset(events) && |p| >= 3 && p[..3] == [b, c, a]
  {
    var first := ToFront(events, b);
    SameElements([b] + first, events);
    assert c in first && a in first;
    var second := ToFront(first, c);
    SameElements([c] + second, first);
    assert a in second;
    var third := ToFront(second, a);
    p := [b, c, a] + third;
    assert p == [b] + ([c] + ([a] + third));
  }

  /** Sorting sorts the events, in whatever order they come, exactly if they hold no circle. */
  lemma SortsIffNoCircle(rank: Ranking, events: seq<Event>)
    requires WellFormed(events)
    ensures (forall p: seq<Event> | multiset(p) == multiset(events) :: Sorted(rank, SortStable(rank, p)))
            <==> !HasCircle(rank, events)
  {
    if a, b, c :| a in events && b in events && c in events && Circle(rank, a, b, c) {
      var p := CircleToFront(rank, events, a, b, c);
      CirclesGoRound(rank, events, a, b, c);
      CircleStays(rank, p, a, b, c);
      assert !Sorted(rank, SortStable(rank, p));
    } else {
      TransitiveIffNoCircle(rank, events);
      forall p: seq<Event> | multiset(p) == multiset(events) ensures Sorted(rank, SortStable(rank, p)) {
        SameElements(p, events);
        TransitiveSorts(rank, p);
      }
    }
  }

  /** The circle of "1.0", an event that closes it, and "1.0.0". */
  lemma TwoSpellingsCircle(rank: Ranking)
    requires rank("1.0") == rank("1.0.0")
    ensures Circle(rank, Introduced("1.0"), Fixed("1.0"), Fixed("1.0.0"))
  {
    assert |"1.0"| != |"1.0.0"| && |"1.0"| != |ZERO| && |"1.0.0"| != |ZERO|;
  }
}
