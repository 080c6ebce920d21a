/** Is a version inside an OSV range?  The scan over sorted events is compared with the
    algorithm of the OSV Schema, section "Evaluation", and with the set of versions the
    events describe.  Events of type "limit" are not modelled. */
module OsvRanges {

  import opened OsvEvents

  predicate AtOrAfter(rank: Ranking, x: Spelling, v: Spelling) {
    v == ZERO || rank(x) >= rank(v)
  }

  datatype Verdict = Verdict(affected: bool, fixed: Spelling)

  /** What the rest of the scan, from event number i on, answers. */
  function ScanFrom(rank: Ranking, x: Spelling, events: seq<Event>, i: nat, active: bool): Verdict
    requires i <= |events|
    decreases |events| - i
  {
    if i == |events| then Verdict(active, "") else
    match events[i]
    case Introduced(v) => ScanFrom(rank, x, events, i + 1, AtOrAfter(rank, x, v))
    case Fixed(v) => if active && rank(x) < rank(v) then Verdict(true, v) else ScanFrom(rank, x, events, i + 1, false)
    case LastAffected(v) =>
      if active && rank(x) <= rank(v) then Verdict(true, "") else ScanFrom(rank, x, events, i + 1, false)
  }

  function Scan(rank: Ranking, x: Spelling, events: seq<Event>): Verdict {
    ScanFrom(rank, x, events, 0, false)
  }

  /** eventsContain */
  method EventsContain(rank: Ranking, x: Spelling, events: seq<Event>) returns (r: Verdict)
    ensures r == Scan(rank, x, events)
  {
    var active := false;
    var i := 0;
    while i < |events|
      invariant 0 <= i <= |events|
      invariant Scan(rank, x, events) == ScanFrom(rank, x, events, i, active)
    {
      match events[i] {
        case Introduced(v) =>
          active := v == ZERO || rank(x) >= rank(v);
        case Fixed(v) =>
          if active && rank(x) < rank(v) {
            return Verdict(true, v);
          }
          active := false;
        case LastAffected(v) =>
          if active && rank(x) <= rank(v) {
            return Verdict(true, "");
          }
          active := false;
      }
      i := i + 1;
    }
    return Verdict(active, "");
  }

  // ---------------------------------------------------------------- the OSV Schema

  /** The event is in the past of x: the OSV evaluation acts on it. */
  predicate Reached(rank: Ranking, x: Spelling, e: Event) {
    match e
    case Introduced(v) => AtOrAfter(rank, x, v)
    case Fixed(v) => rank(x) >= rank(v)
    case LastAffected(v) => rank(x) > rank(v)
  }

  /** The loop of IncludedInRanges in the OSV Schema, section "Evaluation", from event i on. */
  predicate OsvFrom(rank: Ranking, x: Spelling, events: seq<Event>, i: nat, vulnerable: bool)
    requires i <= |events|
    decreases |events| - i
  {
    if i == |events| then vulnerable
    else OsvFrom(rank, x, events, i + 1, if Reached(rank, x, events[i]) then events[i].Introduced? else vulnerable)
  }

  predicate Osv(rank: Ranking, x: Spelling, events: seq<Event>) {
    OsvFrom(rank, x, events, 0, false)
  }

  /** The version is the last one affected, and a later event says that it is fixed. */
  ghost predicate Tie(rank: Ranking, x: Spelling, events: seq<Event>, k: nat)
    requires k < |events|
  {
    events[k].LastAffected? && rank(x) == rank(events[k].v) && Fixed(events[k].v) in events[k + 1..]
  }

  /** Event k is where scan and schema part for x: x lies between two introduced events that
      follow each other, or is tied. */
  ghost predicate PartsAt(rank: Ranking, x: Spelling, events: seq<Event>, k: nat)
    requires k < |events|
  {
    k > 0 && Opens(rank, x, events, k - 1) && ((events[k].Introduced? && !Reached(rank, x, events[k])) ||
                                               Tie(rank, x, events, k))
  }

  predicate Opens(rank: Ranking, x: Spelling, events: seq<Event>, k: nat)
    requires k < |events|
  {
    events[k].Introduced? && AtOrAfter(rank, x, events[k].v)
  }

  ghost predicate Parts(rank: Ranking, x: Spelling, events: seq<Event>) {
    exists k: nat :: k < |events| && PartsAt(rank, x, events, k)
  }

  /** After an event that x has not reached, x reaches no introduced event, and of the closing
      events only a tied one. */
  lemma NothingAfter(rank: Ranking, x: Spelling, events: seq<Event>, i: nat, j: nat)
    requires Sorted(rank, events) && Distinguished(rank, events) && WellFormed(events)
    requires i < j < |events| && !Reached(rank, x, events[i])
    ensures Reached(rank, x, events[j]) ==>
              events[i].LastAffected? && rank(x) == rank(events[i].v) && events[j] == Fixed(events[i].v)
  {
    var e, f := events[i], events[j];
    assert e in events && f in events;
    assert Compare(rank, e, f) <= 0;
  }

  lemma {:induction false} ScanIdles(rank: Ranking, x: Spelling, events: seq<Event>, i: nat)
    requires i <= |events|
    requires forall j | i <= j < |events| :: !(events[j].Introduced? && Reached(rank, x, events[j]))
    ensures ScanFrom(rank, x, events, i, false) == Verdict(false, "")
    decreases |events| - i
  {
    if i < |events| {
      ScanIdles(rank, x, events, i + 1);
    }
  }

  lemma {:induction false} OsvIdles(rank: Ranking, x: Spelling, events: seq<Event>, i: nat, vulnerable: bool)
    requires i <= |events|
    requires forall j | i <= j < |events| :: !(events[j].Introduced? && Reached(rank, x, events[j]))
    ensures OsvFrom(rank, x, events, i, vulnerable) <==>
            vulnerable && forall j | i <= j < |events| :: !Reached(rank, x, events[j])
    decreases |events| - i
  {
    if i < |events| {
      OsvIdles(rank, x, events, i + 1, if Reached(rank, x, events[i]) then events[i].Introduced? else vulnerable);
    }
  }

  /** The events after one that x has not reached open nothing for x. */
  lemma NothingOpens(rank: Ranking, x: Spelling, events: seq<Event>, i: nat)
    requires Sorted(rank, events) && Distinguished(rank, events) && WellFormed(events)
    requires i < |events| && !Reached(rank, x, events[i])
    ensures forall j | i <= j < |events| :: !(events[j].Introduced? && Reached(rank, x, events[j]))
  {
    forall j | i < j < |events| ensures !(events[j].Introduced? && Reached(rank, x, events[j])) {
      NothingAfter(rank, x, events, i, j);
    }
  }

  lemma TieIsReached(rank: Ranking, x: Spelling, events: seq<Event>, i: nat)
    requires Sorted(rank, events) && Distinguished(rank, events) && WellFormed(events)
    requires i < |events| && !Reached(rank, x, events[i])
    ensures Tie(rank, x, events, i) <==> exists j | i <= j < |events| :: Reached(rank, x, events[j])
  {
    if Tie(rank, x, events, i) {
      var d :| 0 <= d < |events| - i - 1 && events[i + 1..][d] == Fixed(events[i].v);
      assert Reached(rank, x, events[i + 1 + d]);
    }
    if j :| i <= j < |events| && Reached(rank, x, events[j]) {
      NothingAfter(rank, x, events, i, j);
      assert events[i + 1..][j - i - 1] == events[j];
    }
  }

  lemma PartsOnlyHere(rank: Ranking, x: Spelling, events: seq<Event>, i: nat, k: nat)
    requires Sorted(rank, events) && Distinguished(rank, events) && WellFormed(events)
    requires i < k < |events| && !Reached(rank, x, events[i])
    ensures !PartsAt(rank, x, events, k)
  {
    NothingOpens(rank, x, events, i);
    assert !(events[k - 1].Introduced? && Reached(rank, x, events[k - 1]));
  }

  /** The first event x has not reached decides. */
  lemma {:induction false} Decides(rank: Ranking, x: Spelling, events: seq<Event>, i: nat, active: bool)
    requires Sorted(rank, events) && Distinguished(rank, events) && WellFormed(events)
    requires i < |events| && !Reached(rank, x, events[i])
    requires active <==> i > 0 && Opens(rank, x, events, i - 1)
    ensures ScanFrom(rank, x, events, i, active).affected <==> active && Closes(events[i])
    ensures OsvFrom(rank, x, events, i, active) <==> active && !Tie(rank, x, events, i)
    ensures forall k: nat | i <= k < |events| :: PartsAt(rank, x, events, k) <==>
              k == i && active && (events[i].Introduced? || Tie(rank, x, events, i))
  {
    NothingOpens(rank, x, events, i);
    ScanIdles(rank, x, events, i + 1);
    OsvIdles(rank, x, events, i, active);
    TieIsReached(rank, x, events, i);
    forall k: nat | i < k < |events| ensures !PartsAt(rank, x, events, k) {
      PartsOnlyHere(rank, x, events, i, k);
    }
    hide Sorted, Distinguished, WellFormed, OsvFrom, Tie;
  }

  lemma {:induction false} ScanAgainstOsv(rank: Ranking, x: Spelling, events: seq<Event>, i: nat, active: bool)
    requires Sorted(rank, events) && Distinguished(rank, events) && WellFormed(events)
    requires i <= |events|
    requires active <==> i > 0 && Opens(rank, x, events, i - 1)
    ensures (ScanFrom(rank, x, events, i, active).affected <==> OsvFrom(rank, x, events, i, active)) <==>
            !exists k: nat :: i <= k < |events| && PartsAt(rank, x, events, k)
    decreases |events| - i
  {
    if i < |events| {
      if Reached(rank, x, events[i]) {
        ScanAgainstOsv(rank, x, events, i + 1, events[i].Introduced?);
        assert !PartsAt(rank, x, events, i);
      } else {
        Decides(rank, x, events, i, active);
        assert PartsAt(rank, x, events, i) <==> active && (events[i].Introduced? || Tie(rank, x, events, i));
      }
    }
  }

  /** The scan gives the answer of the OSV Schema exactly for the versions where the events
      neither open twice in a row nor tie. */
  lemma ScanIsOsvUnlessParted(rank: Ranking, x: Spelling, events: seq<Event>)
    requires Sorted(rank, events) && Distinguished(rank, events) && WellFormed(events)
    ensures (Scan(rank, x, events).affected <==> Osv(rank, x, events)) <==> !Parts(rank, x, events)
  {
    ScanAgainstOsv(rank, x, events, 0, false);
  }

  // ---------------------------------------------------------------- alternating events

  /** Introduced and closing events take turns, an introduced one first. */
  predicate Alternating(events: seq<Event>) {
    forall i | 0 <= i < |events| :: events[i].Introduced? <==> i % 2 == 0
  }

  /** The version is before the end of an interval. */
  predicate BeforeEnd(rank: Ranking, x: Spelling, e: Event)
    requires Closes(e)
  {
    match e
    case Fixed(v) => rank(x) < rank(v)
    case LastAffected(v) => rank(x) <= rank(v)
  }

  /** The version lies in the interval that event k introduces and event k + 1, if any, ends. */
  predicate InInterval(rank: Ranking, x: Spelling, events: seq<Event>, k: nat)
    requires k < |events|
  {
    Opens(rank, x, events, k) && (k + 1 < |events| ==> Closes(events[k + 1]) && BeforeEnd(rank, x, events[k + 1]))
  }

  ghost predicate InUnion(rank: Ranking, x: Spelling, events: seq<Event>) {
    exists k: nat :: k < |events| && InInterval(rank, x, events, k)
  }

  /** Sorted alternating events are strictly ordered. */
  lemma StrictlyOrdered(rank: Ranking, events: seq<Event>, i: nat, j: nat)
    requires Sorted(rank, events) && Distinguished(rank, events) && WellFormed(events) && Alternating(events)
    requires i < j < |events|
    ensures Compare(rank, events[i], events[j]) < 0
    ensures events[i].v == events[j].v ==> j == i + 1 && events[i].Introduced?
    ensures events[i].v != events[j].v && events[i].v != ZERO ==> rank(events[i].v) < rank(events[j].v)
  {
    var e, f := events[i], events[j];
    assert e in events && f in events;
    assert Compare(rank, e, f) <= 0;
    var c := events[i + 1];
    assert c in events && Compare(rank, e, c) <= 0;
    if i + 2 < |events| {
      assert events[i + 2] in events && Compare(rank, c, events[i + 2]) <= 0;
    }
  }

  /** Alternating events never part. */
  lemma AlternatingNeverParts(rank: Ranking, x: Spelling, events: seq<Event>)
    requires Sorted(rank, events) && Distinguished(rank, events) && WellFormed(events) && Alternating(events)
    ensures !Parts(rank, x, events)
  {
    forall k: nat | k < |events| ensures !PartsAt(rank, x, events, k) {
      NoTie(rank, x, events, k);
    }
  }

  lemma NoTie(rank: Ranking, x: Spelling, events: seq<Event>, k: nat)
    requires Sorted(rank, events) && Distinguished(rank, events) && WellFormed(events) && Alternating(events)
    requires k < |events|
    ensures !Tie(rank, x, events, k)
  {
    if events[k].LastAffected? && Fixed(events[k].v) in events[k + 1..] {
      var d :| 0 <= d < |events| - k - 1 && events[k + 1..][d] == Fixed(events[k].v);
      StrictlyOrdered(rank, events, k, k + 1 + d);
      assert false;
    }
  }

  /** The version that fixes interval k, if its end names one. */
  function FixOf(events: seq<Event>, k: nat): Spelling
    requires k < |events|
  {
    if k + 1 < |events| && events[k + 1].Fixed? then events[k + 1].v else ""
  }

  /** Only the interval that event i - 1 introduces can hold x, when x has not reached event i. */
  lemma {:induction false} FindsInterval(rank: Ranking, x: Spelling, events: seq<Event>, i: nat, active: bool)
    requires Sorted(rank, events) && Distinguished(rank, events) && WellFormed(events)
    requires i < |events| && !Reached(rank, x, events[i])
    requires active <==> i > 0 && Opens(rank, x, events, i - 1)
    ensures var r := ScanFrom(rank, x, events, i, active);
            if active && Closes(events[i]) then InInterval(rank, x, events, i - 1) &&
               r == Verdict(true, FixOf(events, i - 1))
            else !r.affected && (i > 0 ==> !InInterval(rank, x, events, i - 1))
    ensures forall k: nat | i <= k < |events| :: !InInterval(rank, x, events, k)
  {
    forall k: nat | i <= k < |events| ensures !Opens(rank, x, events, k) {
      if k > i {
        NothingAfter(rank, x, events, i, k);
      }
    }
    ScanIdles(rank, x, events, i + 1);
  }

  lemma {:induction false} ScanFindsInterval(rank: Ranking, x: Spelling, events: seq<Event>, i: nat, active: bool)
    requires Sorted(rank, events) && Distinguished(rank, events) && WellFormed(events)
    requires i <= |events|
    requires active <==> i > 0 && Opens(rank, x, events, i - 1)
    ensures ScanFrom(rank, x, events, i, active).affected ==>
              exists k: nat :: i <= k + 1 <= |events| && InInterval(rank, x, events, k)
    ensures forall k: nat | i <= k + 1 <= |events| && InInterval(rank, x, events, k) ::
              ScanFrom(rank, x, events, i, active) == Verdict(true, FixOf(events, k))
    decreases |events| - i
  {
    if i == |events| {
      assert active ==> InInterval(rank, x, events, i - 1);
    } else if Reached(rank, x, events[i]) {
      ScanFindsInterval(rank, x, events, i + 1, events[i].Introduced?);
      assert i > 0 ==> !InInterval(rank, x, events, i - 1);
    } else {
      FindsInterval(rank, x, events, i, active);
    }
  }

  /** The scan of sorted events decides membership in the union of the intervals that a
      closing event, or nothing, ends, and reports the version that ends the interval. */
  lemma ScanIsUnion(rank: Ranking, x: Spelling, events: seq<Event>)
    requires Sorted(rank, events) && Distinguished(rank, events) && WellFormed(events)
    ensures Scan(rank, x, events).affected <==> InUnion(rank, x, events)
    ensures forall k: nat | k < |events| && InInterval(rank, x, events, k) ::
            Scan(rank, x, events).fixed == FixOf(events, k)
  {
    ScanFindsInterval(rank, x, events, 0, false);
  }

  /** For alternating events this union is what the OSV Schema describes. */
  lemma AlternatingScanIsOsv(rank: Ranking, x: Spelling, events: seq<Event>)
    requires Sorted(rank, events) && Distinguished(rank, events) && WellFormed(events) && Alternating(events)
    ensures Scan(rank, x, events).affected <==> Osv(rank, x, events)
  {
    AlternatingNeverParts(rank, x, events);
    ScanIsOsvUnlessParted(rank, x, events);
  }

  /** No interval holds the earlier of two versions introduced in a row. */
  lemma BetweenTwoOpenings(rank: Ranking, events: seq<Event>, k: nat, j: nat)
    requires Sorted(rank, events) && Distinguished(rank, events) && WellFormed(events)
    requires 0 < k < |events| && events[k - 1].Introduced? && events[k].Introduced?
    requires !Reached(rank, events[k - 1].v, events[k])
    requires j < |events|
    ensures !InInterval(rank, events[k - 1].v, events, j)
  {
    if j > k {
      NothingAfter(rank, events[k - 1].v, events, k, j);
    } else if j + 1 < k - 1 {
      assert events[j + 1] in events && Compare(rank, events[j + 1], events[k - 1]) <= 0;
    }
  }

  /** Conversely, events that open twice in a row make the scan miss an affected version: the
      earlier of the two, or one before the later when the earlier is the beginning. */
  lemma OpeningTwiceMissesVersions(rank: Ranking, events: seq<Event>, k: nat)
    requires Sorted(rank, events) && Distinguished(rank, events) && WellFormed(events)
    requires 0 < k < |events| && events[k - 1].Introduced? && events[k].Introduced? && events[k - 1].v != events[k].v
    requires rank(ZERO) < rank(events[k].v)
    ensures !Scan(rank, events[k - 1].v, events).affected && Osv(rank, events[k - 1].v, events)
  {
    var x := events[k - 1].v;
    assert events[k - 1] in events && events[k] in events;
    assert Compare(rank, events[k - 1], events[k]) <= 0;
    assert PartsAt(rank, x, events, k);
    ScanIsOsvUnlessParted(rank, x, events);
    ScanIsUnion(rank, x, events);
    forall j: nat | j < |events| ensures !InInterval(rank, x, events, j) {
      BetweenTwoOpenings(rank, events, k, j);
    }
  }

  /** No introduced event follows one of another version, and no last affected version is fixed. */
  ghost predicate Readable(events: seq<Event>) {
    forall k | 0 < k < |events| && events[k - 1].Introduced? ::
      && (events[k].Introduced? ==> events[k].v == events[k - 1].v)
      && (events[k].LastAffected? ==> Fixed(events[k].v) !in events[k + 1..])
  }

  /** The scan is the OSV evaluation on all versions if and only if the sorted events are readable. */
  lemma ScanIsOsvIffReadable(rank: Ranking, events: seq<Event>)
    requires Sorted(rank, events) && Distinguished(rank, events) && WellFormed(events)
    requires forall e <- events :: e.v != ZERO ==> rank(ZERO) < rank(e.v)
    ensures (forall x :: Scan(rank, x, events).affected <==> Osv(rank, x, events)) <==> Readable(events)
  {
    if Readable(events) {
      forall x ensures Scan(rank, x, events).affected <==> Osv(rank, x, events) {
        forall k: nat | k < |events| ensures !PartsAt(rank, x, events, k) {
        }
        ScanIsOsvUnlessParted(rank, x, events);
      }
    } else {
      var k :| 0 < k < |events| && events[k - 1].Introduced? &&
               !((events[k].Introduced? ==> events[k].v == events[k - 1].v) &&
                 (events[k].LastAffected? ==> Fixed(events[k].v) !in events[k + 1..]));
      UnreadableParts(rank, events, k);
    }
  }

  lemma UnreadableParts(rank: Ranking, events: seq<Event>, k: nat)
    requires Sorted(rank, events) && Distinguished(rank, events) && WellFormed(events)
    requires forall e <- events :: e.v != ZERO ==> rank(ZERO) < rank(e.v)
    requires 0 < k < |events| && events[k - 1].Introduced?
    requires (events[k].Introduced? && events[k].v != events[k - 1].v) ||
             (events[k].LastAffected? && Fixed(events[k].v) in events[k + 1..])
    ensures exists x :: !(Scan(rank, x, events).affected <==> Osv(rank, x, events))
  {
    var e, f := events[k - 1], events[k];
    assert e in events && f in events && Compare(rank, e, f) <= 0;
    var x := if f.Introduced? then e.v else f.v;
    assert PartsAt(rank, x, events, k);
    ScanIsOsvUnlessParted(rank, x, events);
  }

  // ---------------------------------------------------------------- order of the events

  lemma SameFirst(rank: Ranking, a: seq<Event>, b: seq<Event>)
    requires multiset(a) == multiset(b) && Sorted(rank, b) && a != [] && b != []
    requires forall i, j | 0 <= i < j < |a| :: Compare(rank, a[i], a[j]) < 0
    ensures a[0] == b[0]
  {
    assert b[0] in multiset(b) && a[0] in multiset(a);
    assert b[0] in a && a[0] in b;
    var i :| 0 <= i < |a| && a[i] == b[0];
    var j :| 0 <= j < |b| && b[j] == a[0];
    assert i > 0 ==> Compare(rank, a[0], b[0]) < 0;
    assert j > 0 ==> Compare(rank, b[0], a[0]) <= 0;
  }

  lemma WithoutFirst(a: seq<Event>)
    requires a != []
    ensures a == [a[0]] + a[1..] && multiset(a[1..]) == multiset(a) - multiset{a[0]}
  {
    assert a == [a[0]] + a[1..];
  }

  lemma SortedTail(rank: Ranking, events: seq<Event>)
    requires Sorted(rank, events) && events != []
    ensures Sorted(rank, events[1..])
  {
  }

  /** A strictly ordered list is the only sorted one with its elements. */
  lemma {:induction false} OneSortedOrder(rank: Ranking, a: seq<Event>, b: seq<Event>)
    requires multiset(a) == multiset(b) && Sorted(rank, b)
    requires forall i, j | 0 <= i < j < |a| :: Compare(rank, a[i], a[j]) < 0
    ensures a == b
  {
    hide Compare;
    assert |a| == |multiset(a)| == |multiset(b)| == |b|;
    if a != [] {
      SameFirst(rank, a, b);
      WithoutFirst(a);
      WithoutFirst(b);
      SortedTail(rank, b);
      hide Sorted;
      OneSortedOrder(rank, a[1..], b[1..]);
    }
  }

  /** The verdict does not depend on the order in which an advisory lists its events, provided
      they alternate once sorted. */
  lemma {:induction false} OrderOfEventsIsIrrelevant(rank: Ranking, events: seq<Event>, permuted: seq<Event>)
    requires multiset(permuted) == multiset(events)
    requires Distinguished(rank, events) && WellFormed(events) && Alternating(SortStable(rank, events))
    ensures SortStable(rank, permuted) == SortStable(rank, events)
  {
    var a, b := SortStable(rank, events), SortStable(rank, permuted);
    SameElements(events, permuted);
    SameElements(events, a);
    SortStableSorts(rank, events);
    SortStableSorts(rank, permuted);
    forall i, j | 0 <= i < j < |a| ensures Compare(rank, a[i], a[j]) < 0 {
      StrictlyOrdered(rank, a, i, j);
    }
    OneSortedOrder(rank, a, b);
  }
}
