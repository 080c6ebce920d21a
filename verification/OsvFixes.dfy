/** The version that fixes an affected one: what the scan reports against the nearest fix, and the verdict on an
    affected package. */
module OsvFixes {

  import opened OsvEvents
  import opened OsvRanges

  datatype Kind = Git | Semver | Ecosystem
  datatype Range = Range(kind: Kind, events: seq<Event>)

  predicate FixesAfter(rank: Ranking, x: Spelling, events: seq<Event>, f: Spelling) {
    f != "" && Fixed(f) in events && rank(f) > rank(x)
  }

  ghost predicate Candidate(rank: Ranking, x: Spelling, ranges: seq<Range>, f: Spelling) {
    exists r <- ranges :: FixesAfter(rank, x, r.events, f)
  }

  /** The least version after x that fixes it in some range, or none. */
  ghost predicate IsNearestFixed(rank: Ranking, x: Spelling, ranges: seq<Range>, f: Spelling) {
    if f == "" then forall g :: !Candidate(rank, x, ranges, g)
    else Candidate(rank, x, ranges, f) && forall g | Candidate(rank, x, ranges, g) :: rank(f) <= rank(g)
  }

  lemma {:induction false} HasLeast(rank: Ranking, candidates: seq<Spelling>) returns (f: Spelling)
    requires candidates != []
    ensures f in candidates && forall g <- candidates :: rank(f) <= rank(g)
  {
    f := candidates[0];
    if |candidates| > 1 {
      var rest := HasLeast(rank, candidates[1..]);
      assert candidates == [f] + candidates[1..];
      f := if rank(rest) < rank(f) then rest else f;
    }
  }

  /** nearestFixed; sorting the candidates leaves a least one in front. */
  method NearestFixed(rank: Ranking, x: Spelling, ranges: seq<Range>) returns (f: Spelling)
    ensures IsNearestFixed(rank, x, ranges, f)
  {
    var candidates: seq<Spelling> := [];
    for i := 0 to |ranges|
      invariant forall g :: g in candidates <==> Candidate(rank, x, ranges[..i], g)
    {
      var events := ranges[i].events;
      ghost var before := candidates;
      for j := 0 to |events|
        invariant forall g :: g in candidates <==> g in before || FixesAfter(rank, x, events[..j], g)
      {
        if events[j].Fixed? && events[j].v != "" && rank(events[j].v) > rank(x) {
          candidates := candidates + [events[j].v];
        }
      }
      assert events[..|events|] == events;
      forall g ensures Candidate(rank, x, ranges[..i + 1], g) <==>
        Candidate(rank, x, ranges[..i], g) || FixesAfter(rank, x, events, g) {
        assert ranges[..i + 1] == ranges[..i] + [ranges[i]];
      }
    }
    assert ranges[..|ranges|] == ranges;
    if candidates == [] {
      return "";
    }
    ghost var least := HasLeast(rank, candidates);
    f :| f in candidates && forall g <- candidates :: rank(f) <= rank(g);
    assert Candidate(rank, x, ranges, f);
  }

  /** The interval of x ends with a last affected version, and a later event fixes the package. */
  ghost predicate LaterFix(rank: Ranking, x: Spelling, events: seq<Event>) {
    exists k: nat, m: nat :: k + 1 < m < |events| && InInterval(rank, x, events, k) && events[k + 1].LastAffected? &&
      events[m].Fixed?
  }

  /** The interval of x, for alternating events: what fixes x comes after it. */
  lemma FixesComeAfter(rank: Ranking, x: Spelling, events: seq<Event>, k: nat, m: nat)
    requires Sorted(rank, events) && Distinguished(rank, events) && WellFormed(events) && Alternating(events)
    requires k < |events| && InInterval(rank, x, events, k) && m < |events| && events[m].Fixed?
    ensures rank(events[m].v) > rank(x) <==> m > k
    ensures m > k ==> k + 1 < |events| && rank(events[k + 1].v) <= rank(events[m].v)
  {
    assert events[m] in events && events[k] in events;
    if m < k {
      StrictlyOrdered(rank, events, m, k);
    } else if m > k + 1 {
      assert events[k + 1] in events;
      StrictlyOrdered(rank, events, k + 1, m);
    }
  }

  lemma OneInterval(rank: Ranking, x: Spelling, events: seq<Event>, j: nat, k: nat)
    requires Sorted(rank, events) && Distinguished(rank, events) && WellFormed(events) && Alternating(events)
    requires j < k < |events|
    ensures !(InInterval(rank, x, events, j) && InInterval(rank, x, events, k))
  {
    assert events[j + 1] in events && events[k] in events;
    if InInterval(rank, x, events, j) && j + 1 < k {
      StrictlyOrdered(rank, events, j + 1, k);
    }
  }

  ghost predicate IsNearestIn(rank: Ranking, x: Spelling, events: seq<Event>, f: Spelling) {
    if f == "" then forall g :: !FixesAfter(rank, x, events, g)
    else FixesAfter(rank, x, events, f) && forall g | FixesAfter(rank, x, events, g) :: rank(f) <= rank(g)
  }

  /** With x in interval k, a later fix is one after its last affected version. */
  lemma LaterFixIsInInterval(rank: Ranking, x: Spelling, events: seq<Event>, k: nat)
    requires Sorted(rank, events) && Distinguished(rank, events) && WellFormed(events) && Alternating(events)
    requires k < |events| && InInterval(rank, x, events, k)
    ensures LaterFix(rank, x, events) <==>
            exists m: nat :: k + 1 < m < |events| && events[k + 1].LastAffected? && events[m].Fixed?
  {
    forall j: nat | j < |events| && InInterval(rank, x, events, j) ensures j == k {
      if j < k { OneInterval(rank, x, events, j, k); } else if k < j { OneInterval(rank, x, events, k, j); }
    }
  }

  lemma FixesAreLater(rank: Ranking, x: Spelling, events: seq<Event>, k: nat, g: Spelling)
    requires Sorted(rank, events) && Distinguished(rank, events) && WellFormed(events) && Alternating(events)
    requires k < |events| && InInterval(rank, x, events, k) && FixesAfter(rank, x, events, g)
    ensures k + 1 < |events| && rank(events[k + 1].v) <= rank(g)
    ensures exists m: nat :: k < m < |events| && events[m] == Fixed(g)
  {
    var m: nat :| m < |events| && events[m] == Fixed(g);
    FixesComeAfter(rank, x, events, k, m);
  }

  lemma NearestIn(rank: Ranking, x: Spelling, events: seq<Event>, k: nat)
    requires Sorted(rank, events) && Distinguished(rank, events) && WellFormed(events) && Alternating(events)
    requires k < |events| && InInterval(rank, x, events, k)
    ensures IsNearestIn(rank, x, events, FixOf(events, k)) <==> !LaterFix(rank, x, events)
  {
    LaterFixIsInInterval(rank, x, events, k);
    forall g | FixesAfter(rank, x, events, g)
      ensures k + 1 < |events| && rank(events[k + 1].v) <= rank(g)
      ensures exists m: nat :: k < m < |events| && events[m] == Fixed(g)
    {
      FixesAreLater(rank, x, events, k, g);
    }
    forall m: nat | k < m < |events| && events[m].Fixed? ensures FixesAfter(rank, x, events, events[m].v) {
      assert events[m] in events;
      FixesComeAfter(rank, x, events, k, m);
    }
  }

  lemma OneRange(rank: Ranking, x: Spelling, kind: Kind, events: seq<Event>, sorted: seq<Event>, f: Spelling)
    requires forall e :: e in events <==> e in sorted
    ensures IsNearestFixed(rank, x, [Range(kind, events)], f) <==> IsNearestIn(rank, x, sorted, f)
  {
    var ranges := [Range(kind, events)];
    forall g ensures Candidate(rank, x, ranges, g) <==> FixesAfter(rank, x, sorted, g) {
      assert ranges[0] in ranges;
    }
  }

  /** The version the scan reports is the nearest fix of the range exactly when no later event
      fixes what a last affected version ended. */
  lemma {:induction false} ReportedFixIsNearest(rank: Ranking, x: Spelling, kind: Kind, events: seq<Event>, sorted: seq<Event>)
    requires sorted == SortStable(rank, events)
    requires Distinguished(rank, events) && WellFormed(events) && Alternating(sorted)
    requires Scan(rank, x, sorted).affected
    ensures IsNearestFixed(rank, x, [Range(kind, events)], Scan(rank, x, sorted).fixed) <==> !LaterFix(rank, x, sorted)
  {
    SameElements(events, sorted);
    SortStableSorts(rank, events);
    ScanIsUnion(rank, x, sorted);
    var k: nat :| k < |sorted| && InInterval(rank, x, sorted, k);
    NearestIn(rank, x, sorted, k);
    OneRange(rank, x, kind, events, sorted, FixOf(sorted, k));
  }

  const CLOSED_THEN_FIXED := [Introduced("1"), LastAffected("2"), Introduced("3"), Fixed("4")]

  /** It is not: 1.5 is affected up to 2, and 4 fixes the package, yet no fix is reported. */
  lemma LaterFixIsNotReported(rank: Ranking)
    requires rank("1") < rank("1.5") < rank("2") < rank("3") < rank("4")
    ensures Scan(rank, "1.5", CLOSED_THEN_FIXED) == Verdict(true, "")
    ensures IsNearestIn(rank, "1.5", CLOSED_THEN_FIXED, "4")
  {
    var events := CLOSED_THEN_FIXED;
    assert ScanFrom(rank, "1.5", events, 1, true) == Verdict(true, "");
    assert events[3] in events && "4" != "";
    forall g | FixesAfter(rank, "1.5", events, g) ensures g == "4" {
    }
  }

  // ---------------------------------------------------------------- one affected package

  /** The rankings of the declaration's ecosystem and of SEMVER ranges. */
  datatype Systems = Systems(local: Ranking, semver: Ranking)

  function RankOf(systems: Systems, r: Range): Ranking {
    if r.kind.Semver? then systems.semver else systems.local
  }

  /** strings.TrimPrefix(version, "v"), for SEMVER ranges. */
  function SpellingFor(x: Spelling, r: Range): Spelling {
    if r.kind.Semver? && x != "" && x[0] == 'v' then x[1..] else x
  }

  function RangeVerdict(systems: Systems, x: Spelling, r: Range): Verdict {
    Scan(RankOf(systems, r), SpellingFor(x, r), SortStable(RankOf(systems, r), r.events))
  }

  /** The range holds the version: its events are read as the OSV Schema reads them. */
  ghost predicate OsvHolds(systems: Systems, x: Spelling, r: Range) {
    Osv(RankOf(systems, r), SpellingFor(x, r), SortStable(RankOf(systems, r), r.events))
  }

  /** The events of a range are distinct versions that alternate when sorted. */
  ghost predicate Regular(systems: Systems, r: Range) {
    && Distinguished(RankOf(systems, r), r.events) && WellFormed(r.events)
    && Alternating(SortStable(RankOf(systems, r), r.events))
  }

  ghost predicate Listed(systems: Systems, x: Spelling, versions: seq<Spelling>) {
    exists v <- versions :: systems.local(x) == systems.local(v)
  }

  lemma RegularRangesAreOsv(systems: Systems, x: Spelling, r: Range)
    requires Regular(systems, r)
    ensures RangeVerdict(systems, x, r).affected <==> OsvHolds(systems, x, r)
  {
    var rank := RankOf(systems, r);
    SortStableSorts(rank, r.events);
    SameElements(r.events, SortStable(rank, r.events));
    AlternatingScanIsOsv(rank, SpellingFor(x, r), SortStable(rank, r.events));
  }

  /** affectedVersion: listed versions first, then the ranges in order.  For regular ranges this is the OSV
      evaluation: the version is listed or some range that is not of type GIT holds it. */
  method AffectedVersion(systems: Systems, x: Spelling, versions: seq<Spelling>, ranges: seq<Range>)
    returns (r: Verdict)
    ensures r.affected <==> Listed(systems, x, versions) ||
                            exists g <- ranges :: !g.kind.Git? && RangeVerdict(systems, x, g).affected
    ensures (forall g <- ranges :: g.kind.Git? || Regular(systems, g)) ==>
              (r.affected <==> Listed(systems, x, versions) || exists g <- ranges ::
               !g.kind.Git? && OsvHolds(systems, x, g))
    ensures !r.affected ==> r.fixed == ""
    ensures Listed(systems, x, versions) ==> IsNearestFixed(systems.local, x, ranges, r.fixed)
    ensures r.affected && !Listed(systems, x, versions) ==>
              exists i :: 0 <= i < |ranges| && !ranges[i].kind.Git? && r == RangeVerdict(systems, x, ranges[i]) &&
                          forall j | 0 <= j < i :: ranges[j].kind.Git? || !RangeVerdict(systems, x, ranges[j]).affected
  {
    forall g <- ranges | !g.kind.Git? && Regular(systems, g)
      ensures RangeVerdict(systems, x, g).affected <==> OsvHolds(systems, x, g)
    {
      RegularRangesAreOsv(systems, x, g);
    }
    for i := 0 to |versions|
      invariant forall v <- versions[..i] :: systems.local(x) != systems.local(v)
    {
      if systems.local(x) == systems.local(versions[i]) {
        var fixed := NearestFixed(systems.local, x, ranges);
        return Verdict(true, fixed);
      }
    }
    assert versions[..|versions|] == versions;
    for i := 0 to |ranges|
      invariant forall j | 0 <= j < i :: ranges[j].kind.Git? || !RangeVerdict(systems, x, ranges[j]).affected
    {
      var g := ranges[i];
      if g.kind.Git? {
        continue;
      }
      var rank, version := systems.local, x;
      if g.kind.Semver? {
        rank := systems.semver;
        if "v" <= x {
          version := x[1..];
        }
      }
      var verdict := EventsContain(rank, version, SortStable(rank, g.events));
      if verdict.affected {
        return verdict;
      }
    }
    return Verdict(false, "");
  }
}
