/** Findings: every declaration of the inventory is accounted for once, and findings that several
    manifests raise for one package are merged into groups. */
module Findings {

  import opened MapSums
  import opened Text

  // ---------------------------------------------------------------- accounting

  /** What the checks say about a declaration, in their order, and the findings the advisories of
      its package raise. */
  datatype Declaration = Declaration(
    ecosystem: string,
    inOsv: bool,          // osvEcosystem knows the ecosystem
    hasVersion: bool,     // matchVersion finds a version
    hasSystem: bool,      // versionSystem knows the ecosystem
    parses: bool,         // the version parses
    inSnapshot: bool,     // the package was queried
    raised: seq<Finding>
  )

  datatype Category = Uncovered | NoVersion | InvalidVersion | NotInSnapshot | Checked

  function CategoryOf(d: Declaration): Category {
    if !d.inOsv then Uncovered
    else if !d.hasVersion then NoVersion
    else if !d.hasSystem then Uncovered
    else if !d.parses then InvalidVersion
    else if !d.inSnapshot then NotInSnapshot
    else Checked
  }

  /** How many of the first n declarations are in a category. */
  function CountIn(declarations: seq<Declaration>, n: nat, c: Category): nat
    requires n <= |declarations|
  {
    if n == 0 then 0 else CountIn(declarations, n - 1, c) + if CategoryOf(declarations[n - 1]) == c then 1 else 0
  }

  function CountUncovered(declarations: seq<Declaration>, n: nat, ecosystem: string): nat
    requires n <= |declarations|
  {
    if n == 0 then 0
    else
      var d := declarations[n - 1];
      CountUncovered(declarations, n - 1, ecosystem)
      + if CategoryOf(d) == Uncovered && d.ecosystem == ecosystem then 1 else 0
  }

  function RaisedBy(declarations: seq<Declaration>, n: nat): seq<Finding>
    requires n <= |declarations|
  {
    if n == 0 then []
    else RaisedBy(declarations, n - 1)
         + if CategoryOf(declarations[n - 1]) == Checked then declarations[n - 1].raised else []
  }

  datatype Response = Response(noVersion: nat, invalidVersion: nat, notInSnapshot: nat, checked: nat,
                               uncovered: map<string, nat>, gaps: bool)

  /** The counters after the first n declarations. */
  ghost predicate Counts(r: Response, declarations: seq<Declaration>, n: nat)
    requires n <= |declarations|
  {
    && r.noVersion == CountIn(declarations, n, NoVersion)
    && r.invalidVersion == CountIn(declarations, n, InvalidVersion)
    && r.notInSnapshot == CountIn(declarations, n, NotInSnapshot)
    && r.checked == CountIn(declarations, n, Checked)
    && Total(r.uncovered) == CountIn(declarations, n, Uncovered) && (forall e <- r.uncovered :: r.uncovered[e] > 0)
    && forall e :: CountUncovered(declarations, n, e) == if e in r.uncovered then r.uncovered[e] else 0
  }

  lemma {:induction false} CategoriesPartition(declarations: seq<Declaration>, n: nat)
    requires n <= |declarations|
    ensures CountIn(declarations, n, Uncovered) + CountIn(declarations, n, NoVersion) +
            CountIn(declarations, n, InvalidVersion)
            + CountIn(declarations, n, NotInSnapshot) + CountIn(declarations, n, Checked) == n
  {
    if n > 0 {
      CategoriesPartition(declarations, n - 1);
    }
  }

  /** uncovered[ecosystem]++ */
  function Bumped(uncovered: map<string, nat>, ecosystem: string): map<string, nat> {
    uncovered[ecosystem := (if ecosystem in uncovered then uncovered[ecosystem] else 0) + 1]
  }

  lemma UncoveredCounts(declarations: seq<Declaration>, n: nat, r: Response)
    requires n < |declarations| && Counts(r, declarations, n) && CategoryOf(declarations[n]) == Uncovered
    ensures Counts(r.(uncovered := Bumped(r.uncovered, declarations[n].ecosystem)), declarations, n + 1)
  {
    var e := declarations[n].ecosystem;
    TotalAfterUpdate(r.uncovered, e, Bumped(r.uncovered, e)[e]);
  }

  /** The counter of the other categories goes up by one. */
  lemma OtherCounts(declarations: seq<Declaration>, n: nat, r: Response, r': Response)
    requires n < |declarations| && Counts(r, declarations, n) && CategoryOf(declarations[n]) != Uncovered
    requires r'.uncovered == r.uncovered
    requires r'.noVersion == r.noVersion + if CategoryOf(declarations[n]) == NoVersion then 1 else 0
    requires r'.invalidVersion == r.invalidVersion + if CategoryOf(declarations[n]) == InvalidVersion then 1 else 0
    requires r'.notInSnapshot == r.notInSnapshot + if CategoryOf(declarations[n]) == NotInSnapshot then 1 else 0
    requires r'.checked == r.checked + if CategoryOf(declarations[n]) == Checked then 1 else 0
    ensures Counts(r', declarations, n + 1)
  {
  }

  /** One turn of the loop over the declarations. */
  method CountDeclaration(declarations: seq<Declaration>, n: nat, r: Response) returns (r': Response)
    requires n < |declarations| && Counts(r, declarations, n)
    ensures Counts(r', declarations, n + 1) && r'.gaps == r.gaps
  {
    var d := declarations[n];
    if !d.inOsv {
      UncoveredCounts(declarations, n, r);
      return r.(uncovered := Bumped(r.uncovered, d.ecosystem));
    }
    if !d.hasVersion {
      r' := r.(noVersion := r.noVersion + 1);
    } else if !d.hasSystem {
      UncoveredCounts(declarations, n, r);
      return r.(uncovered := Bumped(r.uncovered, d.ecosystem));
    } else if !d.parses {
      r' := r.(invalidVersion := r.invalidVersion + 1);
    } else if !d.inSnapshot {
      r' := r.(notInSnapshot := r.notInSnapshot + 1);
    } else {
      r' := r.(checked := r.checked + 1);
    }
    OtherCounts(declarations, n, r, r');
  }

  /** The loop of buildFindings over the declarations.  Every declaration is counted exactly once, the
      uncovered ones by ecosystem, and coverage gaps are announced exactly if some declaration was not checked. */
  method CountDeclarations(declarations: seq<Declaration>) returns (r: Response, allFindings: seq<Finding>)
    ensures Counts(r, declarations, |declarations|)
    ensures Total(r.uncovered) + r.noVersion + r.invalidVersion + r.notInSnapshot + r.checked == |declarations|
    ensures r.gaps <==> r.checked < |declarations|
    ensures allFindings == RaisedBy(declarations, |declarations|)
  {
    r, allFindings := Response(0, 0, 0, 0, map[], false), [];
    for n := 0 to |declarations|
      invariant Counts(r, declarations, n) && !r.gaps
      invariant allFindings == RaisedBy(declarations, n)
    {
      var before := r.checked;
      r := CountDeclaration(declarations, n, r);
      if r.checked > before {
        allFindings := allFindings + declarations[n].raised;
      }
    }
    CategoriesPartition(declarations, |declarations|);
    if r.uncovered != map[] {
      TotalIsPositive(r.uncovered);
    }
    if r.notInSnapshot > 0 || r.noVersion > 0 || r.invalidVersion > 0 || |r.uncovered| > 0 {
      r := r.(gaps := true);
    }
  }

  // ---------------------------------------------------------------- occurrences

  /** Where a finding was raised.  The other fields of an occurrence play no part in comparisons. */
  datatype Occurrence = Occurrence(usage: string, manifestPath: string, line: int, relationship: string,
                                   details: string)

  function UsageRank(usage: string): nat {
    if usage == "production" then 0
    else if usage == "implementation" then 1
    else if usage == "build" then 2
    else if usage == "development" then 3
    else if usage == "test" then 4
    else 5
  }

  const RANKED_USAGES := ["production", "implementation", "build", "development", "test"]

  /** Usages are ranked in this order, before all others, and those tie. */
  lemma UsagesAreRanked(a: string, b: string, i: nat)
    requires i < |RANKED_USAGES| && a == RANKED_USAGES[i]
    ensures UsageRank(a) < UsageRank(b) <==> b !in RANKED_USAGES[..i + 1]
    ensures a != b ==> UsageRank(a) != UsageRank(b)
  {
    UsagesDiffer();
    assert b in RANKED_USAGES[..i + 1] <==> exists j | 0 <= j <= i :: b == RANKED_USAGES[j];
  }

  lemma UsagesDiffer()
    ensures forall i | 0 <= i < |RANKED_USAGES| :: UsageRank(RANKED_USAGES[i]) == i
    ensures forall u | u !in RANKED_USAGES :: UsageRank(u) == |RANKED_USAGES|
  {
  }

  /** Whether a comparison decides, and if not whether a later one does. */
  predicate Then(comparison: int, later: bool) {
    comparison < 0 || (comparison == 0 && later)
  }

  /** findingOccurrenceLess */
  predicate Less(a: Occurrence, b: Occurrence) {
    Then(UsageRank(a.usage) - UsageRank(b.usage),
         Then(CompareText(a.manifestPath, b.manifestPath),
              Then(a.line - b.line, CompareText(a.relationship, b.relationship) < 0)))
  }

  /** What makes two occurrences duplicates. */
  datatype Place = Place(usage: string, manifestPath: string, line: int, relationship: string)

  function PlaceOf(o: Occurrence): Place {
    Place(o.usage, o.manifestPath, o.line, o.relationship)
  }

  /** Occurrences are strictly weakly ordered: a lesser one is less than whatever is not less than a greater one. */
  lemma LessIsWeakOrder(a: Occurrence, b: Occurrence, c: Occurrence)
    ensures Less(a, b) ==> !Less(b, a)
    ensures Less(a, b) && !Less(c, b) ==> Less(a, c)
  {
    CompareTextIsTotal(a.manifestPath, b.manifestPath);
    CompareTextIsTotal(a.relationship, b.relationship);
    CompareTextIsTotal(b.manifestPath, c.manifestPath);
    CompareTextIsTotal(b.relationship, c.relationship);
    if Less(a, b) && !Less(c, b) {
      if CompareText(a.manifestPath, b.manifestPath) <= 0 && CompareText(b.manifestPath, c.manifestPath) <= 0 {
        CompareTextIsTransitive(a.manifestPath, b.manifestPath, c.manifestPath);
      }
      if CompareText(a.relationship, b.relationship) <= 0 && CompareText(b.relationship, c.relationship) <= 0 {
        CompareTextIsTransitive(a.relationship, b.relationship, c.relationship);
      }
    }
  }

  datatype Finding = Finding(advisoryId: string, repositoryId: int, package: string, version: string,
                             occurrence: Occurrence)

  // ---------------------------------------------------------------- deduplication

  datatype Key = Key(advisoryId: string, repositoryId: int, package: string, version: string)

  /** Findings are merged by package names in lower case. */
  function KeyOf(lower: string -> string, f: Finding): Key {
    Key(f.advisoryId, f.repositoryId, lower(f.package), f.version)
  }

  /** A merged finding: what its first finding says, the occurrence it shows, and all occurrences. */
  datatype Group = Group(first: Finding, shown: Occurrence, occurrences: seq<Occurrence>, manifestOccurrenceCount: nat)

  predicate Distinct(occurrences: seq<Occurrence>) {
    forall i, j | 0 <= i < j < |occurrences| :: PlaceOf(occurrences[i]) != PlaceOf(occurrences[j])
  }

  /** The shown occurrence is one of the group's, and none is less. */
  predicate ShowsLeast(g: Group) {
    g.shown in g.occurrences && forall o <- g.occurrences :: !Less(o, g.shown)
  }

  /** Finding i belongs to the group. */
  predicate Belongs(lower: string -> string, findings: seq<Finding>, i: nat, key: Key)
    requires i < |findings|
  {
    KeyOf(lower, findings[i]) == key
  }

  ghost predicate Raised(lower: string -> string, findings: seq<Finding>, n: nat, key: Key)
    requires n <= |findings|
  {
    exists i: nat :: i < n && Belongs(lower, findings, i, key)
  }

  /** Finding i is the first of the key at its place. */
  predicate FirstAtPlace(lower: string -> string, findings: seq<Finding>, key: Key, i: nat)
    requires i < |findings|
  {
    && Belongs(lower, findings, i, key)
    && forall j: nat | j < i && Belongs(lower, findings, j, key) ::
         PlaceOf(findings[j].occurrence) != PlaceOf(findings[i].occurrence)
  }

  /** Of the first n findings of the key, the first one at its place has the occurrence. */
  ghost predicate RaisedAt(lower: string -> string, findings: seq<Finding>, n: nat, key: Key, o: Occurrence)
    requires n <= |findings|
  {
    exists i: nat :: i < n && FirstAtPlace(lower, findings, key, i) && findings[i].occurrence == o
  }

  /** Among the first n findings of the key, no occurrence is less than that of finding i, and those before it are
      greater. */
  predicate FirstLeast(lower: string -> string, findings: seq<Finding>, n: nat, key: Key, i: nat)
    requires n <= |findings|
  {
    && i < n && Belongs(lower, findings, i, key)
    && forall j: nat | j < n && Belongs(lower, findings, j, key) ::
         if j < i then Less(findings[i].occurrence, findings[j].occurrence)
         else !Less(findings[j].occurrence, findings[i].occurrence)
  }

  /** The occurrence is the first of the least ones among the first n findings of the key. */
  ghost predicate Shows(lower: string -> string, findings: seq<Finding>, n: nat, key: Key, o: Occurrence)
    requires n <= |findings|
  {
    exists i: nat :: FirstLeast(lower, findings, n, key, i) && findings[i].occurrence == o
  }

  /** The finding is the first of the key. */
  ghost predicate Leads(lower: string -> string, findings: seq<Finding>, key: Key, f: Finding) {
    exists i: nat | i < |findings| && Belongs(lower, findings, i, key) && findings[i] == f ::
      forall j: nat | j < i :: !Belongs(lower, findings, j, key)
  }

  /** A group on its own: one occurrence for each place, and a least one is shown. */
  predicate Sound(g: Group) {
    Distinct(g.occurrences) && ShowsLeast(g) && g.manifestOccurrenceCount == |g.occurrences|
  }

  /** The group holds an occurrence for every place among the first n findings that belong to it, and no other. */
  ghost predicate Holds(lower: string -> string, findings: seq<Finding>, n: nat, key: Key, g: Group)
    requires n <= |findings|
  {
    && Leads(lower, findings, key, g.first) && Shows(lower, findings, n, key, g.shown) && Sound(g)
    && AllRaised(lower, findings, n, key, g.occurrences) && AllPlaced(lower, findings, n, key, g.occurrences)
  }

  /** Every occurrence was raised by one of the first n findings of the key. */
  ghost predicate AllRaised(lower: string -> string, findings: seq<Finding>, n: nat, key: Key,
                            occurrences: seq<Occurrence>)
    requires n <= |findings|
  {
    forall o <- occurrences :: RaisedAt(lower, findings, n, key, o)
  }

  /** The place of each of the first n findings of the key is there. */
  ghost predicate AllPlaced(lower: string -> string, findings: seq<Finding>, n: nat, key: Key,
                            occurrences: seq<Occurrence>)
    requires n <= |findings|
  {
    forall i: nat | i < n && Belongs(lower, findings, i, key) :: HasPlace(occurrences, PlaceOf(findings[i].occurrence))
  }

  predicate HasPlace(occurrences: seq<Occurrence>, p: Place) {
    exists o <- occurrences :: PlaceOf(o) == p
  }

  /** There is a group for the key exactly if some finding belongs to it, and the group holds these. */
  ghost predicate GroupedAt(lower: string -> string, findings: seq<Finding>, n: nat, groups: map<Key, Group>, key: Key)
    requires n <= |findings|
  {
    && (key in groups <==> Raised(lower, findings, n, key))
    && (key in groups ==> Holds(lower, findings, n, key, groups[key]))
  }

  /** Every finding so far belongs to exactly one group, that of its key. */
  ghost predicate Grouped(lower: string -> string, findings: seq<Finding>, n: nat, groups: map<Key, Group>)
    requires n <= |findings|
  {
    forall key :: GroupedAt(lower, findings, n, groups, key)
  }

  /** The loop that looks for a duplicate. */
  method IsDuplicate(occurrences: seq<Occurrence>, occurrence: Occurrence) returns (duplicate: bool)
    ensures duplicate <==> HasPlace(occurrences, PlaceOf(occurrence))
  {
    for i := 0 to |occurrences|
      invariant forall j | 0 <= j < i :: PlaceOf(occurrences[j]) != PlaceOf(occurrence)
    {
      var current := occurrences[i];
      if current.manifestPath == occurrence.manifestPath && current.line == occurrence.line &&
         current.usage == occurrence.usage && current.relationship == occurrence.relationship {
        assert current in occurrences && PlaceOf(current) == PlaceOf(occurrence);
        return true;
      }
    }
    return false;
  }

  lemma SamePlaceTies(a: Occurrence, b: Occurrence, c: Occurrence)
    requires PlaceOf(a) == PlaceOf(b)
    ensures Less(a, c) <==> Less(b, c)
  {
  }

  /** A further finding of a group. */
  method Merge(g: Group, finding: Finding) returns (r: Group)
    requires Sound(g)
    ensures Sound(r) && r.first == g.first
    ensures r.occurrences == if HasPlace(g.occurrences, PlaceOf(finding.occurrence)) then g.occurrences
                             else g.occurrences + [finding.occurrence]
    ensures r.shown == if Less(finding.occurrence, g.shown) then finding.occurrence else g.shown
  {
    var occurrence := finding.occurrence;
    var duplicate := IsDuplicate(g.occurrences, occurrence);
    r := g;
    if !duplicate {
      r := r.(occurrences := r.occurrences + [occurrence]);
    }
    ShownAfter(g, occurrence);
    if Less(occurrence, r.shown) {
      r := r.(shown := occurrence);
    }
    r := r.(manifestOccurrenceCount := |r.occurrences|);
  }

  lemma ShownAfter(g: Group, occurrence: Occurrence)
    requires ShowsLeast(g)
    ensures HasPlace(g.occurrences, PlaceOf(occurrence)) ==> !Less(occurrence, g.shown)
    ensures Less(occurrence, g.shown) ==> forall o <- g.occurrences :: !Less(o, occurrence)
    ensures !Less(occurrence, occurrence)
  {
    LessIsWeakOrder(occurrence, occurrence, occurrence);
    LessIsWeakOrder(occurrence, g.shown, occurrence);
    forall o <- g.occurrences ensures PlaceOf(o) == PlaceOf(occurrence) ==> !Less(occurrence, g.shown) {
      if PlaceOf(o) == PlaceOf(occurrence) {
        SamePlaceTies(o, occurrence, g.shown);
      }
    }
    if Less(occurrence, g.shown) {
      forall o <- g.occurrences ensures !Less(o, occurrence) {
        LessIsWeakOrder(o, occurrence, g.shown);
      }
    }
  }

  lemma StillShows(lower: string -> string, findings: seq<Finding>, n: nat, key: Key, o: Occurrence)
    requires n < |findings| && Shows(lower, findings, n, key, o)
    requires Belongs(lower, findings, n, key) ==> !Less(findings[n].occurrence, o)
    ensures Shows(lower, findings, n + 1, key, o)
  {
    var i: nat :| FirstLeast(lower, findings, n, key, i) && findings[i].occurrence == o;
    assert FirstLeast(lower, findings, n + 1, key, i);
  }

  /** A lesser occurrence takes the place of the one shown so far. */
  lemma LesserShows(lower: string -> string, findings: seq<Finding>, n: nat, key: Key, o: Occurrence)
    requires n < |findings| && Belongs(lower, findings, n, key) && Shows(lower, findings, n, key, o)
    requires Less(findings[n].occurrence, o)
    ensures Shows(lower, findings, n + 1, key, findings[n].occurrence)
  {
    var i: nat :| FirstLeast(lower, findings, n, key, i) && findings[i].occurrence == o;
    var next := findings[n].occurrence;
    forall j: nat | j < n && Belongs(lower, findings, j, key) ensures Less(next, findings[j].occurrence) {
      LessIsWeakOrder(o, findings[j].occurrence, o);
      LessIsWeakOrder(next, o, findings[j].occurrence);
    }
    LessIsWeakOrder(next, next, next);
    assert FirstLeast(lower, findings, n + 1, key, n);
  }

  lemma StillHolds(lower: string -> string, findings: seq<Finding>, n: nat, key: Key, g: Group)
    requires n < |findings| && Holds(lower, findings, n, key, g) && !Belongs(lower, findings, n, key)
    ensures Holds(lower, findings, n + 1, key, g)
  {
    StillShows(lower, findings, n, key, g.shown);
    forall o <- g.occurrences ensures RaisedAt(lower, findings, n + 1, key, o) {
      assert RaisedAt(lower, findings, n, key, o);
    }
  }

  lemma FirstHolds(lower: string -> string, findings: seq<Finding>, n: nat, key: Key, g: Group)
    requires n < |findings| && Belongs(lower, findings, n, key) && !Raised(lower, findings, n, key)
    requires g == Group(findings[n], findings[n].occurrence, [findings[n].occurrence], 1)
    ensures Holds(lower, findings, n + 1, key, g)
  {
    var o := findings[n].occurrence;
    LessIsWeakOrder(o, o, o);
    assert FirstAtPlace(lower, findings, key, n) && FirstLeast(lower, findings, n + 1, key, n);
    assert o in g.occurrences;
  }

  /** The occurrences after a further finding were raised so far. */
  lemma MergedRaised(lower: string -> string, findings: seq<Finding>, n: nat, key: Key, g: Group, r: seq<Occurrence>)
    requires n < |findings| && Belongs(lower, findings, n, key) && Holds(lower, findings, n, key, g)
    requires r == if HasPlace(g.occurrences, PlaceOf(findings[n].occurrence)) then g.occurrences
                  else g.occurrences + [findings[n].occurrence]
    ensures AllRaised(lower, findings, n + 1, key, r)
  {
    forall o <- r ensures RaisedAt(lower, findings, n + 1, key, o) {
      if o in g.occurrences {
        assert RaisedAt(lower, findings, n, key, o);
      } else {
        assert FirstAtPlace(lower, findings, key, n);
      }
    }
  }

  /** They have all places so far. */
  lemma MergedPlaced(lower: string -> string, findings: seq<Finding>, n: nat, key: Key, occurrences: seq<Occurrence>,
                     r: seq<Occurrence>)
    requires n < |findings| && Belongs(lower, findings, n, key) && AllPlaced(lower, findings, n, key, occurrences)
    requires r == if HasPlace(occurrences, PlaceOf(findings[n].occurrence)) then occurrences
             else occurrences + [findings[n].occurrence]
    ensures AllPlaced(lower, findings, n + 1, key, r)
  {
    forall i: nat | i < n + 1 && Belongs(lower, findings, i, key) ensures HasPlace(r, PlaceOf(findings[i].occurrence)) {
      StillHasPlace(occurrences, findings[n].occurrence, PlaceOf(findings[i].occurrence));
    }
  }

  lemma MergedHolds(lower: string -> string, findings: seq<Finding>, n: nat, key: Key, g: Group, r: Group)
    requires n < |findings| && Belongs(lower, findings, n, key) && Holds(lower, findings, n, key, g)
    requires Sound(r) && r.first == g.first
    requires r.occurrences == if HasPlace(g.occurrences, PlaceOf(findings[n].occurrence)) then g.occurrences
                              else g.occurrences + [findings[n].occurrence]
    requires r.shown == if Less(findings[n].occurrence, g.shown) then findings[n].occurrence else g.shown
    ensures Holds(lower, findings, n + 1, key, r)
  {
    if Less(findings[n].occurrence, g.shown) {
      LesserShows(lower, findings, n, key, g.shown);
    } else {
      StillShows(lower, findings, n, key, g.shown);
    }
    MergedRaised(lower, findings, n, key, g, r.occurrences);
    MergedPlaced(lower, findings, n, key, g.occurrences, r.occurrences);
  }

  lemma StillHasPlace(occurrences: seq<Occurrence>, o: Occurrence, p: Place)
    ensures HasPlace(occurrences + [o], p) <==> HasPlace(occurrences, p) || PlaceOf(o) == p
  {
    var grown := occurrences + [o];
    if HasPlace(occurrences, p) {
      var q :| q in occurrences && PlaceOf(q) == p;
      assert q in grown;
    }
    assert o in grown;
  }

  lemma StillGrouped(lower: string -> string, findings: seq<Finding>, n: nat, groups: map<Key, Group>, r: Group,
                     key: Key)
    requires n < |findings| && GroupedAt(lower, findings, n, groups, key)
    requires Holds(lower, findings, n + 1, KeyOf(lower, findings[n]), r)
    ensures GroupedAt(lower, findings, n + 1, groups[KeyOf(lower, findings[n]) := r], key)
  {
    if KeyOf(lower, findings[n]) == key {
      assert Belongs(lower, findings, n, key);
    } else if key in groups {
      StillHolds(lower, findings, n, key, groups[key]);
    }
  }

  /** The group of a finding once the finding has joined it. */
  method Join(lower: string -> string, findings: seq<Finding>, n: nat, grouped: map<Key, Group>, key: Key)
    returns (r: Group)
    requires n < |findings| && key == KeyOf(lower, findings[n]) && GroupedAt(lower, findings, n, grouped, key)
    ensures Holds(lower, findings, n + 1, key, r)
  {
    var finding := findings[n];
    if key !in grouped {
      r := Group(finding, finding.occurrence, [finding.occurrence], 1);
      FirstHolds(lower, findings, n, key, r);
    } else {
      r := Merge(grouped[key], finding);
      MergedHolds(lower, findings, n, key, grouped[key], r);
    }
  }

  lemma AllGrouped(lower: string -> string, findings: seq<Finding>, n: nat, grouped: map<Key, Group>, r: Group)
    requires n < |findings| && Grouped(lower, findings, n, grouped)
    requires Holds(lower, findings, n + 1, KeyOf(lower, findings[n]), r)
    ensures Grouped(lower, findings, n + 1, grouped[KeyOf(lower, findings[n]) := r])
  {
    var after, next := grouped[KeyOf(lower, findings[n]) := r], n + 1;
    forall k ensures GroupedAt(lower, findings, next, after, k) {
      StillGrouped(lower, findings, n, grouped, r, k);
    }
  }

  lemma NoneGrouped(lower: string -> string, findings: seq<Finding>)
    ensures Grouped(lower, findings, 0, map[])
  {
  }

  lemma GroupOfKey(lower: string -> string, findings: seq<Finding>, n: nat, grouped: map<Key, Group>, key: Key)
    requires n <= |findings| && Grouped(lower, findings, n, grouped)
    ensures GroupedAt(lower, findings, n, grouped, key)
  {
  }

  /** deduplicateFindings up to the order of its result. */
  method DeduplicateFindings(lower: string -> string, findings: seq<Finding>) returns (grouped: map<Key, Group>)
    ensures Grouped(lower, findings, |findings|, grouped)
  {
    NoneGrouped(lower, findings);
    hide Grouped, GroupedAt, Holds, KeyOf;
    grouped := map[];
    for n := 0 to |findings|
      invariant Grouped(lower, findings, n, grouped)
    {
      var key := KeyOf(lower, findings[n]);
      GroupOfKey(lower, findings, n, grouped, key);
      var r := Join(lower, findings, n, grouped, key);
      AllGrouped(lower, findings, n, grouped, r);
      grouped := grouped[key := r];
    }
  }
}
