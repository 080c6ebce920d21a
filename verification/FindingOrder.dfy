/** What the order of the findings decides about the merged findings, and what it does not. */
module FindingOrder {

  import opened Findings
  import opened Text

  // ---------------------------------------------------------------- the order of the findings

  ghost function Places(occurrences: seq<Occurrence>): set<Place> {
    set o | o in occurrences :: PlaceOf(o)
  }

  lemma {:induction false} DistinctPlaces(occurrences: seq<Occurrence>)
    requires Distinct(occurrences)
    ensures |Places(occurrences)| == |occurrences|
  {
    if occurrences != [] {
      var front, last := occurrences[..|occurrences| - 1], occurrences[|occurrences| - 1];
      DistinctPlaces(front);
      assert occurrences == front + [last];
      assert Places(occurrences) == Places(front) + {PlaceOf(last)};
    }
  }

  /** The places of a group are those of the findings that belong to it. */
  lemma PlacesAreThoseRaised(lower: string -> string, findings: seq<Finding>, key: Key, g: Group, p: Place)
    requires Holds(lower, findings, |findings|, key, g)
    ensures HasPlace(g.occurrences, p) <==> exists f <- findings :: KeyOf(lower, f) == key && PlaceOf(f.occurrence) == p
  {
    if HasPlace(g.occurrences, p) {
      var o :| o in g.occurrences && PlaceOf(o) == p;
      assert RaisedAt(lower, findings, |findings|, key, o);
      var i: nat :| i < |findings| && FirstAtPlace(lower, findings, key, i) && findings[i].occurrence == o;
      assert findings[i] in findings;
    }
    if f :| f in findings && KeyOf(lower, f) == key && PlaceOf(f.occurrence) == p {
      var i: nat :| i < |findings| && findings[i] == f;
      assert Belongs(lower, findings, i, key);
    }
  }

  lemma SameKeySameGroup(lower: string -> string, a: seq<Finding>, b: seq<Finding>, key: Key, groupA: Group,
                         groupB: Group)
    requires forall f :: f in a <==> f in b
    requires Holds(lower, a, |a|, key, groupA) && Holds(lower, b, |b|, key, groupB)
    ensures SameGroup(groupA, groupB)
  {
    forall p ensures HasPlace(groupA.occurrences, p) <==> HasPlace(groupB.occurrences, p) {
      PlacesAreThoseRaised(lower, a, key, groupA, p);
      PlacesAreThoseRaised(lower, b, key, groupB, p);
    }
    SamePlacesSameGroup(groupA, groupB);
  }

  /** Findings in another order are merged into groups with the same keys, places and counts; and what the
      groups show ties: it is the same place, unless both usages are outside the ranking and differ. */
  lemma OrderIsIrrelevant(lower: string -> string, a: seq<Finding>, b: seq<Finding>,
                          groupsA: map<Key, Group>, groupsB: map<Key, Group>)
    requires forall f :: f in a <==> f in b
    requires Grouped(lower, a, |a|, groupsA) && Grouped(lower, b, |b|, groupsB)
    ensures groupsA.Keys == groupsB.Keys
    ensures forall key <- groupsA :: SameGroup(groupsA[key], groupsB[key])
  {
    forall key ensures key in groupsA <==> key in groupsB {
      assert GroupedAt(lower, a, |a|, groupsA, key) && GroupedAt(lower, b, |b|, groupsB, key);
      KeysAreThoseRaised(lower, a, key);
      KeysAreThoseRaised(lower, b, key);
    }
    forall key <- groupsA ensures SameGroup(groupsA[key], groupsB[key]) {
      assert GroupedAt(lower, a, |a|, groupsA, key) && GroupedAt(lower, b, |b|, groupsB, key);
      SameKeySameGroup(lower, a, b, key, groupsA[key], groupsB[key]);
    }
  }

  lemma KeysAreThoseRaised(lower: string -> string, findings: seq<Finding>, key: Key)
    ensures Raised(lower, findings, |findings|, key) <==> exists f <- findings :: KeyOf(lower, f) == key
  {
    if Raised(lower, findings, |findings|, key) {
      var i: nat :| i < |findings| && Belongs(lower, findings, i, key);
      assert findings[i] in findings;
    }
    if f :| f in findings && KeyOf(lower, f) == key {
      var i: nat :| i < |findings| && findings[i] == f;
      assert Belongs(lower, findings, i, key);
    }
  }

  predicate Unranked(usage: string) {
    UsageRank(usage) == 5
  }

  ghost predicate SameGroup(a: Group, b: Group) {
    && Places(a.occurrences) == Places(b.occurrences) && a.manifestOccurrenceCount == b.manifestOccurrenceCount
    && !Less(a.shown, b.shown) && !Less(b.shown, a.shown)
    && (PlaceOf(a.shown) == PlaceOf(b.shown)
        || (Unranked(a.shown.usage) && Unranked(b.shown.usage) && a.shown.usage != b.shown.usage))
  }

  lemma SamePlacesSameGroup(a: Group, b: Group)
    requires Distinct(a.occurrences) && ShowsLeast(a) && a.manifestOccurrenceCount == |a.occurrences|
    requires Distinct(b.occurrences) && ShowsLeast(b) && b.manifestOccurrenceCount == |b.occurrences|
    requires forall p :: HasPlace(a.occurrences, p) <==> HasPlace(b.occurrences, p)
    ensures SameGroup(a, b)
  {
    assert forall p :: p in Places(a.occurrences) <==> HasPlace(a.occurrences, p);
    assert forall p :: p in Places(b.occurrences) <==> HasPlace(b.occurrences, p);
    DistinctPlaces(a.occurrences);
    DistinctPlaces(b.occurrences);
    NotLessThanShown(a, b);
    NotLessThanShown(b, a);
    TiesAgree(a.shown, b.shown);
  }

  lemma NotLessThanShown(a: Group, b: Group)
    requires a.shown in a.occurrences && ShowsLeast(b)
    requires forall p :: HasPlace(a.occurrences, p) ==> HasPlace(b.occurrences, p)
    ensures !Less(a.shown, b.shown)
  {
    assert HasPlace(a.occurrences, PlaceOf(a.shown));
    var o :| o in b.occurrences && PlaceOf(o) == PlaceOf(a.shown);
    SamePlaceTies(o, a.shown, b.shown);
  }

  /** Occurrences that tie differ in their usage at most, and then neither usage is a known one. */
  lemma TiesAgree(a: Occurrence, b: Occurrence)
    requires !Less(a, b) && !Less(b, a)
    ensures a.manifestPath == b.manifestPath && a.line == b.line && a.relationship == b.relationship
    ensures a.usage == b.usage || (UsageRank(a.usage) == 5 && UsageRank(b.usage) == 5)
  {
    CompareTextIsTotal(a.manifestPath, b.manifestPath);
    CompareTextIsTotal(a.relationship, b.relationship);
  }

  /** The only unranked usage that manifests give rise to is "unknown". */
  predicate UsualUsages(findings: seq<Finding>) {
    forall f <- findings :: Unranked(f.occurrence.usage) ==> f.occurrence.usage == "unknown"
  }

  /** For such findings the place that a group shows does not depend on the order at all. */
  lemma ShownPlaceIsOrderless(lower: string -> string, a: seq<Finding>, b: seq<Finding>,
                              groupsA: map<Key, Group>, groupsB: map<Key, Group>)
    requires UsualUsages(a) && multiset(a) == multiset(b)
    requires Grouped(lower, a, |a|, groupsA) && Grouped(lower, b, |b|, groupsB)
    ensures groupsA.Keys == groupsB.Keys
    ensures forall key <- groupsA :: PlaceOf(groupsA[key].shown) == PlaceOf(groupsB[key].shown)
  {
    SameElements(a, b);
    OrderIsIrrelevant(lower, a, b, groupsA, groupsB);
    forall key <- groupsA ensures PlaceOf(groupsA[key].shown) == PlaceOf(groupsB[key].shown) {
      assert GroupedAt(lower, a, |a|, groupsA, key) && GroupedAt(lower, b, |b|, groupsB, key);
      ShownIsRaised(lower, a, key, groupsA[key].shown);
      ShownIsRaised(lower, b, key, groupsB[key].shown);
    }
  }

  lemma ShownIsRaised(lower: string -> string, findings: seq<Finding>, key: Key, o: Occurrence)
    requires Shows(lower, findings, |findings|, key, o)
    ensures exists f <- findings :: KeyOf(lower, f) == key && f.occurrence == o
  {
    var i: nat :| FirstLeast(lower, findings, |findings|, key, i) && findings[i].occurrence == o;
    assert findings[i] in findings;
  }

  // ---------------------------------------------------------------- what depends on the order

  /** A finding of the key whose occurrence no finding of the key undercuts. */
  ghost predicate Least(lower: string -> string, findings: seq<Finding>, key: Key, f: Finding) {
    && f in findings && KeyOf(lower, f) == key
    && forall g <- findings | KeyOf(lower, g) == key :: !Less(g.occurrence, f.occurrence)
  }

  /** However the findings are ordered, the view of what their group shows is the same. */
  ghost predicate ShownIsOrderless<T(!new)>(lower: string -> string, findings: seq<Finding>, key: Key,
                                            view: Occurrence -> T) {
    forall a, b, o, p | multiset(a) == multiset(b) == multiset(findings)
                        && Shows(lower, a, |a|, key, o) && Shows(lower, b, |b|, key, p) :: view(o) == view(p)
  }

  /** A view of what a group shows, such as its place or all of its details, depends on the order of the findings
      exactly if it tells two least occurrences of the group apart. */
  lemma ShownDependsOnTies<T(!new)>(lower: string -> string, findings: seq<Finding>, key: Key, view: Occurrence -> T)
    ensures ShownIsOrderless(lower, findings, key, view)
            <==> forall f, g | Least(lower, findings, key, f) && Least(lower, findings, key, g) ::
                   view(f.occurrence) == view(g.occurrence)
  {
    if ShownIsOrderless(lower, findings, key, view) {
      forall f, g | Least(lower, findings, key, f) && Least(lower, findings, key, g)
        ensures view(f.occurrence) == view(g.occurrence)
      {
        var a := LeastShows(lower, findings, key, f);
        var b := LeastShows(lower, findings, key, g);
        assert Shows(lower, a, |a|, key, f.occurrence) && Shows(lower, b, |b|, key, g.occurrence);
      }
    } else {
      var a, b, o, p :| multiset(a) == multiset(b) == multiset(findings)
                        && Shows(lower, a, |a|, key, o) && Shows(lower, b, |b|, key, p) && view(o) != view(p);
      var f := ShownIsLeast(lower, a, findings, key, o);
      var g := ShownIsLeast(lower, b, findings, key, p);
    }
  }

  /** Two least findings of the key have different usages, both unranked. */
  ghost predicate UnrankedTie(lower: string -> string, findings: seq<Finding>, key: Key, f: Finding, g: Finding) {
    && Least(lower, findings, key, f) && Least(lower, findings, key, g)
    && Unranked(f.occurrence.usage) && Unranked(g.occurrence.usage) && f.occurrence.usage != g.occurrence.usage
  }

  lemma LeastTie(lower: string -> string, findings: seq<Finding>, key: Key, f: Finding, g: Finding)
    requires Least(lower, findings, key, f) && Least(lower, findings, key, g)
    ensures PlaceOf(f.occurrence) != PlaceOf(g.occurrence) <==> UnrankedTie(lower, findings, key, f, g)
  {
    TiesAgree(f.occurrence, g.occurrence);
  }

  /** The place that a group shows depends on the order exactly if two of its least occurrences have different usages,
      and then both usages are unranked. */
  lemma ShownPlaceDependsOnUnranked(lower: string -> string, findings: seq<Finding>, key: Key)
    ensures ShownIsOrderless(lower, findings, key, PlaceOf) <==> !exists f, g :: UnrankedTie(lower, findings, key, f, g)
  {
    hide ShownIsOrderless, UnrankedTie;
    ShownDependsOnTies(lower, findings, key, PlaceOf);
    if f, g :| UnrankedTie(lower, findings, key, f, g) {
      TieIsLeast(lower, findings, key, f, g);
      LeastTie(lower, findings, key, f, g);
    } else {
      forall f, g | Least(lower, findings, key, f) && Least(lower, findings, key, g)
        ensures PlaceOf(f.occurrence) == PlaceOf(g.occurrence)
      {
        LeastTie(lower, findings, key, f, g);
      }
    }
  }

  lemma TieIsLeast(lower: string -> string, findings: seq<Finding>, key: Key, f: Finding, g: Finding)
    requires UnrankedTie(lower, findings, key, f, g)
    ensures Least(lower, findings, key, f) && Least(lower, findings, key, g)
  {
  }

  /** A finding to the front. */
  lemma ToFront(findings: seq<Finding>, f: Finding) returns (r: seq<Finding>)
    requires f in findings
    ensures r != [] && r[0] == f && multiset(r) == multiset(findings)
  {
    var i :| 0 <= i < |findings| && findings[i] == f;
    r := [f] + (findings[..i] + findings[i + 1..]);
    assert findings == findings[..i] + ([f] + findings[i + 1..]);
  }

  lemma SameElements(a: seq<Finding>, b: seq<Finding>)
    requires multiset(a) == multiset(b)
    ensures forall f :: f in a <==> f in b
  {
    forall f ensures f in a <==> f in b {
      assert f in a <==> f in multiset(a);
      assert f in b <==> f in multiset(b);
    }
  }

  lemma LeastShows(lower: string -> string, findings: seq<Finding>, key: Key, f: Finding) returns (r: seq<Finding>)
    requires Least(lower, findings, key, f)
    ensures multiset(r) == multiset(findings) && Shows(lower, r, |r|, key, f.occurrence)
  {
    r := ToFront(findings, f);
    SameElements(r, findings);
    forall j: nat | j < |r| && Belongs(lower, r, j, key) ensures !Less(r[j].occurrence, f.occurrence) {
      assert r[j] in r;
    }
    assert FirstLeast(lower, r, |r|, key, 0);
  }

  lemma ShownIsLeast(lower: string -> string, a: seq<Finding>, findings: seq<Finding>, key: Key, o: Occurrence)
    returns (f: Finding)
    requires multiset(a) == multiset(findings) && Shows(lower, a, |a|, key, o)
    ensures Least(lower, findings, key, f) && f.occurrence == o
  {
    var i: nat :| FirstLeast(lower, a, |a|, key, i) && a[i].occurrence == o;
    f := a[i];
    SameElements(a, findings);
    forall g <- findings | KeyOf(lower, g) == key ensures !Less(g.occurrence, o) {
      var j: nat :| j < |a| && a[j] == g;
      assert Belongs(lower, a, j, key);
      LessIsWeakOrder(o, g.occurrence, o);
    }
  }

  /** However the findings are ordered, the view of the finding that leads their group is the same. */
  ghost predicate LeaderIsOrderless<T(!new)>(lower: string -> string, findings: seq<Finding>, key: Key,
                                             view: Finding -> T) {
    forall a, b, f, g | multiset(a) == multiset(b) == multiset(findings) && Leads(lower, a, key, f) &&
      Leads(lower, b, key, g) ::
      view(f) == view(g)
  }

  /** A view of the leading finding, such as the spelling of its package, depends on the order exactly if it tells two
      findings of the group apart. */
  lemma LeaderDependsOnGroup<T(!new)>(lower: string -> string, findings: seq<Finding>, key: Key, view: Finding -> T)
    ensures LeaderIsOrderless(lower, findings, key, view)
            <==> forall f, g | f in findings && g in findings && KeyOf(lower, f) == key && KeyOf(lower, g) == key ::
                   view(f) == view(g)
  {
    if LeaderIsOrderless(lower, findings, key, view) {
      forall f, g | f in findings && g in findings && KeyOf(lower, f) == key && KeyOf(lower, g) == key
        ensures view(f) == view(g)
      {
        var a := ToFront(findings, f);
        var b := ToFront(findings, g);
        assert Belongs(lower, a, 0, key) && Belongs(lower, b, 0, key);
        assert Leads(lower, a, key, f) && Leads(lower, b, key, g);
      }
    } else {
      var a, b, f, g :| multiset(a) == multiset(b) == multiset(findings)
                        && Leads(lower, a, key, f) && Leads(lower, b, key, g) && view(f) != view(g);
      SameElements(a, findings);
      SameElements(b, findings);
      assert f in a && g in b;
    }
  }

  lemma TwoLeast(lower: string -> string, f: Finding, g: Finding)
    requires KeyOf(lower, f) == KeyOf(lower, g) && !Less(f.occurrence, g.occurrence) &&
             !Less(g.occurrence, f.occurrence)
    ensures Least(lower, [f, g], KeyOf(lower, f), f) && Least(lower, [f, g], KeyOf(lower, f), g)
  {
    LessIsWeakOrder(f.occurrence, f.occurrence, f.occurrence);
    LessIsWeakOrder(g.occurrence, g.occurrence, g.occurrence);
    assert f in [f, g] && g in [f, g];
  }

  function DetailsOf(o: Occurrence): string {
    o.details
  }

  /** Of two findings of one place whose details differ the order decides which details are shown. */
  lemma OrderDecidesDetails(lower: string -> string, f: Finding, g: Finding)
    requires KeyOf(lower, f) == KeyOf(lower, g) && PlaceOf(f.occurrence) == PlaceOf(g.occurrence)
    requires f.occurrence.details != g.occurrence.details
    ensures !ShownIsOrderless(lower, [f, g], KeyOf(lower, f), DetailsOf)
  {
    SamePlaceTies(f.occurrence, g.occurrence, f.occurrence);
    LessIsWeakOrder(f.occurrence, f.occurrence, f.occurrence);
    SamePlaceTies(f.occurrence, g.occurrence, g.occurrence);
    LessIsWeakOrder(g.occurrence, g.occurrence, g.occurrence);
    TwoLeast(lower, f, g);
    ShownDependsOnTies(lower, [f, g], KeyOf(lower, f), DetailsOf);
  }

  /** Of two findings that differ in unranked usages only it decides which place is shown. */
  lemma OrderDecidesPlace(lower: string -> string, f: Finding, usage: string)
    requires Unranked(f.occurrence.usage) && Unranked(usage) && usage != f.occurrence.usage
    ensures !ShownIsOrderless(lower, [f, f.(occurrence := f.occurrence.(usage := usage))], KeyOf(lower, f), PlaceOf)
  {
    var g := f.(occurrence := f.occurrence.(usage := usage));
    LessIsWeakOrder(f.occurrence, f.occurrence, f.occurrence);
    TwoLeast(lower, f, g);
    ShownPlaceDependsOnUnranked(lower, [f, g], KeyOf(lower, f));
    assert UnrankedTie(lower, [f, g], KeyOf(lower, f), f, g);
  }
}
