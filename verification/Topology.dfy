/** The service topology: the graph that was built, filtered, and summed up while it is assembled. */
module Topology {

  import opened TopologyNames
  import opened TopologyGraph

  // ---------------------------------------------------------------- the summary

  datatype Summary = Summary(componentCount: nat, serviceCount: nat, resourceCount: nat, connectionCount: nat,
                             confirmedCount: nat, runtimeOnlyCount: nat, staticOnlyCount: nat,
                             candidateCount: nat, unresolvedCount: nat, resolvedCount: nat, placeholderCount: nat,
                             suppressedSourceEdges: nat)

  /** A reference that could not be resolved to a component. */
  datatype Unresolved = Unresolved(id: string, source: Id, candidate: string, direction: string)

  datatype Topology = Topology(components: seq<Component>, connections: seq<Connection>, unresolved: seq<Unresolved>,
                               possibleInboundCount: nat, summary: Summary, protocols: set<string>)

  /** Components and connections are listed once. */
  predicate Listed(t: Topology) {
    && (forall i, j | 0 <= i < j < |t.components| :: t.components[i].id != t.components[j].id)
    && forall i, j | 0 <= i < j < |t.connections| :: t.connections[i].id != t.connections[j].id
  }

  /** Both ends of every connection are among the components. */
  predicate Closed(t: Topology) {
    forall c <- t.connections :: HasComponent(t.components, c.id.source) && HasComponent(t.components, c.id.target)
  }

  datatype Resolution = IsCandidate | IsUnresolved | IsResolved

  function ResolutionOf(c: Connection, candidates: set<Id>): Resolution {
    if c.id.target in candidates then IsCandidate
    else if "runtime:" <= c.id.target && !c.targetResolved then IsUnresolved
    else IsResolved
  }

  /** What a connection resolves to, in terms of what it was made from: an observed one is unresolved exactly if its
      target is known from run time only, a static one if besides the snapshot says that it is. */
  lemma ResolutionOfView(naming: Naming, components: seq<Component>, o: Observation, s: StaticConnection,
                         c: Connection, seen: bool, candidates: set<Id>)
    ensures SameView(c, ObservedView(naming, components, o), seen) ==>
              var target := Meaning(naming, components, o.targetName, o.targetKind);
              && (ResolutionOf(c, candidates) == IsCandidate <==> target in candidates)
              && (ResolutionOf(c, candidates) == IsUnresolved <==> target !in candidates && "runtime:" <= target)
    ensures SameView(c, StaticView(naming, s), seen) ==>
              && (ResolutionOf(c, candidates) == IsCandidate <==> s.target in candidates)
              && (ResolutionOf(c, candidates) == IsUnresolved <==>
                  s.target !in candidates && "runtime:" <= s.target && !s.targetResolved)
  {
  }

  function CandidateIds(components: seq<Component>): set<Id> {
    set c | c in components && c.candidate :: c.id
  }

  /** How many of the first n elements have a property. */
  function Count<T>(s: seq<T>, n: nat, f: T -> bool): nat
    requires n <= |s|
  {
    if n == 0 then 0 else Count(s, n - 1, f) + if f(s[n - 1]) then 1 else 0
  }

  function IsService(): Component -> bool {
    (c: Component) => c.kind == "service"
  }

  function IsResource(): Component -> bool {
    (c: Component) => c.kind != "service"
  }

  function InState(state: State): Connection -> bool {
    (c: Connection) => c.state == state
  }

  function Resolving(candidates: set<Id>, r: Resolution): Connection -> bool {
    (c: Connection) => ResolutionOf(c, candidates) == r
  }

  /** The summary of components and connections. */
  function SummaryOf(components: seq<Component>, connections: seq<Connection>, candidates: set<Id>,
                     placeholders: nat, suppressed: nat): Summary
  {
    var n, m := |components|, |connections|;
    Summary(n, Count(components, n, IsService()), Count(components, n, IsResource()), m,
            Count(connections, m, InState(Confirmed)), Count(connections, m, InState(RuntimeOnly)),
            Count(connections, m, InState(StaticOnly)),
            Count(connections, m, Resolving(candidates, IsCandidate)),
            Count(connections, m, Resolving(candidates, IsUnresolved)) + placeholders,
            Count(connections, m, Resolving(candidates, IsResolved)),
            placeholders, suppressed)
  }

  function SummaryOfTopology(t: Topology): Summary {
    SummaryOf(t.components, t.connections, CandidateIds(t.components), |t.unresolved| + t.possibleInboundCount,
              t.summary.suppressedSourceEdges)
  }

  /** Bumps the counter of a component. */
  function CountComponent(s: Summary, c: Component): Summary {
    if c.kind == "service" then s.(serviceCount := s.serviceCount + 1) else s.(resourceCount := s.resourceCount + 1)
  }

  /** Bumps the counters of a connection. */
  function CountConnection(s: Summary, c: Connection, candidates: set<Id>): Summary {
    var s' := match c.state
              case Confirmed => s.(confirmedCount := s.confirmedCount + 1)
              case RuntimeOnly => s.(runtimeOnlyCount := s.runtimeOnlyCount + 1)
              case StaticOnly => s.(staticOnlyCount := s.staticOnlyCount + 1);
    match ResolutionOf(c, candidates)
    case IsCandidate => s'.(candidateCount := s'.candidateCount + 1)
    case IsUnresolved => s'.(unresolvedCount := s'.unresolvedCount + 1)
    case IsResolved => s'.(resolvedCount := s'.resolvedCount + 1)
  }

  /** The counters of components. */
  predicate ComponentsCounted(s: Summary, components: seq<Component>, n: nat)
    requires n <= |components|
  {
    s.serviceCount == Count(components, n, IsService()) && s.resourceCount == Count(components, n, IsResource())
  }

  /** The counters of connections. */
  predicate ConnectionsCounted(s: Summary, connections: seq<Connection>, n: nat, candidates: set<Id>)
    requires n <= |connections|
  {
    && s.confirmedCount == Count(connections, n, InState(Confirmed)) &&
       s.runtimeOnlyCount == Count(connections, n, InState(RuntimeOnly))
    && s.staticOnlyCount == Count(connections, n, InState(StaticOnly))
    && s.candidateCount == Count(connections, n, Resolving(candidates, IsCandidate))
    && s.unresolvedCount == Count(connections, n, Resolving(candidates, IsUnresolved))
    && s.resolvedCount == Count(connections, n, Resolving(candidates, IsResolved))
  }

  method CountComponents(components: seq<Component>, start: Summary) returns (s: Summary)
    requires start.serviceCount == start.resourceCount == 0
    ensures ComponentsCounted(s, components, |components|)
    ensures s == start.(serviceCount := s.serviceCount, resourceCount := s.resourceCount)
  {
    s := start;
    for i := 0 to |components|
      invariant ComponentsCounted(s, components, i)
      invariant s == start.(serviceCount := s.serviceCount, resourceCount := s.resourceCount)
    {
      s := CountComponent(s, components[i]);
    }
  }

  lemma OneMoreConnection(s: Summary, connections: seq<Connection>, n: nat, candidates: set<Id>)
    requires n < |connections| && ConnectionsCounted(s, connections, n, candidates)
    ensures var s' := CountConnection(s, connections[n], candidates);
            ConnectionsCounted(s', connections, n + 1, candidates) && SameButConnections(s, s')
  {
  }

  method CountConnections(connections: seq<Connection>, candidates: set<Id>, start: Summary)
    returns (s: Summary, protocols: set<string>)
    requires ConnectionsCounted(start, connections, 0, candidates)
    ensures ConnectionsCounted(s, connections, |connections|, candidates)
    ensures SameButConnections(start, s)
    ensures IsProtocolSet(protocols, connections, |connections|)
  {
    hide ConnectionsCounted, CountConnection;
    s, protocols := start, {};
    for i := 0 to |connections|
      invariant ConnectionsCounted(s, connections, i, candidates) && SameButConnections(start, s)
      invariant IsProtocolSet(protocols, connections, i)
    {
      OneMoreConnection(s, connections, i, candidates);
      s := CountConnection(s, connections[i], candidates);
      protocols := protocols + {connections[i].protocol};
    }
  }

  predicate SameButConnections(s: Summary, t: Summary) {
    && s.componentCount == t.componentCount && s.serviceCount == t.serviceCount && s.resourceCount == t.resourceCount
    && s.connectionCount == t.connectionCount && s.placeholderCount == t.placeholderCount
    && s.suppressedSourceEdges == t.suppressedSourceEdges
  }

  predicate IsProtocolSet(protocols: set<string>, connections: seq<Connection>, n: nat)
    requires n <= |connections|
  {
    && (forall i | 0 <= i < n :: connections[i].protocol in protocols)
    && forall p <- protocols :: exists i | 0 <= i < n :: connections[i].protocol == p
  }

  /** The counters that are lengths. */
  function Completed(s: Summary, components: nat, connections: nat, placeholders: nat): Summary {
    s.(componentCount := components, connectionCount := connections, placeholderCount := placeholders,
       unresolvedCount := s.unresolvedCount + placeholders)
  }

  /** rebuildTopologySummary */
  method RebuildSummary(t: Topology) returns (summary: Summary, protocols: set<string>)
    ensures summary == SummaryOfTopology(t)
    ensures IsProtocolSet(protocols, t.connections, |t.connections|)
  {
    var start := Summary(0, 0, 0, 0, 0, 0, 0, 0, 0, 0, 0, t.summary.suppressedSourceEdges);
    var s := CountComponents(t.components, start);
    s, protocols := CountConnections(t.connections, CandidateIds(t.components), s);
    summary := Completed(s, |t.components|, |t.connections|, |t.unresolved| + t.possibleInboundCount);
  }

  // ---------------------------------------------------------------- what the summary says

  lemma {:induction false} StatesPartition(connections: seq<Connection>, n: nat)
    requires n <= |connections|
    ensures Count(connections, n, InState(Confirmed)) + Count(connections, n, InState(RuntimeOnly)) +
            Count(connections, n, InState(StaticOnly)) == n
  {
    if n > 0 {
      StatesPartition(connections, n - 1);
    }
  }

  lemma {:induction false} ResolutionsPartition(connections: seq<Connection>, n: nat, candidates: set<Id>)
    requires n <= |connections|
    ensures Count(connections, n, Resolving(candidates, IsCandidate)) +
            Count(connections, n, Resolving(candidates, IsUnresolved)) +
            Count(connections, n, Resolving(candidates, IsResolved)) == n
  {
    if n > 0 {
      ResolutionsPartition(connections, n - 1, candidates);
    }
  }

  lemma {:induction false} KindsPartition(components: seq<Component>, n: nat)
    requires n <= |components|
    ensures Count(components, n, IsService()) + Count(components, n, IsResource()) == n
  {
    if n > 0 {
      KindsPartition(components, n - 1);
    }
  }

  /** In every summary the counts by state, and those by resolution, sum to the connections; the counts by kind
      sum to the components. */
  lemma SummaryIsConserved(t: Topology)
    requires t.summary == SummaryOfTopology(t)
    ensures t.summary.confirmedCount + t.summary.runtimeOnlyCount + t.summary.staticOnlyCount ==
            t.summary.connectionCount
    ensures t.summary.candidateCount + (t.summary.unresolvedCount - t.summary.placeholderCount) +
            t.summary.resolvedCount ==
            t.summary.connectionCount
    ensures t.summary.serviceCount + t.summary.resourceCount == t.summary.componentCount
  {
    StatesPartition(t.connections, |t.connections|);
    ResolutionsPartition(t.connections, |t.connections|, CandidateIds(t.components));
    KindsPartition(t.components, |t.components|);
  }

  lemma {:induction false} CountOfConcat<T>(a: seq<T>, b: seq<T>, n: nat, f: T -> bool)
    requires n <= |b|
    ensures Count(a + b, |a| + n, f) == Count(a, |a|, f) + Count(b, n, f)
  {
    if n > 0 {
      CountOfConcat(a, b, n - 1, f);
    } else {
      CountOfPrefix(a, b, |a|, f);
    }
  }

  lemma {:induction false} CountOfPrefix<T>(a: seq<T>, b: seq<T>, n: nat, f: T -> bool)
    requires n <= |a|
    ensures Count(a + b, n, f) == Count(a, n, f)
  {
    if n > 0 {
      CountOfPrefix(a, b, n - 1, f);
    }
  }

  lemma WithoutOne<T>(b: seq<T>, i: nat)
    requires i < |b|
    ensures multiset(b[..i] + b[i + 1..]) == multiset(b) - multiset{b[i]}
  {
    assert b == b[..i] + [b[i]] + b[i + 1..];
  }

  lemma CountOfOne<T>(x: T, f: T -> bool)
    ensures Count([x], 1, f) == if f(x) then 1 else 0
  {
  }

  lemma CountWithoutOne<T>(b: seq<T>, i: nat, f: T -> bool)
    requires i < |b|
    ensures var rest := b[..i] + b[i + 1..];
            Count(b, |b|, f) == Count(rest, |rest|, f) + if f(b[i]) then 1 else 0
  {
    CountOfOne(b[i], f);
    hide Count;
    var left, x, right := b[..i], [b[i]], b[i + 1..];
    assert b == left + (x + right);
    CountOfConcat(left, x + right, 1 + |right|, f);
    CountOfConcat(x, right, |right|, f);
    CountOfConcat(left, right, |right|, f);
  }

  /** Sorting does not change a count. */
  lemma {:induction false} CountIsAnyOrder<T>(a: seq<T>, b: seq<T>, f: T -> bool)
    requires multiset(a) == multiset(b)
    ensures Count(a, |a|, f) == Count(b, |b|, f)
    decreases |a|
  {
    assert |a| == |multiset(a)| == |multiset(b)| == |b|;
    if a != [] {
      assert a[0] in multiset(b);
      var i :| 0 <= i < |b| && b[i] == a[0];
      WithoutOne(a, 0);
      WithoutOne(b, i);
      CountWithoutOne(a, 0, f);
      CountWithoutOne(b, i, f);
      CountIsAnyOrder(a[..0] + a[1..], b[..i] + b[i + 1..], f);
    }
  }

  /** The summary is that of the sorted lists too. */
  lemma SortingKeepsSummary(t: Topology, sorted: Topology)
    requires multiset(sorted.components) == multiset(t.components) &&
             multiset(sorted.connections) == multiset(t.connections)
    requires |sorted.unresolved| == |t.unresolved| && sorted.possibleInboundCount == t.possibleInboundCount
    requires sorted.summary == t.summary
    ensures SummaryOfTopology(sorted) == SummaryOfTopology(t)
  {
    assert |t.components| == |multiset(t.components)| && |t.connections| == |multiset(t.connections)|;
    assert |sorted.components| == |multiset(sorted.components)| &&
           |sorted.connections| == |multiset(sorted.connections)|;
    var candidates := CandidateIds(t.components);
    assert CandidateIds(sorted.components) == candidates by {
      assert forall c :: c in t.components <==> c in multiset(t.components);
      assert forall c :: c in sorted.components <==> c in multiset(sorted.components);
    }
    CountIsAnyOrder(sorted.components, t.components, IsService());
    CountIsAnyOrder(sorted.components, t.components, IsResource());
    CountIsAnyOrder(sorted.connections, t.connections, InState(Confirmed));
    CountIsAnyOrder(sorted.connections, t.connections, InState(RuntimeOnly));
    CountIsAnyOrder(sorted.connections, t.connections, InState(StaticOnly));
    CountIsAnyOrder(sorted.connections, t.connections, Resolving(candidates, IsCandidate));
    CountIsAnyOrder(sorted.connections, t.connections, Resolving(candidates, IsUnresolved));
    CountIsAnyOrder(sorted.connections, t.connections, Resolving(candidates, IsResolved));
  }

  // ---------------------------------------------------------------- the guard

  function Surviving(components: seq<Component>, connections: seq<Connection>, n: nat): seq<Connection>
    requires n <= |connections|
  {
    if n == 0 then []
    else
      var c := connections[n - 1];
      Surviving(components, connections, n - 1) +
      if HasComponent(components, c.id.source) && HasComponent(components, c.id.target) then [c] else []
  }

  predicate HasEnds(components: seq<Component>, c: Connection) {
    HasComponent(components, c.id.source) && HasComponent(components, c.id.target)
  }

  lemma {:induction false} SurvivorsHaveEnds(components: seq<Component>, connections: seq<Connection>, n: nat)
    requires n <= |connections|
    ensures forall c <- Surviving(components, connections, n) :: HasEnds(components, c)
    ensures |Surviving(components, connections, n)| <= n
    ensures |Surviving(components, connections, n)| == n ==> Surviving(components, connections, n) == connections[..n]
  {
    if n > 0 {
      SurvivorsHaveEnds(components, connections, n - 1);
      assert connections[..n] == connections[..n - 1] + [connections[n - 1]];
      if |Surviving(components, connections, n)| == n {
        assert Surviving(components, connections, n - 1) == connections[..n - 1];
      }
    }
  }

  lemma {:induction false} AllSurvive(components: seq<Component>, connections: seq<Connection>, n: nat)
    requires n <= |connections| && forall c <- connections :: HasEnds(components, c)
    ensures |Surviving(components, connections, n)| == n
  {
    if n > 0 {
      AllSurvive(components, connections, n - 1);
      assert HasEnds(components, connections[n - 1]);
    }
  }

  /** SanitizeTopology: a topology that is closed comes back as it is, any other without the connections
      that lack an end, and summed up anew. */
  method SanitizeTopology(t: Topology) returns (r: Topology)
    ensures Closed(r)
    ensures Closed(t) ==> r == t
    ensures r.components == t.components && r.connections == Surviving(t.components, t.connections, |t.connections|)
    ensures r != t ==>
              r.summary == SummaryOfTopology(r) && IsProtocolSet(r.protocols, r.connections, |r.connections|)
  {
    var connections: seq<Connection> := [];
    var hidden := 0;
    for n := 0 to |t.connections|
      invariant connections == Surviving(t.components, t.connections, n) && hidden == n - |connections|
    {
      var c := t.connections[n];
      if !HasComponent(t.components, c.id.source) || !HasComponent(t.components, c.id.target) {
        hidden := hidden + 1;
        continue;
      }
      connections := connections + [c];
    }
    SurvivorsHaveEnds(t.components, t.connections, |t.connections|);
    if forall c <- t.connections :: HasEnds(t.components, c) {
      AllSurvive(t.components, t.connections, |t.connections|);
    }
    hide HasComponent, Surviving, SummaryOf;
    if hidden == 0 {
      return t;
    }
    r := t.(connections := connections);
    var summary, protocols := RebuildSummary(r);
    r := r.(summary := summary, protocols := protocols);
  }

  // ---------------------------------------------------------------- assembling

  /** The filters of a request: which connections and unresolved references it shows, whether it has a query
      and which components match it, and the repository it is about, if any. */
  datatype View = View(shown: Connection -> bool, wanted: Unresolved -> bool, querying: bool,
                       matches: Component -> bool,
                       repository: int)

  /** The connections outside `rest` that the view shows are listed, once each. */
  ghost predicate Collected(connections: map<Key, Connection>, shown: Connection -> bool, rest: set<Key>,
                            listed: seq<Connection>) {
    && (forall c <- listed :: c.id in connections && c.id !in rest && connections[c.id] == c && shown(c))
    && (forall k | k in connections && k !in rest && shown(connections[k]) :: connections[k] in listed)
    && forall i, j | 0 <= i < j < |listed| :: listed[i].id != listed[j].id
  }

  lemma CountedAppend(s: Summary, listed: seq<Connection>, c: Connection, candidates: set<Id>)
    requires ConnectionsCounted(s, listed, |listed|, candidates)
    ensures ConnectionsCounted(CountConnection(s, c, candidates), listed + [c], |listed| + 1, candidates)
    ensures SameButConnections(s, CountConnection(s, c, candidates))
  {
    CountOfPrefix(listed, [c], |listed|, InState(Confirmed));
    CountOfPrefix(listed, [c], |listed|, InState(RuntimeOnly));
    CountOfPrefix(listed, [c], |listed|, InState(StaticOnly));
    CountOfPrefix(listed, [c], |listed|, Resolving(candidates, IsCandidate));
    CountOfPrefix(listed, [c], |listed|, Resolving(candidates, IsUnresolved));
    CountOfPrefix(listed, [c], |listed|, Resolving(candidates, IsResolved));
  }

  predicate IsEnd(connections: seq<Connection>, id: Id) {
    exists c <- connections :: c.id.source == id || c.id.target == id
  }

  /** What the loop over the connections has done. */
  ghost predicate Collecting(connections: map<Key, Connection>, shown: Connection -> bool, candidates: set<Id>,
                             start: Summary, rest: set<Key>,
                             listed: seq<Connection>, visible: set<Id>, protocols: set<string>, s: Summary)
  {
    && Collected(connections, shown, rest, listed)
    && (forall id :: id in visible <==> IsEnd(listed, id))
    && IsProtocolSet(protocols, listed, |listed|)
    && ConnectionsCounted(s, listed, |listed|, candidates) && SameButConnections(start, s)
  }

  lemma OneMoreEnd(listed: seq<Connection>, c: Connection, id: Id)
    ensures IsEnd(listed + [c], id) <==> IsEnd(listed, id) || c.id.source == id || c.id.target == id
  {
    var grown := listed + [c];
    if IsEnd(listed, id) {
      var d :| d in listed && (d.id.source == id || d.id.target == id);
      assert d in grown;
    }
    assert c in grown;
  }

  lemma EndsGrow(listed: seq<Connection>, c: Connection, visible: set<Id>)
    requires forall id :: id in visible <==> IsEnd(listed, id)
    ensures forall id :: id in visible + {c.id.source, c.id.target} <==> IsEnd(listed + [c], id)
  {
    forall id ensures id in visible + {c.id.source, c.id.target} <==> IsEnd(listed + [c], id) {
      OneMoreEnd(listed, c, id);
    }
  }

  lemma OneMoreCollected(connections: map<Key, Connection>, shown: Connection -> bool, rest: set<Key>,
                         listed: seq<Connection>, k: Key)
    requires Collected(connections, shown, rest, listed) && k in rest && k in connections && connections[k].id == k
    ensures Collected(connections, shown, rest - {k},
                      if shown(connections[k]) then listed + [connections[k]] else listed)
  {
  }

  /** The loop over the connections, in whatever order the map is visited. */
  method CollectConnections(connections: map<Key, Connection>, shown: Connection -> bool, candidates: set<Id>,
                            start: Summary)
    returns (listed: seq<Connection>, visible: set<Id>, protocols: set<string>, s: Summary)
    requires forall k <- connections :: connections[k].id == k
    requires start == Nothing(start.suppressedSourceEdges)
    ensures Collecting(connections, shown, candidates, start, {}, listed, visible, protocols, s)
  {
    listed, visible, protocols, s := [], {}, {}, start;
    var rest := connections.Keys;
    while rest != {}
      invariant rest <= connections.Keys
      invariant Collecting(connections, shown, candidates, start, rest, listed, visible, protocols, s)
      decreases |rest|
    {
      var k :| k in rest;
      listed, visible, protocols, s := CollectOne(connections, shown, candidates, start, rest, k, listed, visible,
                                                  protocols, s);
      rest := rest - {k};
    }
  }

  method CollectOne(connections: map<Key, Connection>, shown: Connection -> bool, candidates: set<Id>,
                    ghost start: Summary, ghost rest: set<Key>,
                    k: Key, listed: seq<Connection>, visible: set<Id>, protocols: set<string>, s: Summary)
    returns (listed': seq<Connection>, visible': set<Id>, protocols': set<string>, s': Summary)
    requires k in rest && k in connections && connections[k].id == k
    requires Collecting(connections, shown, candidates, start, rest, listed, visible, protocols, s)
    ensures Collecting(connections, shown, candidates, start, rest - {k}, listed', visible', protocols', s')
  {
    hide Collected, ConnectionsCounted, CountConnection, IsProtocolSet, IsEnd;
    var connection := connections[k];
    OneMoreCollected(connections, shown, rest, listed, k);
    if !shown(connection) {
      return listed, visible, protocols, s;
    }
    OneMoreProtocol(protocols, listed, connection);
    CountedAppend(s, listed, connection, candidates);
    protocols' := protocols + {connection.protocol};
    visible' := visible + {connection.id.source, connection.id.target};
    s' := CountConnection(s, connection, candidates);
    listed' := listed + [connection];
    EndsGrow(listed, connection, visible);
  }

  lemma OneMoreProtocol(protocols: set<string>, listed: seq<Connection>, c: Connection)
    requires IsProtocolSet(protocols, listed, |listed|)
    ensures IsProtocolSet(protocols + {c.protocol}, listed + [c], |listed| + 1)
  {
    var grown := listed + [c];
    forall p | p in protocols + {c.protocol} ensures exists i | 0 <= i < |grown| :: grown[i].protocol == p {
      if p in protocols {
        var i :| 0 <= i < |listed| && listed[i].protocol == p;
        assert grown[i].protocol == p;
      } else {
        assert grown[|listed|].protocol == p;
      }
    }
  }

  /** Which components are listed: with connections the ends of these and what the view is about, without
      any all that match the query. */
  predicate Keeps(view: View, visible: set<Id>, connected: bool, c: Component) {
    && !(connected && c.id !in visible && !(view.repository > 0 && c.repositoryId == view.repository))
    && !(view.querying && !connected && !view.matches(c))
  }

  /** What the loop over the nodes has listed: those outside `rest` to keep, once each. */
  ghost predicate Keeping(nodes: map<Id, Component>, view: View, visible: set<Id>, connected: bool, rest: set<Id>,
                          listed: seq<Component>) {
    && (forall c <- listed :: c.id in nodes && c.id !in rest && nodes[c.id] == c && Keeps(view, visible, connected, c))
    && (forall id | id in nodes && id !in rest :: Keeps(view, visible, connected, nodes[id]) ==> nodes[id] in listed)
    && forall i, j | 0 <= i < j < |listed| :: listed[i].id != listed[j].id
  }

  lemma OneMoreKept(nodes: map<Id, Component>, view: View, visible: set<Id>, connected: bool, rest: set<Id>,
                    listed: seq<Component>, id: Id)
    requires Keeping(nodes, view, visible, connected, rest, listed) && id in rest && id in nodes && nodes[id].id == id
    ensures Keeping(nodes, view, visible, connected, rest - {id},
                    if Keeps(view, visible, connected, nodes[id]) then listed + [nodes[id]] else listed)
  {
  }

  lemma CountedComponents(s: Summary, listed: seq<Component>, c: Component)
    requires ComponentsCounted(s, listed, |listed|)
    ensures ComponentsCounted(CountComponent(s, c), listed + [c], |listed| + 1)
  {
    CountOfPrefix(listed, [c], |listed|, IsService());
    CountOfPrefix(listed, [c], |listed|, IsResource());
  }

  /** The loop over the nodes. */
  method CollectComponents(nodes: map<Id, Component>, view: View, visible: set<Id>, connected: bool, start: Summary)
    returns (listed: seq<Component>, s: Summary)
    requires (forall id <- nodes :: nodes[id].id == id) && start.serviceCount == start.resourceCount == 0
    ensures Keeping(nodes, view, visible, connected, {}, listed)
    ensures ComponentsCounted(s, listed, |listed|) &&
            s == start.(serviceCount := s.serviceCount, resourceCount := s.resourceCount)
  {
    listed, s := [], start;
    var rest := nodes.Keys;
    while rest != {}
      invariant rest <= nodes.Keys && Keeping(nodes, view, visible, connected, rest, listed)
      invariant ComponentsCounted(s, listed, |listed|) &&
                s == start.(serviceCount := s.serviceCount, resourceCount := s.resourceCount)
      decreases |rest|
    {
      var id :| id in rest;
      var component := nodes[id];
      OneMoreKept(nodes, view, visible, connected, rest, listed, id);
      rest := rest - {id};
      if connected && id !in visible && !(view.repository > 0 && component.repositoryId == view.repository) {
        continue;
      }
      if view.querying && !connected && !view.matches(component) {
        continue;
      }
      CountedComponents(s, listed, component);
      listed := listed + [component];
      s := CountComponent(s, component);
    }
  }

  /** Those of the first n references whose source is known and that the view shows. */
  function Wanted(nodes: set<Id>, all: seq<Unresolved>, n: nat, wanted: Unresolved -> bool): seq<Unresolved>
    requires n <= |all|
  {
    if n == 0 then []
    else
      var u := all[n - 1];
      Wanted(nodes, all, n - 1, wanted) + if u.source in nodes && wanted(u) then [u] else []
  }

  lemma OneMoreTime(listed: seq<Unresolved>, v: Unresolved, u: Unresolved)
    ensures multiset(listed + [v])[u] == multiset(listed)[u] + if u == v then 1 else 0
  {
  }

  /** A reference is listed if its source is known and the view shows it, as often as it is there. */
  lemma {:induction false} WantedAreListed(nodes: set<Id>, all: seq<Unresolved>, n: nat, wanted: Unresolved -> bool,
                                           u: Unresolved)
    requires n <= |all|
    ensures multiset(Wanted(nodes, all, n, wanted))[u] ==
            if u.source in nodes && wanted(u) then multiset(all[..n])[u] else 0
  {
    if n > 0 {
      WantedAreListed(nodes, all, n - 1, wanted, u);
      assert all[..n] == all[..n - 1] + [all[n - 1]];
      OneMoreTime(all[..n - 1], all[n - 1], u);
      OneMoreTime(Wanted(nodes, all, n - 1, wanted), all[n - 1], u);
      assert Wanted(nodes, all, n - 1, wanted) + [] == Wanted(nodes, all, n - 1, wanted);
    }
  }

  lemma {:induction false} AllWantedAreListed(nodes: set<Id>, all: seq<Unresolved>, wanted: Unresolved -> bool)
    ensures forall u :: u in Wanted(nodes, all, |all|, wanted) <==> u in all && u.source in nodes && wanted(u)
  {
    hide Wanted;
    assert all[..|all|] == all;
    forall u ensures u in Wanted(nodes, all, |all|, wanted) <==> u in all && u.source in nodes && wanted(u) {
      WantedAreListed(nodes, all, |all|, wanted, u);
      assert u in Wanted(nodes, all, |all|, wanted) <==> u in multiset(Wanted(nodes, all, |all|, wanted));
      assert u in all <==> u in multiset(all);
    }
  }

  /** The loop over the unresolved references. */
  method CollectUnresolved(nodes: map<Id, Component>, all: seq<Unresolved>, wanted: Unresolved -> bool, start: set<Id>)
    returns (listed: seq<Unresolved>, visible: set<Id>)
    ensures listed == Wanted(nodes.Keys, all, |all|, wanted)
    ensures forall u :: u in listed <==> u in all && u.source in nodes && wanted(u)
    ensures forall id :: id in visible <==> id in start || exists u <- listed :: u.source == id
  {
    listed, visible := [], start;
    for n := 0 to |all|
      invariant listed == Wanted(nodes.Keys, all, n, wanted)
      invariant forall id :: id in visible <==> id in start || exists u <- listed :: u.source == id
    {
      if all[n].source !in nodes || !wanted(all[n]) {
        continue;
      }
      listed := listed + [all[n]];
      visible := visible + {all[n].source};
    }
    AllWantedAreListed(nodes.Keys, all, wanted);
  }

  function CandidateNodes(nodes: map<Id, Component>): set<Id> {
    set id | id in nodes && nodes[id].candidate
  }

  lemma {:induction false} SameResolutions(connections: seq<Connection>, n: nat, a: set<Id>, b: set<Id>, r: Resolution)
    requires n <= |connections| && forall c <- connections :: c.id.target in a <==> c.id.target in b
    ensures Count(connections, n, Resolving(a, r)) == Count(connections, n, Resolving(b, r))
  {
    if n > 0 {
      SameResolutions(connections, n - 1, a, b, r);
    }
  }

  lemma ListedCandidates(nodes: map<Id, Component>, components: seq<Component>, id: Id)
    requires forall i <- nodes :: nodes[i].id == i
    requires (forall c <- components :: c.id in nodes && nodes[c.id] == c) && HasComponent(components, id)
    ensures id in CandidateNodes(nodes) <==> id in CandidateIds(components)
  {
  }

  lemma KeptAreClosed(nodes: map<Id, Component>, connections: map<Key, Connection>, view: View, listed: seq<Connection>,
                      visible: set<Id>, components: seq<Component>)
    requires WellBuilt(nodes, connections) && Collected(connections, view.shown, {}, listed)
    requires Keeping(nodes, view, visible, listed != [], {}, components)
    requires forall id | IsEnd(listed, id) :: id in visible
    ensures forall c <- listed :: HasComponent(components, c.id.source) && HasComponent(components, c.id.target)
  {
    forall c <- listed ensures HasComponent(components, c.id.source) && HasComponent(components, c.id.target) {
      assert IsEnd(listed, c.id.source) && IsEnd(listed, c.id.target);
      assert nodes[c.id.source] in components && nodes[c.id.target] in components;
    }
  }

  lemma KeptCountAlike(nodes: map<Id, Component>, listed: seq<Connection>, components: seq<Component>, s: Summary)
    requires forall id <- nodes :: nodes[id].id == id
    requires forall c <- components :: c.id in nodes && nodes[c.id] == c
    requires forall c <- listed :: HasComponent(components, c.id.target)
    requires ConnectionsCounted(s, listed, |listed|, CandidateNodes(nodes))
    ensures ConnectionsCounted(s, listed, |listed|, CandidateIds(components))
  {
    var a, b := CandidateNodes(nodes), CandidateIds(components);
    forall c <- listed ensures c.id.target in a <==> c.id.target in b {
      ListedCandidates(nodes, components, c.id.target);
    }
    SameResolutions(listed, |listed|, a, b, IsCandidate);
    SameResolutions(listed, |listed|, a, b, IsUnresolved);
    SameResolutions(listed, |listed|, a, b, IsResolved);
  }

  /** Which components a topology lists: with connections the ends of these, the sources of the unresolved
      references and what the view is about, without any all that match the query. */
  ghost predicate ListsComponents(t: Topology, nodes: map<Id, Component>, view: View) {
    && (forall c <- t.components :: c.id in nodes && nodes[c.id] == c)
    && forall id <- nodes :: nodes[id] in t.components <==>
         if t.connections == [] then !view.querying || view.matches(nodes[id])
         else IsEnd(t.connections, id) || (exists u <- t.unresolved :: u.source == id) ||
              (view.repository > 0 && nodes[id].repositoryId == view.repository)
  }

  lemma KeptAreListed(nodes: map<Id, Component>, view: View, visible: set<Id>, t: Topology)
    requires forall id <- nodes :: nodes[id].id == id
    requires Keeping(nodes, view, visible, t.connections != [], {}, t.components)
    requires forall id :: id in visible <==> IsEnd(t.connections, id) || exists u <- t.unresolved :: u.source == id
    ensures ListsComponents(t, nodes, view)
  {
  }

  function Nothing(suppressed: nat): Summary {
    Summary(0, 0, 0, 0, 0, 0, 0, 0, 0, 0, 0, suppressed)
  }

  lemma CountedIsSummary(t: Topology, s: Summary, suppressed: nat)
    requires ConnectionsCounted(s, t.connections, |t.connections|, CandidateIds(t.components))
    requires ComponentsCounted(s, t.components, |t.components|)
    requires s.suppressedSourceEdges == suppressed && t.possibleInboundCount == 0
    requires t.summary == Completed(s, |t.components|, |t.connections|, |t.unresolved|)
    ensures t.summary == SummaryOfTopology(t)
  {
  }

  /** What makes a topology an assembled one. */
  ghost predicate Assembled(nodes: map<Id, Component>, connections: map<Key, Connection>,
                            unresolved: seq<Unresolved>, view: View, suppressed: nat, t: Topology) {
    && Closed(t) && Listed(t)
    && t.summary == SummaryOfTopology(t) && IsProtocolSet(t.protocols, t.connections, |t.connections|)
    && Collected(connections, view.shown, {}, t.connections) && ListsComponents(t, nodes, view)
    && t.unresolved == Wanted(nodes.Keys, unresolved, |unresolved|, view.wanted)
    && (forall u :: u in t.unresolved <==> u in unresolved && u.source in nodes && view.wanted(u))
    && t.possibleInboundCount == 0 && t.summary.suppressedSourceEdges == suppressed
  }

  lemma {:induction false} PartsAssemble(nodes: map<Id, Component>, connections: map<Key, Connection>, view: View, visible: set<Id>,
                      visible': set<Id>,
                      s: Summary, s': Summary, unresolved: seq<Unresolved>, suppressed: nat, t: Topology)
    requires WellBuilt(nodes, connections)
    requires t.unresolved == Wanted(nodes.Keys, unresolved, |unresolved|, view.wanted)
    requires forall u :: u in t.unresolved <==> u in unresolved && u.source in nodes && view.wanted(u)
    requires Collecting(connections, view.shown, CandidateNodes(nodes), Nothing(suppressed), {}, t.connections, visible,
                        t.protocols, s)
    requires forall id :: id in visible' <==> id in visible || exists u <- t.unresolved :: u.source == id
    requires Keeping(nodes, view, visible', t.connections != [], {}, t.components)
    requires ComponentsCounted(s', t.components, |t.components|)
    requires s' == s.(serviceCount := s'.serviceCount, resourceCount := s'.resourceCount)
    requires t.possibleInboundCount == 0 && t.summary == Completed(s', |t.components|, |t.connections|, |t.unresolved|)
    ensures Assembled(nodes, connections, unresolved, view, suppressed, t)
  {
    KeptAreClosed(nodes, connections, view, t.connections, visible', t.components);
    KeptCountAlike(nodes, t.connections, t.components, s);
    CountedIsSummary(t, s', suppressed);
    KeptAreListed(nodes, view, visible', t);
  }

  /** The second half of buildTopology, before it sorts and scopes: what is listed is closed, listed once, and
      the summary counted on the way is the one that a rebuild would give. */
  method Assemble(nodes: map<Id, Component>, connections: map<Key, Connection>, unresolved: seq<Unresolved>, view: View,
                  suppressed: nat)
    returns (t: Topology)
    requires WellBuilt(nodes, connections)
    ensures Assembled(nodes, connections, unresolved, view, suppressed, t)
  {
    var listed, visible, protocols, s := CollectConnections(connections, view.shown, CandidateNodes(nodes),
                                                            Nothing(suppressed));
    var references, visible' := CollectUnresolved(nodes, unresolved, view.wanted, visible);
    var components, s' := CollectComponents(nodes, view, visible', listed != [], s);
    t := Topology(components, listed, references, 0, Completed(s', |components|, |listed|, |references|), protocols);
    PartsAssemble(nodes, connections, view, visible, visible', s, s', unresolved, suppressed, t);
  }

  lemma RatesAreFractions(nodes: map<Id, Component>, connections: map<Key, Connection>, unresolved: seq<Unresolved>,
                          view: View, suppressed: nat, t: Topology)
    requires Stored(connections) && Assembled(nodes, connections, unresolved, view, suppressed, t)
    ensures forall c <- t.connections :: c.runtime.Some? ==> 0.0 <= c.runtime.value.errorRate <= 1.0
  {
    forall c <- t.connections | c.runtime.Some? ensures 0.0 <= c.runtime.value.errorRate <= 1.0 {
      RateIsFraction(c);
    }
  }

  /** buildTopology, before it sorts and scopes.  `connections` are all it built, before the filters, `nodes` all
      components; `views` is how connections were first stored and `observed` how often they were observed. */
  method BuildTopology(naming: Naming, components: seq<Component>, statics: seq<StaticConnection>,
                       observations: seq<Observation>, filter: Filter, unresolved: seq<Unresolved>, view: View,
                       suppressed: nat)
    returns (t: Topology, missing: nat, ghost nodes: map<Id, Component>, ghost connections: map<Key, Connection>,
             ghost observed: map<Key, nat>, ghost views: map<Key, Connection>)
    requires forall o <- observations :: Validated(o)
    ensures Assembled(nodes, connections, unresolved, view, suppressed, t)
    ensures NodesFrom(naming, components, MentionsOf(naming, filter, observations, |observations|), nodes)
    ensures var declared := DeclaredViews(naming, components, statics, |statics|);
            && Classified(connections, declared.Keys, observed) && Viewed(connections, views, observed)
            && IsRecorded(naming, filter, components, declared, observations, |observations|, connections, observed,
                          views)
    ensures missing == CountMissing(components, statics, |statics|)
    ensures forall c <- t.connections :: c.runtime.Some? ==> 0.0 <= c.runtime.value.errorRate <= 1.0
  {
    hide Stored, WellBuilt, Collected, Classified, IsRecorded, Indexes, NodesFrom, Viewed, Assembled, DeclaredViews;
    var builder := new Builder(naming);
    builder.AddComponents(components);
    builder.AddConnections(statics);
    builder.AddObservations(filter, observations);
    nodes, connections, observed, views := builder.nodes, builder.connections, builder.observed, builder.views;
    missing := builder.missingReferences;
    t := Assemble(builder.nodes, builder.connections, unresolved, view, suppressed);
    RatesAreFractions(nodes, connections, unresolved, view, suppressed, t);
  }
}
