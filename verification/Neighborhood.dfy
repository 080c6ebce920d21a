/** The neighborhood of one repository in the topology: its components, the connections that touch them and,
    at depth two, the connections of their neighbors, each kind capped to the most useful ones. */
module Neighborhood {

  import opened TopologyNames
  import opened TopologyGraph
  import opened Topology

  const NEIGHBORHOOD_CAP := 12
  const CONTEXT_CAP := 12

  // ---------------------------------------------------------------- capping

  function Min(a: nat, b: nat): nat {
    if a < b then a else b
  }

  /** topologyConnectionUsefulness */
  function Usefulness(c: Connection): nat {
    (match c.state case Confirmed => 100 case StaticOnly => 60 case RuntimeOnly => 40)
    + (if c.confidence == "high" then 30 else if c.confidence == "medium" then 20 else if c.confidence == "low" then 10
       else 0)
    + (if c.targetResolved then 15 else 0)
    + (if c.runtime.Some? then Min(10, c.runtime.value.requestCount) else 0)
    + Min(5, c.evidence)
  }

  /** The order of connection ids, as text. */
  type IdOrder = (Key, Key) -> bool

  /** The left connection is not ranked after the right one: the more useful come first, then ids decide. */
  predicate Ranks(less: IdOrder, left: Connection, right: Connection) {
    Usefulness(left) > Usefulness(right) || (Usefulness(left) == Usefulness(right) && !less(right.id, left.id))
  }

  function Insert(less: IdOrder, ranked: seq<Connection>, c: Connection): (r: seq<Connection>)
    ensures multiset(r) == multiset(ranked) + multiset{c}
  {
    if ranked == [] then [c]
    else
      var front, last := ranked[..|ranked| - 1], ranked[|ranked| - 1];
      assert ranked == front + [last];
      if Ranks(less, last, c) then ranked + [c] else Insert(less, front, c) + [last]
  }

  /** A stable sort by rank, of the first n connections. */
  function Ranked(less: IdOrder, connections: seq<Connection>, n: nat): (r: seq<Connection>)
    requires n <= |connections|
    ensures multiset(r) == multiset(connections[..n])
  {
    if n == 0 then []
    else
      assert connections[..n] == connections[..n - 1] + [connections[n - 1]];
      Insert(less, Ranked(less, connections, n - 1), connections[n - 1])
  }

  /** Usefulness does not increase. */
  predicate Descends(connections: seq<Connection>) {
    forall i, j | 0 <= i < j < |connections| :: Usefulness(connections[i]) >= Usefulness(connections[j])
  }

  lemma {:induction false} InsertDescends(less: IdOrder, ranked: seq<Connection>, c: Connection)
    requires Descends(ranked)
    ensures Descends(Insert(less, ranked, c))
  {
    hide Usefulness;
    if ranked != [] {
      var front, last := ranked[..|ranked| - 1], ranked[|ranked| - 1];
      if !Ranks(less, last, c) {
        InsertDescends(less, front, c);
        var r := Insert(less, front, c);
        forall x <- r ensures Usefulness(x) >= Usefulness(last) {
          assert x in multiset(r);
          assert x == c || x in front;
        }
      }
    }
  }

  lemma {:induction false} RankedDescends(less: IdOrder, connections: seq<Connection>, n: nat)
    requires n <= |connections|
    ensures Descends(Ranked(less, connections, n))
  {
    if n > 0 {
      RankedDescends(less, connections, n - 1);
      InsertDescends(less, Ranked(less, connections, n - 1), connections[n - 1]);
    }
  }

  /** A strict total order of ids. */
  ghost predicate IsOrder(less: IdOrder) {
    && (forall a, b :: less(a, b) ==> !less(b, a) && a != b)
    && (forall a, b :: less(a, b) || a == b || less(b, a))
    && forall a, b, c :: less(a, b) && less(b, c) ==> less(a, c)
  }

  ghost predicate IsRanked(less: IdOrder, connections: seq<Connection>) {
    forall i, j | 0 <= i < j < |connections| :: Ranks(less, connections[i], connections[j])
  }

  lemma RanksIsTransitive(less: IdOrder, a: Connection, b: Connection, c: Connection)
    requires IsOrder(less) && Ranks(less, a, b) && Ranks(less, b, c)
    ensures Ranks(less, a, c)
  {
    hide Usefulness;
  }

  lemma {:induction false} InsertRanks(less: IdOrder, ranked: seq<Connection>, c: Connection)
    requires IsOrder(less) && IsRanked(less, ranked)
    ensures IsRanked(less, Insert(less, ranked, c))
  {
    hide Usefulness, IsOrder;
    if ranked != [] {
      var front, last := ranked[..|ranked| - 1], ranked[|ranked| - 1];
      assert forall x <- front :: Ranks(less, x, last);
      if Ranks(less, last, c) {
        forall x <- front ensures Ranks(less, x, c) {
          RanksIsTransitive(less, x, last, c);
        }
      } else {
        InsertRanks(less, front, c);
        var r := Insert(less, front, c);
        OneRanks(less, c, last);
        forall x <- r ensures Ranks(less, x, last) {
          assert x in multiset(r);
          assert x == c || x in front;
        }
      }
    }
  }

  lemma OneRanks(less: IdOrder, a: Connection, b: Connection)
    requires IsOrder(less) && !Ranks(less, b, a)
    ensures Ranks(less, a, b)
  {
    hide Usefulness;
  }

  lemma {:induction false} RankedInOrder(less: IdOrder, connections: seq<Connection>, n: nat)
    requires IsOrder(less) && n <= |connections|
    ensures IsRanked(less, Ranked(less, connections, n))
  {
    if n > 0 {
      RankedInOrder(less, connections, n - 1);
      InsertRanks(less, Ranked(less, connections, n - 1), connections[n - 1]);
    }
  }

  /** Of two connections in a ranked list the first is the more useful one, or their ids decide. */
  lemma {:induction false} RankedIsRanked(less: IdOrder, connections: seq<Connection>, i: nat, j: nat)
    requires IsOrder(less) && i < j < |Ranked(less, connections, |connections|)|
    ensures var ranked := Ranked(less, connections, |connections|);
            var before, after := Usefulness(ranked[i]), Usefulness(ranked[j]);
            before > after || (before == after && (ranked[i].id == ranked[j].id || less(ranked[i].id, ranked[j].id)))
  {
    hide Usefulness, Ranked;
    RankedInOrder(less, connections, |connections|);
    assert Ranks(less, Ranked(less, connections, |connections|)[i], Ranked(less, connections, |connections|)[j]);
  }

  /** What each merit of a connection is worth. */
  lemma UsefulnessAddsUp(c: Connection, other: string, m: Metrics, n: nat)
    requires other !in {"high", "medium", "low"}
    ensures Usefulness(c.(state := Confirmed)) == Usefulness(c.(state := StaticOnly)) + 40
    ensures Usefulness(c.(state := StaticOnly)) == Usefulness(c.(state := RuntimeOnly)) + 20
    ensures Usefulness(c.(targetResolved := true)) == Usefulness(c.(targetResolved := false)) + 15
    ensures Usefulness(c.(runtime := Some(m))) == Usefulness(c.(runtime := None)) + Min(10, m.requestCount)
    ensures Usefulness(c.(evidence := n)) == Usefulness(c.(evidence := 0)) + Min(5, n)
    ensures Usefulness(c.(confidence := "high")) == Usefulness(c.(confidence := "medium")) + 10
    ensures Usefulness(c.(confidence := "medium")) == Usefulness(c.(confidence := "low")) + 10
    ensures Usefulness(c.(confidence := "low")) == Usefulness(c.(confidence := other)) + 10
  {
    ConfidenceAddsUp(c, other);
  }

  lemma ConfidenceAddsUp(c: Connection, other: string)
    requires other !in {"high", "medium", "low"}
    ensures Usefulness(c.(confidence := "high")) == Usefulness(c.(confidence := "medium")) + 10
    ensures Usefulness(c.(confidence := "medium")) == Usefulness(c.(confidence := "low")) + 10
    ensures Usefulness(c.(confidence := "low")) == Usefulness(c.(confidence := other)) + 10
  {
    hide Min;
  }

  /** A connection that is known from run time only is less useful than any that was confirmed. */
  lemma ConfirmedOutranksObserved(naming: Naming, components: seq<Component>, o: Observation, c: Connection,
                                  d: Connection)
    requires c.state == Confirmed && d.state == RuntimeOnly && SameView(d, ObservedView(naming, components, o), true)
    ensures Usefulness(c) > Usefulness(d)
  {
  }

  /** What was left out of a list that was cut. */
  datatype Group = Group(omittedConnectionCount: nat, omittedComponentCount: nat)

  /** An end of an omitted connection that is not selected. */
  predicate IsOmitted(omitted: seq<Connection>, selected: set<Id>, id: Id) {
    id !in selected && IsEnd(omitted, id)
  }

  /** The connections kept and omitted make up the list, and no omitted one is more useful than a kept one. */
  ghost predicate Capped(connections: seq<Connection>, limit: nat, kept: seq<Connection>, omitted: seq<Connection>) {
    && multiset(kept) + multiset(omitted) == multiset(connections)
    && |kept| == Min(limit, |connections|)
    && forall k, o | k in kept && o in omitted :: Usefulness(k) >= Usefulness(o)
  }

  ghost predicate AreOmitted(ids: set<Id>, omitted: seq<Connection>, selected: set<Id>) {
    forall id :: id in ids <==> IsOmitted(omitted, selected, id)
  }

  /** What a group says of the omitted connections. */
  ghost predicate Counts(group: Group, omitted: seq<Connection>, selected: set<Id>) {
    && group.omittedConnectionCount == |omitted|
    && exists ids :: AreOmitted(ids, omitted, selected) && group.omittedComponentCount == |ids|
  }

  method OmittedComponents(rest: seq<Connection>, selected: set<Id>) returns (ids: set<Id>)
    ensures AreOmitted(ids, rest, selected)
  {
    ids := {};
    for n := 0 to |rest|
      invariant AreOmitted(ids, rest[..n], selected)
    {
      OneMoreOmitted(rest, n, selected);
      var c := rest[n];
      ids := ids + (if c.id.source in selected then {} else {c.id.source}) +
        (if c.id.target in selected then {} else {c.id.target});
    }
    assert rest[..|rest|] == rest;
  }

  lemma {:induction false} RankedIsWhole(less: IdOrder, connections: seq<Connection>)
    ensures var ranked := Ranked(less, connections, |connections|);
            |ranked| == |connections| && multiset(ranked) == multiset(connections) && Descends(ranked)
  {
    var ranked := Ranked(less, connections, |connections|);
    assert connections[..|connections|] == connections;
    assert |ranked| == |multiset(ranked)| && |connections| == |multiset(connections)|;
    RankedDescends(less, connections, |connections|);
  }

  lemma CutIsCapped(connections: seq<Connection>, limit: nat, ranked: seq<Connection>)
    requires limit <= |connections| == |ranked| && multiset(ranked) == multiset(connections) && Descends(ranked)
    ensures Capped(connections, limit, ranked[..limit], ranked[limit..])
  {
    assert ranked == ranked[..limit] + ranked[limit..];
  }

  /** capNeighborhoodConnections */
  method CapConnections(less: IdOrder, connections: seq<Connection>, limit: nat, selected: set<Id>)
    returns (kept: seq<Connection>, group: Option<Group>, ghost omitted: seq<Connection>)
    ensures Capped(connections, limit, kept, omitted)
    ensures group.None? <==> |connections| <= limit
    ensures group.Some? ==> Counts(group.value, omitted, selected)
    ensures if group.None? then kept == connections && omitted == []
            else kept + omitted == Ranked(less, connections, |connections|)
  {
    hide Ranked, Descends, IsOmitted, Usefulness;
    if |connections| <= limit {
      return connections, None, [];
    }
    var ranked := Ranked(less, connections, |connections|);
    RankedIsWhole(less, connections);
    CutIsCapped(connections, limit, ranked);
    var ids := OmittedComponents(ranked[limit..], selected);
    assert ranked[..limit] + ranked[limit..] == ranked;
    return ranked[..limit], Some(Group(|connections| - limit, |ids|)), ranked[limit..];
  }

  lemma OneMoreOmitted(rest: seq<Connection>, n: nat, selected: set<Id>)
    requires n < |rest|
    ensures forall id :: IsOmitted(rest[..n + 1], selected, id) <==>
              IsOmitted(rest[..n], selected, id) ||
                (id !in selected && (id == rest[n].id.source || id == rest[n].id.target))
  {
    assert rest[..n + 1] == rest[..n] + [rest[n]];
    forall id ensures IsEnd(rest[..n + 1], id) <==>
      IsEnd(rest[..n], id) || id == rest[n].id.source || id == rest[n].id.target {
      OneMoreEnd(rest[..n], rest[n], id);
    }
  }

  // ---------------------------------------------------------------- distance

  /** The component is selected or at most d connections, followed in either direction, away from a selected one. */
  predicate Within(connections: seq<Connection>, selected: set<Id>, id: Id, d: nat)
    decreases d
  {
    id in selected ||
    (d > 0 && exists c <- connections ::
       (c.id.source == id && Within(connections, selected, c.id.target, d - 1)) ||
       (c.id.target == id && Within(connections, selected, c.id.source, d - 1)))
  }

  /** A labelled copy of a connection of the topology, with both ends near. */
  predicate Near(connections: seq<Connection>, selected: set<Id>, d: nat, c: Connection) {
    && (exists e <- connections :: e.(direction := c.direction) == c)
    && Within(connections, selected, c.id.source, d) && Within(connections, selected, c.id.target, d)
  }

  lemma {:induction false} WithinMore(connections: seq<Connection>, selected: set<Id>, id: Id, d: nat)
    requires Within(connections, selected, id, d)
    ensures Within(connections, selected, id, d + 1)
    decreases d
  {
    if id !in selected {
      var c :| c in connections && ((c.id.source == id && Within(connections, selected, c.id.target, d - 1)) ||
                                    (c.id.target == id && Within(connections, selected, c.id.source, d - 1)));
      if c.id.source == id && Within(connections, selected, c.id.target, d - 1) {
        WithinMore(connections, selected, c.id.target, d - 1);
      } else {
        WithinMore(connections, selected, c.id.source, d - 1);
      }
    }
  }

  /** A connection with one end near has the other end one step farther at most. */
  lemma {:induction false} EndsAreNear(connections: seq<Connection>, selected: set<Id>, c: Connection, mark: string, d: nat)
    requires c in connections
    requires Within(connections, selected, c.id.source, d) || Within(connections, selected, c.id.target, d)
    ensures Near(connections, selected, d + 1, c.(direction := mark))
  {
    if Within(connections, selected, c.id.source, d) {
      WithinMore(connections, selected, c.id.source, d);
    }
    if Within(connections, selected, c.id.target, d) {
      WithinMore(connections, selected, c.id.target, d);
    }
  }

  // ---------------------------------------------------------------- the connections of a neighborhood

  /** Connections into the selected components, among the first n. */
  function InboundOf(connections: seq<Connection>, n: nat, selected: set<Id>): seq<Connection>
    requires n <= |connections|
  {
    if n == 0 then []
    else
      var c := connections[n - 1];
      InboundOf(connections, n - 1, selected) +
      if c.id.target in selected && c.id.source !in selected then [c.(direction := "inbound")] else []
  }

  function OutboundOf(connections: seq<Connection>, n: nat, selected: set<Id>): seq<Connection>
    requires n <= |connections|
  {
    if n == 0 then []
    else
      var c := connections[n - 1];
      OutboundOf(connections, n - 1, selected) + if c.id.source in selected then [c.(direction := "outbound")] else []
  }

  /** The connection leads into the selected components, from outside of them. */
  predicate LeadsIn(c: Connection, selected: set<Id>) {
    c.id.target in selected && c.id.source !in selected
  }

  function Touches(selected: set<Id>): Connection -> bool {
    (c: Connection) => c.id.source in selected || c.id.target in selected
  }

  /** The connections that touch a selected component are told apart, each once: those that lead in from outside, with
      the label "inbound", and all others, with the label "outbound". */
  lemma {:induction false} TouchingAre(connections: seq<Connection>, n: nat, selected: set<Id>)
    requires n <= |connections|
    ensures forall c :: c in InboundOf(connections, n, selected) <==>
              exists i | 0 <= i < n :: LeadsIn(connections[i], selected) &&
                                       c == connections[i].(direction := "inbound")
    ensures forall c :: c in OutboundOf(connections, n, selected) <==>
              exists i | 0 <= i < n :: connections[i].id.source in selected &&
                                       c == connections[i].(direction := "outbound")
    ensures |InboundOf(connections, n, selected)| + |OutboundOf(connections, n, selected)| ==
            Count(connections, n, Touches(selected))
  {
    if n > 0 {
      TouchingAre(connections, n - 1, selected);
    }
  }

  /** Everything listed is near. */
  ghost predicate AllNear(connections: seq<Connection>, selected: set<Id>, d: nat, listed: seq<Connection>) {
    forall c <- listed :: Near(connections, selected, d, c)
  }

  ghost predicate NeighborsNear(connections: seq<Connection>, selected: set<Id>, neighbors: set<Id>) {
    forall id <- neighbors :: Within(connections, selected, id, 1)
  }

  /** The connection leads from or to a selected component, and the component is its other end. */
  predicate IsNeighbor(c: Connection, selected: set<Id>, id: Id) {
    if c.id.target in selected && c.id.source !in selected then id == c.id.source
    else c.id.source in selected && id == c.id.target
  }

  /** What the loop over the connections has told apart, of the first n. */
  ghost predicate ToldApart(connections: seq<Connection>, selected: set<Id>, n: nat,
                            inbound: seq<Connection>, outbound: seq<Connection>, neighbors: set<Id>)
    requires n <= |connections|
  {
    && inbound == InboundOf(connections, n, selected) && outbound == OutboundOf(connections, n, selected)
    && AllNear(connections, selected, 1, inbound) && AllNear(connections, selected, 1, outbound)
    && (forall id <- neighbors :: exists c <- connections :: IsNeighbor(c, selected, id))
    && forall i, id | 0 <= i < n && IsNeighbor(connections[i], selected, id) :: id in neighbors
  }

  /** The loop that tells the connections of the selected components apart. */
  method Touching(connections: seq<Connection>, selected: set<Id>)
    returns (inbound: seq<Connection>, outbound: seq<Connection>, neighbors: set<Id>)
    ensures inbound == InboundOf(connections, |connections|, selected) &&
            outbound == OutboundOf(connections, |connections|, selected)
    ensures AllNear(connections, selected, 1, inbound) && AllNear(connections, selected, 1, outbound)
    ensures NeighborsNear(connections, selected, neighbors)
    ensures AreNeighbors(connections, selected, neighbors)
  {
    inbound, outbound, neighbors := [], [], {};
    for n := 0 to |connections|
      invariant ToldApart(connections, selected, n, inbound, outbound, neighbors)
    {
      inbound, outbound, neighbors := TellApart(connections, selected, n, inbound, outbound, neighbors);
    }
    forall id <- neighbors ensures Within(connections, selected, id, 1) {
      var c :| c in connections && IsNeighbor(c, selected, id);
      EndsAreNear(connections, selected, c, "", 0);
    }
  }

  method TellApart(connections: seq<Connection>, selected: set<Id>, n: nat, inbound: seq<Connection>,
                   outbound: seq<Connection>, neighbors: set<Id>)
    returns (inbound': seq<Connection>, outbound': seq<Connection>, neighbors': set<Id>)
    requires n < |connections| && ToldApart(connections, selected, n, inbound, outbound, neighbors)
    ensures ToldApart(connections, selected, n + 1, inbound', outbound', neighbors')
  {
    var c := connections[n];
    inbound', outbound', neighbors' := inbound, outbound, neighbors;
    if c.id.target in selected && c.id.source !in selected {
      EndsAreNear(connections, selected, c, "inbound", 0);
      assert IsNeighbor(c, selected, c.id.source);
      inbound' := inbound + [c.(direction := "inbound")];
      neighbors' := neighbors + {c.id.source};
    } else if c.id.source in selected {
      EndsAreNear(connections, selected, c, "outbound", 0);
      assert IsNeighbor(c, selected, c.id.target);
      outbound' := outbound + [c.(direction := "outbound")];
      neighbors' := neighbors + {c.id.target};
    }
  }

  /** The connection touches no selected component, but a neighbor of one. */
  predicate IsContext(connections: seq<Connection>, selected: set<Id>, c: Connection) {
    && c.id.source !in selected && c.id.target !in selected
    && exists d <- connections :: IsNeighbor(d, selected, c.id.source) || IsNeighbor(d, selected, c.id.target)
  }

  /** Connections of the neighbors that touch no selected component, among the first n. */
  function ContextsOf(connections: seq<Connection>, n: nat, selected: set<Id>): seq<Connection>
    requires n <= |connections|
  {
    if n == 0 then []
    else
      var c := connections[n - 1];
      ContextsOf(connections, n - 1, selected) +
      if IsContext(connections, selected, c) then [c.(direction := "context")] else []
  }

  /** The connections of neighbors that touch no selected component are listed, with the label "context". */
  lemma {:induction false} ContextsAre(connections: seq<Connection>, n: nat, selected: set<Id>)
    requires n <= |connections|
    ensures forall c :: c in ContextsOf(connections, n, selected) <==>
              exists i | 0 <= i < n :: IsContext(connections, selected, connections[i]) &&
                                       c == connections[i].(direction := "context")
    ensures |ContextsOf(connections, n, selected)| + Count(connections, n, Touches(selected)) <= n
  {
    hide IsNeighbor;
    if n > 0 {
      ContextsAre(connections, n - 1, selected);
    }
  }

  ghost predicate AreNeighbors(connections: seq<Connection>, selected: set<Id>, neighbors: set<Id>) {
    forall id :: id in neighbors <==> exists c <- connections :: IsNeighbor(c, selected, id)
  }

  method Contexts(connections: seq<Connection>, selected: set<Id>, neighbors: set<Id>)
    returns (contexts: seq<Connection>)
    requires NeighborsNear(connections, selected, neighbors) && AreNeighbors(connections, selected, neighbors)
    ensures AllNear(connections, selected, 2, contexts)
    ensures contexts == ContextsOf(connections, |connections|, selected)
  {
    hide IsNeighbor, Within, Near;
    contexts := [];
    for n := 0 to |connections|
      invariant AllNear(connections, selected, 2, contexts)
      invariant contexts == ContextsOf(connections, n, selected)
    {
      var c := connections[n];
      if c.id.source in selected || c.id.target in selected {
        continue;
      }
      if c.id.source !in neighbors && c.id.target !in neighbors {
        continue;
      }
      assert IsContext(connections, selected, c);
      EndsAreNear(connections, selected, c, "context", 1);
      contexts := contexts + [c.(direction := "context")];
    }
  }

  lemma AllNearer(connections: seq<Connection>, selected: set<Id>, d: nat, listed: seq<Connection>)
    requires AllNear(connections, selected, d, listed)
    ensures AllNear(connections, selected, d + 1, listed)
  {
    forall c <- listed ensures Near(connections, selected, d + 1, c) {
      WithinMore(connections, selected, c.id.source, d);
      WithinMore(connections, selected, c.id.target, d);
    }
  }

  lemma KeptAreNear(connections: seq<Connection>, selected: set<Id>, d: nat, listed: seq<Connection>, limit: nat,
                    kept: seq<Connection>, omitted: seq<Connection>)
    requires AllNear(connections, selected, d, listed) && Capped(listed, limit, kept, omitted)
    ensures AllNear(connections, selected, d, kept)
  {
    forall c <- kept ensures c in listed {
      assert c in multiset(kept);
      assert c in multiset(listed);
    }
  }

  // ---------------------------------------------------------------- the neighborhood

  /** How a request asks for a neighborhood: which way, and how far. */
  datatype Request = Request(repository: int, direction: string, depth: int)

  function DirectionOf(r: Request): (d: string)
    ensures r.direction != "" ==> d == r.direction
    ensures r.direction == "" ==> Goes(d, "inbound") && Goes(d, "outbound")
  {
    if r.direction == "" then "both" else r.direction
  }

  predicate Goes(direction: string, way: string) {
    direction == "both" || direction == way
  }

  function DepthOf(r: Request): (d: nat)
    ensures 1 <= d <= 2 && (d == 1 <==> r.depth <= 1)
  {
    if r.depth < 1 then 1 else if r.depth > 2 then 2 else r.depth
  }

  function Selected(t: Topology, repository: int): set<Id> {
    set c | c in t.components && c.repositoryId == repository :: c.id
  }

  predicate Belongs(components: seq<Component>, repository: int, id: Id) {
    exists c <- components :: c.repositoryId == repository && c.id == id
  }

  /** A component of the repository goes by this name. */
  predicate IsNameOf(naming: Naming, components: seq<Component>, repository: int, name: string) {
    exists c <- components :: c.repositoryId == repository && HasName(naming, c, name)
  }

  /** The names of one component. */
  method NamesOfOne(naming: Naming, component: Component) returns (names: set<string>)
    ensures forall name :: name in names <==> HasName(naming, component, name)
  {
    var aliases := component.aliases + [component.name];
    names := {};
    for n := 0 to |aliases|
      invariant forall name :: name in names <==> IsCalled(naming, aliases, n, name)
    {
      var normalized := naming.normalize(aliases[n]);
      if normalized != "" {
        names := names + {normalized};
      }
    }
    forall name ensures HasName(naming, component, name) <==> IsCalled(naming, aliases, |aliases|, name) {
    }
  }

  lemma OneMoreBelongs(components: seq<Component>, c: Component, repository: int, id: Id)
    ensures Belongs(components + [c], repository, id) <==>
            Belongs(components, repository, id) || (c.repositoryId == repository && c.id == id)
  {
    assert c in components + [c];
    if Belongs(components, repository, id) {
      var d :| d in components && d.repositoryId == repository && d.id == id;
      assert d in components + [c];
    }
  }

  lemma OneMoreName(naming: Naming, components: seq<Component>, c: Component, repository: int, name: string)
    ensures IsNameOf(naming, components + [c], repository, name) <==>
            IsNameOf(naming, components, repository, name) || (c.repositoryId == repository && HasName(naming, c, name))
  {
    hide HasName;
    assert c in components + [c];
    if IsNameOf(naming, components, repository, name) {
      var d :| d in components && d.repositoryId == repository && HasName(naming, d, name);
      assert d in components + [c];
    }
  }

  lemma OneMoreOfRepository(naming: Naming, components: seq<Component>, n: nat, repository: int)
    requires n < |components|
    ensures forall id :: Belongs(components[..n + 1], repository, id) <==>
              Belongs(components[..n], repository, id) ||
              (components[n].repositoryId == repository && components[n].id == id)
    ensures forall name :: IsNameOf(naming, components[..n + 1], repository, name) <==>
              IsNameOf(naming, components[..n], repository, name) ||
              (components[n].repositoryId == repository && HasName(naming, components[n], name))
  {
    hide HasName, Belongs, IsNameOf;
    assert components[..n + 1] == components[..n] + [components[n]];
    forall id ensures Belongs(components[..n + 1], repository, id) <==>
      Belongs(components[..n], repository, id) ||
      (components[n].repositoryId == repository && components[n].id == id) {
      OneMoreBelongs(components[..n], components[n], repository, id);
    }
    forall name ensures IsNameOf(naming, components[..n + 1], repository, name) <==>
      IsNameOf(naming, components[..n], repository, name) ||
      (components[n].repositoryId == repository && HasName(naming, components[n], name)) {
      OneMoreName(naming, components[..n], components[n], repository, name);
    }
  }

  /** The loop over the components: those of the repository, and the names they go by. */
  method Select(naming: Naming, t: Topology, repository: int) returns (selected: set<Id>, names: set<string>)
    ensures selected == Selected(t, repository)
    ensures forall id :: id in selected <==> Belongs(t.components, repository, id)
    ensures forall name :: name in names <==> IsNameOf(naming, t.components, repository, name)
  {
    hide HasName;
    selected, names := {}, {};
    for n := 0 to |t.components|
      invariant forall id :: id in selected <==> Belongs(t.components[..n], repository, id)
      invariant forall name :: name in names <==> IsNameOf(naming, t.components[..n], repository, name)
    {
      OneMoreOfRepository(naming, t.components, n, repository);
      if t.components[n].repositoryId != repository {
        continue;
      }
      selected := selected + {t.components[n].id};
      var more := NamesOfOne(naming, t.components[n]);
      names := names + more;
    }
    assert t.components[..|t.components|] == t.components;
  }

  /** A list of connections, capped, and what was left out of it. */
  datatype Cut = Cut(kept: seq<Connection>, group: Option<Group>)

  /** The list is connections near the selected components, cut to the most useful ones. */
  ghost predicate IsCut(t: Topology, selected: set<Id>, d: nat, cut: Cut, listed: seq<Connection>, limit: nat) {
    && AllNear(t.connections, selected, d, cut.kept)
    && (cut.group.None? <==> |listed| <= limit)
    && exists omitted :: Capped(listed, limit, cut.kept, omitted) &&
                         (cut.group.Some? ==> Counts(cut.group.value, omitted, selected))
  }

  method CutTo(t: Topology, selected: set<Id>, ghost d: nat, listed: seq<Connection>, limit: nat, less: IdOrder)
    returns (cut: Cut)
    requires AllNear(t.connections, selected, d, listed)
    ensures IsCut(t, selected, d, cut, listed, limit) && |cut.kept| <= limit
  {
    ghost var omitted;
    var kept, group;
    kept, group, omitted := CapConnections(less, listed, limit, selected);
    KeptAreNear(t.connections, selected, d, listed, limit, kept, omitted);
    cut := Cut(kept, group);
  }

  const NO_CUT := Cut([], None)

  /** The lists a neighborhood shows: connections in, out and of neighbors, as far as the request asks for them. */
  datatype Cuts = Cuts(inbound: Cut, outbound: Cut, context: Cut)

  ghost predicate AreCuts(t: Topology, selected: set<Id>, direction: string, depth: nat, cuts: Cuts) {
    var n := |t.connections|;
    && (if Goes(direction, "inbound") then IsCut(t, selected, 1, cuts.inbound, InboundOf(t.connections, n, selected),
                                                 NEIGHBORHOOD_CAP)
        else cuts.inbound == NO_CUT)
    && (if Goes(direction, "outbound") then IsCut(t, selected, 1, cuts.outbound, OutboundOf(t.connections, n, selected),
                                                  NEIGHBORHOOD_CAP)
        else cuts.outbound == NO_CUT)
    && (if depth == 2 then IsCut(t, selected, 2, cuts.context, ContextsOf(t.connections, n, selected), CONTEXT_CAP)
        else cuts.context == NO_CUT)
  }

  /** The connections a neighborhood shows. */
  method VisibleConnections(t: Topology, selected: set<Id>, direction: string, depth: nat, less: IdOrder)
    returns (visible: seq<Connection>, cuts: Cuts)
    requires depth == 1 || depth == 2
    ensures AreCuts(t, selected, direction, depth, cuts)
    ensures visible == cuts.inbound.kept + cuts.outbound.kept + cuts.context.kept
    ensures AllNear(t.connections, selected, depth, visible)
    ensures |visible| <= 2 * NEIGHBORHOOD_CAP + CONTEXT_CAP
  {
    var inbound, outbound, neighbors := Touching(t.connections, selected);
    var in', out', context := NO_CUT, NO_CUT, NO_CUT;
    if direction == "both" || direction == "inbound" {
      in' := CutTo(t, selected, 1, inbound, NEIGHBORHOOD_CAP, less);
    }
    if direction == "both" || direction == "outbound" {
      out' := CutTo(t, selected, 1, outbound, NEIGHBORHOOD_CAP, less);
    }
    visible := in'.kept + out'.kept;
    if depth == 2 {
      AllNearer(t.connections, selected, 1, visible);
      var contexts := Contexts(t.connections, selected, neighbors);
      context := CutTo(t, selected, 2, contexts, CONTEXT_CAP, less);
    }
    visible := visible + context.kept;
    cuts := Cuts(in', out', context);
  }

  /** The components with some ids. */
  method ComponentsAmong(components: seq<Component>, ids: set<Id>) returns (listed: seq<Component>)
    ensures forall c :: c in listed <==> c in components && c.id in ids
  {
    listed := [];
    for n := 0 to |components|
      invariant forall c :: c in listed <==> c in components[..n] && c.id in ids
    {
      assert components[..n + 1] == components[..n] + [components[n]];
      if components[n].id in ids {
        listed := listed + [components[n]];
      }
    }
    assert components[..|components|] == components;
  }

  method EndsOf(connections: seq<Connection>) returns (ids: set<Id>)
    ensures forall id :: id in ids <==> IsEnd(connections, id)
  {
    ids := {};
    for n := 0 to |connections|
      invariant forall id :: id in ids <==> IsEnd(connections[..n], id)
    {
      assert connections[..n + 1] == connections[..n] + [connections[n]];
      EndsGrow(connections[..n], connections[n], ids);
      ids := ids + {connections[n].id.source, connections[n].id.target};
    }
    assert connections[..|connections|] == connections;
  }

  /** The unresolved references of selected components, among the first n. */
  function OutgoingOf(unresolved: seq<Unresolved>, n: nat, selected: set<Id>, direction: string): seq<Unresolved>
    requires n <= |unresolved|
  {
    if n == 0 then []
    else
      var u := unresolved[n - 1];
      OutgoingOf(unresolved, n - 1, selected, direction) +
      if Goes(direction, "outbound") && u.source in selected then [u.(direction := "outbound")] else []
  }

  /** Those of other components that may mean a selected one. */
  function PossibleOf(unresolved: seq<Unresolved>, n: nat, selected: set<Id>, direction: string,
                      meant: Unresolved -> bool):
    seq<Unresolved>
    requires n <= |unresolved|
  {
    if n == 0 then []
    else
      var u := unresolved[n - 1];
      PossibleOf(unresolved, n - 1, selected, direction, meant) +
      if Goes(direction, "inbound") && u.source !in selected && meant(u) then [u.(direction := "possible_inbound")]
      else []
  }

  /** The references of the selected components are outgoing ones, if the request asks for those, and the references
      that may mean one of these, from elsewhere, possible inbound ones. */
  lemma {:induction false} ReferencesAre(unresolved: seq<Unresolved>, n: nat, selected: set<Id>, direction: string,
                                         meant: Unresolved -> bool)
    requires n <= |unresolved|
    ensures forall u :: u in OutgoingOf(unresolved, n, selected, direction) <==>
              (direction == "both" || direction == "outbound") &&
              exists i | 0 <= i < n :: unresolved[i].source in selected &&
                                       u == unresolved[i].(direction := "outbound")
    ensures forall u :: u in PossibleOf(unresolved, n, selected, direction, meant) <==>
              (direction == "both" || direction == "inbound") &&
              exists i | 0 <= i < n :: unresolved[i].source !in selected && meant(unresolved[i]) &&
                                       u == unresolved[i].(direction := "possible_inbound")
  {
    if n > 0 {
      ReferencesAre(unresolved, n - 1, selected, direction, meant);
    }
  }

  /** The reference may mean a component of the repository: its candidate, normalized, is a name of one. */
  function Meant(naming: Naming, components: seq<Component>, repository: int): Unresolved -> bool {
    (u: Unresolved) => IsNameOf(naming, components, repository, naming.normalize(u.candidate))
  }

  /** The loop over the unresolved references: each goes to one of the lists or to none. */
  method References(naming: Naming, t: Topology, repository: int, selected: set<Id>, names: set<string>,
                    direction: string)
    returns (outgoing: seq<Unresolved>, possible: seq<Unresolved>)
    requires forall name :: name in names <==> IsNameOf(naming, t.components, repository, name)
    ensures outgoing == OutgoingOf(t.unresolved, |t.unresolved|, selected, direction)
    ensures possible == PossibleOf(t.unresolved, |t.unresolved|, selected, direction,
                                   Meant(naming, t.components, repository))
    ensures |outgoing| + |possible| <= |t.unresolved|
    ensures forall u <- outgoing :: u.source in selected
  {
    hide HasName;
    outgoing, possible := [], [];
    for n := 0 to |t.unresolved|
      invariant outgoing == OutgoingOf(t.unresolved, n, selected, direction)
      invariant possible == PossibleOf(t.unresolved, n, selected, direction, Meant(naming, t.components, repository))
      invariant |outgoing| + |possible| <= n
      invariant forall u <- outgoing :: u.source in selected
    {
      var u := t.unresolved[n];
      if u.source in selected {
        if direction == "both" || direction == "outbound" {
          outgoing := outgoing + [u.(direction := "outbound")];
        }
        continue;
      }
      if direction != "both" && direction != "inbound" {
        continue;
      }
      NamesAreNotEmpty(naming, t.components, repository);
      var candidate := naming.normalize(u.candidate);
      if candidate != "" && candidate in names {
        possible := possible + [u.(direction := "possible_inbound")];
      }
    }
  }

  lemma NamesAreNotEmpty(naming: Naming, components: seq<Component>, repository: int)
    ensures !IsNameOf(naming, components, repository, "")
  {
  }

  /** Everything a scoped topology shows is near the selected components, and these are all there. */
  ghost predicate IsNeighborhood(t: Topology, r: Topology, selected: set<Id>, depth: nat) {
    && (forall c <- r.components :: c in t.components && Within(t.connections, selected, c.id, depth))
    && AllNear(t.connections, selected, depth, r.connections)
    && (forall c <- t.components | c.id in selected :: c in r.components)
    && forall u <- r.unresolved :: u.source in selected
  }

  lemma NeighborhoodIsClosed(t: Topology, r: Topology, selected: set<Id>, depth: nat, ids: set<Id>)
    requires Closed(t) && AllNear(t.connections, selected, depth, r.connections)
    requires forall id | IsEnd(r.connections, id) :: id in ids
    requires forall c :: c in r.components <==> c in t.components && c.id in ids
    ensures Closed(r)
  {
    forall c <- r.connections ensures HasComponent(r.components, c.id.source) &&
      HasComponent(r.components, c.id.target) {
      assert Near(t.connections, selected, depth, c);
      assert IsEnd(r.connections, c.id.source) && IsEnd(r.connections, c.id.target);
      var source :| source in t.components && source.id == c.id.source;
      var target :| target in t.components && target.id == c.id.target;
      assert source in r.components && target in r.components;
    }
  }

  lemma NeighborhoodIsNear(t: Topology, r: Topology, selected: set<Id>, depth: nat, ids: set<Id>)
    requires AllNear(t.connections, selected, depth, r.connections) && forall u <- r.unresolved :: u.source in selected
    requires forall id :: id in ids <==> id in selected || IsEnd(r.connections, id)
    requires forall c :: c in r.components <==> c in t.components && c.id in ids
    ensures IsNeighborhood(t, r, selected, depth)
  {
    forall id <- ids ensures Within(t.connections, selected, id, depth) {
      if id !in selected {
        var c :| c in r.connections && (c.id.source == id || c.id.target == id);
        assert Near(t.connections, selected, depth, c);
      }
    }
  }

  /** scopeTopologyNeighborhood, before it sorts.  What it makes of a closed topology is closed, so that
      SanitizeTopology leaves it alone; everything shown is near; and the summary is its own. */
  method ScopeNeighborhood(naming: Naming, t: Topology, request: Request, less: IdOrder)
    returns (r: Topology, possible: seq<Unresolved>, cuts: Cuts)
    requires Closed(t)
    ensures Closed(r)
    ensures AreCuts(t, Selected(t, request.repository), DirectionOf(request), DepthOf(request), cuts)
    ensures r.connections == cuts.inbound.kept + cuts.outbound.kept + cuts.context.kept
    ensures IsNeighborhood(t, r, Selected(t, request.repository), DepthOf(request))
    ensures |r.connections| <= 2 * NEIGHBORHOOD_CAP + CONTEXT_CAP
    ensures r.summary == SummaryOfTopology(r) && IsProtocolSet(r.protocols, r.connections, |r.connections|)
    ensures forall c <- t.components | c.repositoryId == request.repository :: c in r.components
    ensures var selected, direction, n := Selected(t, request.repository), DirectionOf(request), |t.unresolved|;
            var all := PossibleOf(t.unresolved, n, selected, direction,
                                  Meant(naming, t.components, request.repository));
            && r.unresolved == OutgoingOf(t.unresolved, n, selected, direction) && r.possibleInboundCount == |all|
            && possible == all[..Min(NEIGHBORHOOD_CAP, |all|)]
  {
    hide OutgoingOf, PossibleOf, AllNear, IsCut, AreCuts, Within, Count, Selected, IsNeighborhood, Closed, IsNameOf;
    hide IsProtocolSet;
    var direction, depth := DirectionOf(request), DepthOf(request);
    var selected, names := Select(naming, t, request.repository);
    var visible;
    visible, cuts := VisibleConnections(t, selected, direction, depth, less);
    var ends := EndsOf(visible);
    var outgoing;
    outgoing, possible := References(naming, t, request.repository, selected, names, direction);
    var components := ComponentsAmong(t.components, selected + ends);
    r := t.(components := components, connections := visible, unresolved := outgoing,
            possibleInboundCount := |possible|);
    if |possible| > NEIGHBORHOOD_CAP {
      possible := possible[..NEIGHBORHOOD_CAP];
    }
    var summary, protocols := RebuildSummary(r);
    r := r.(summary := summary, protocols := protocols);
    NeighborhoodIsClosed(t, r, selected, depth, selected + ends);
    NeighborhoodIsNear(t, r, selected, depth, selected + ends);
  }
}
