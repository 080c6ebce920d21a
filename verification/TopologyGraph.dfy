/** Building the graph of the service topology: the components and connections of a snapshot, merged with what
    was observed at run time. */
module TopologyGraph {

  import opened MapSums
  import opened TopologyNames

  datatype State = StaticOnly | RuntimeOnly | Confirmed

  datatype Metrics = Metrics(requestCount: nat, errorCount: nat, errorRate: real)

  /** What identifies a connection: topologyConnectionKey joins these. */
  datatype Key = Key(source: Id, target: Id, protocol: string, interaction: string, transport: string,
                     environment: string)

  datatype Connection = Connection(id: Key, protocol: string, environment: string, state: State, confidence: string,
                                   origins: seq<string>, targetResolved: bool, evidence: nat, runtime: Option<Metrics>,
                                   direction: string)

  datatype StaticConnection = StaticConnection(source: Id, target: Id, protocol: string, interaction: string,
                                               transport: string, environment: string, confidence: string,
                                               origin: string, targetResolved: bool,
                                               evidence: nat)

  /** A validated observation: no more errors than requests. */
  datatype Observation = Observation(sourceName: string, sourceKind: string, targetName: string, targetKind: string,
                                     protocol: string, interaction: string, transport: string, environment: string,
                                     provider: string, requestCount: nat, errorCount: nat)

  predicate Validated(o: Observation) {
    o.errorCount <= o.requestCount
  }

  datatype Filter = Filter(provider: string, environment: string)

  predicate Accepted(naming: Naming, filter: Filter, o: Observation) {
    && (filter.provider == "" || naming.lower(filter.provider) == naming.lower(o.provider))
    && (filter.environment == "" || naming.lower(filter.environment) == naming.lower(o.environment))
  }

  function KeyOf(naming: Naming, source: Id, target: Id, protocol: string, interaction: string, transport: string,
                 environment: string): Key {
    Key(source, target, naming.lower(protocol), naming.lower(interaction), naming.lower(transport),
        naming.lower(environment))
  }

  function StaticKey(naming: Naming, c: StaticConnection): Key {
    KeyOf(naming, c.source, c.target, c.protocol, c.interaction, c.transport, c.environment)
  }

  /** Connections are the same if they have the same ends and agree in everything else but case. */
  lemma KeysAgree(naming: Naming, c: StaticConnection, d: StaticConnection)
    ensures StaticKey(naming, c) == StaticKey(naming, d) <==>
            && c.source == d.source && c.target == d.target
            && naming.lower(c.protocol) == naming.lower(d.protocol)
            && naming.lower(c.interaction) == naming.lower(d.interaction)
            && naming.lower(c.transport) == naming.lower(d.transport)
            && naming.lower(c.environment) == naming.lower(d.environment)
  {
  }

  // ---------------------------------------------------------------- metrics

  function Rate(requestCount: nat, errorCount: nat): real {
    if requestCount > 0 then errorCount as real / requestCount as real else 0.0
  }

  /** Errors are requests, and the rate is theirs. */
  predicate Consistent(c: Connection) {
    c.runtime.Some? ==>
      && c.runtime.value.errorCount <= c.runtime.value.requestCount
      && c.runtime.value.errorRate == Rate(c.runtime.value.requestCount, c.runtime.value.errorCount)
  }

  function Requests(c: Connection): nat {
    if c.runtime.Some? then c.runtime.value.requestCount else 0
  }

  function Errors(c: Connection): nat {
    if c.runtime.Some? then c.runtime.value.errorCount else 0
  }

  ghost function RequestsOf(connections: map<Key, Connection>): map<Key, nat> {
    map k | k in connections :: Requests(connections[k])
  }

  ghost function ErrorsOf(connections: map<Key, Connection>): map<Key, nat> {
    map k | k in connections :: Errors(connections[k])
  }

  lemma RateIsFraction(c: Connection)
    requires Consistent(c) && c.runtime.Some?
    ensures 0.0 <= c.runtime.value.errorRate <= 1.0
  {
    var r, e := c.runtime.value.requestCount, c.runtime.value.errorCount;
    if r > 0 {
      FractionOfWhole(e as real, r as real);
    }
  }

  lemma FractionOfWhole(e: real, r: real)
    requires 0.0 <= e <= r && r > 0.0
    ensures 0.0 <= e / r <= 1.0
  {
    assert (e / r) * r == e;
  }

  // ---------------------------------------------------------------- what was observed

  /** An observed name. */
  datatype Mention = Mention(name: string, kind: string, origin: string)

  ghost function IdOf(naming: Naming, components: seq<Component>, m: Mention): Id {
    Meaning(naming, components, m.name, m.kind)
  }

  /** The two names of an observation. */
  function NamesOf(o: Observation): seq<Mention> {
    [Mention(o.sourceName, o.sourceKind, "runtime"), Mention(o.targetName, o.targetKind, "runtime")]
  }

  /** The names in the first n observations that pass the filter. */
  function MentionsOf(naming: Naming, filter: Filter, os: seq<Observation>, n: nat): seq<Mention>
    requires n <= |os|
  {
    if n == 0 then []
    else MentionsOf(naming, filter, os, n - 1) + if Accepted(naming, filter, os[n - 1]) then NamesOf(os[n - 1]) else []
  }

  /** The connection that an observation names. */
  ghost function KeyObserved(naming: Naming, components: seq<Component>, o: Observation): Key {
    KeyOf(naming, Meaning(naming, components, o.sourceName, o.sourceKind),
          Meaning(naming, components, o.targetName, o.targetKind), o.protocol, o.interaction, o.transport,
          o.environment)
  }

  /** Where an observation goes: to the connection of its own environment, or else to one of no environment; only if
      there is neither it makes a connection of its own. */
  function Closest(naming: Naming, keys: set<Key>, key: Key, environment: string): Key {
    var unqualified := key.(environment := naming.lower(""));
    if key !in keys && environment != "" && unqualified in keys then unqualified else key
  }

  /** Where each of the first n observations goes, if it passes the filter. */
  ghost function Destinations(naming: Naming, filter: Filter, components: seq<Component>, declared: set<Key>,
                              os: seq<Observation>, n: nat): (ds: seq<Option<Key>>)
    requires n <= |os|
    ensures |ds| == n
  {
    if n == 0 then []
    else
      var ds := Destinations(naming, filter, components, declared, os, n - 1);
      var o := os[n - 1];
      ds + [if !Accepted(naming, filter, o) then None
            else Some(Closest(naming, declared + KeysIn(ds), KeyObserved(naming, components, o), o.environment))]
  }

  function KeysIn(ds: seq<Option<Key>>): set<Key> {
    set d | d in ds && d.Some? :: d.value
  }

  /** What is counted of an observation. */
  type Weight = Observation -> nat

  function Once(): Weight {
    (o: Observation) => 1
  }

  function ByRequests(): Weight {
    (o: Observation) => o.requestCount
  }

  function ByErrors(): Weight {
    (o: Observation) => o.errorCount
  }

  /** The sum over the observations that go to a connection. */
  function SumTo(os: seq<Observation>, ds: seq<Option<Key>>, k: Key, w: Weight): nat
    requires |ds| <= |os|
  {
    if ds == [] then 0
    else
      var n := |ds| - 1;
      SumTo(os, ds[..n], k, w) + if ds[n] == Some(k) then w(os[n]) else 0
  }

  /** The sum over the first n observations that pass the filter. */
  function AcceptedSum(naming: Naming, filter: Filter, os: seq<Observation>, n: nat, w: Weight): nat
    requires n <= |os|
  {
    if n == 0 then 0
    else AcceptedSum(naming, filter, os, n - 1, w) + if Accepted(naming, filter, os[n - 1]) then w(os[n - 1]) else 0
  }

  /** Connections on one route differ in their environments only. */
  function RouteOf(k: Key): Key {
    k.(environment := "")
  }

  /** The sum over those among them that name a connection on the route. */
  ghost function AcceptedAlong(naming: Naming, filter: Filter, components: seq<Component>, os: seq<Observation>, n: nat,
                               w: Weight, route: Key): nat
    requires n <= |os|
  {
    if n == 0 then 0
    else AcceptedAlong(naming, filter, components, os, n - 1, w, route) +
         if Accepted(naming, filter, os[n - 1]) && RouteOf(KeyObserved(naming, components, os[n - 1])) == route
         then w(os[n - 1]) else 0
  }

  ghost function Along(m: map<Key, nat>, route: Key): map<Key, nat> {
    map k | k in m && RouteOf(k) == route :: m[k]
  }

  function Times(m: map<Key, nat>, k: Key): nat {
    if k in m then m[k] else 0
  }

  /** The numbers at the connections account for all observations: each connection has the sum over those that went
      to it, all have the sum over those that pass the filter, and those on a route have the sum over those that name
      a connection on it. */
  ghost predicate Accounts(naming: Naming, filter: Filter, components: seq<Component>, os: seq<Observation>,
                           ds: seq<Option<Key>>, m: map<Key, nat>, w: Weight)
    requires |ds| <= |os|
  {
    && (forall k :: Times(m, k) == SumTo(os, ds, k, w))
    && Total(m) == AcceptedSum(naming, filter, os, |ds|, w)
    && forall route :: Total(Along(m, route)) == AcceptedAlong(naming, filter, components, os, |ds|, w, route)
  }

  lemma NothingAccounts(naming: Naming, filter: Filter, components: seq<Component>, os: seq<Observation>,
                        m: map<Key, nat>, w: Weight)
    requires forall k <- m :: m[k] == 0
    ensures Accounts(naming, filter, components, os, [], m, w)
  {
    NothingObserved(m);
    forall route ensures Total(Along(m, route)) == 0 {
      NothingObserved(Along(m, route));
    }
  }

  lemma {:induction false} NothingObserved(m: map<Key, nat>)
    requires forall k <- m :: m[k] == 0
    ensures Total(m) == 0
    decreases |m|
  {
    if m != map[] {
      var k :| k in m;
      TotalIsAnyOrder(m, k);
      NothingObserved(m - {k});
    }
  }

  lemma TotalAlong(m: map<Key, nat>, k: Key, more: nat, route: Key)
    ensures Total(Along(m[k := Times(m, k) + more], route)) ==
            Total(Along(m, route)) + if RouteOf(k) == route then more else 0
  {
    var m' := m[k := Times(m, k) + more];
    if RouteOf(k) == route {
      assert Along(m', route) == Along(m, route)[k := Times(m, k) + more];
      TotalAfterUpdate(Along(m, route), k, Times(m, k) + more);
    } else {
      assert Along(m', route) == Along(m, route);
    }
  }

  lemma {:induction false} OneMoreSum(os: seq<Observation>, ds: seq<Option<Key>>, d: Option<Key>, k: Key, w: Weight)
    requires |ds| < |os|
    ensures SumTo(os, ds + [d], k, w) == SumTo(os, ds, k, w) + if d == Some(k) then w(os[|ds|]) else 0
  {
    assert (ds + [d])[..|ds|] == ds;
  }

  /** One more observation, which goes to a connection on the route that it names. */
  lemma OneMoreAccounts(naming: Naming, filter: Filter, components: seq<Component>, os: seq<Observation>,
                        ds: seq<Option<Key>>, d: Option<Key>, m: map<Key, nat>, m': map<Key, nat>, w: Weight)
    requires |ds| < |os| && Accounts(naming, filter, components, os, ds, m, w)
    requires d.Some? <==> Accepted(naming, filter, os[|ds|])
    requires d.Some? ==> RouteOf(d.value) == RouteOf(KeyObserved(naming, components, os[|ds|]))
    requires m' == if d.None? then m else m[d.value := Times(m, d.value) + w(os[|ds|])]
    ensures Accounts(naming, filter, components, os, ds + [d], m', w)
  {
    hide Along, KeyObserved, RouteOf, Accepted, SumTo;
    forall k ensures Times(m', k) == SumTo(os, ds + [d], k, w) {
      OneMoreSum(os, ds, d, k, w);
    }
    if d.Some? {
      TotalAfterUpdate(m, d.value, Times(m, d.value) + w(os[|ds|]));
      forall route ensures Total(Along(m', route)) == Total(Along(m, route)) +
        if RouteOf(d.value) == route then w(os[|ds|]) else 0 {
        TotalAlong(m, d.value, w(os[|ds|]), route);
      }
    }
  }

  // ---------------------------------------------------------------- the connections

  function WithOrigin(origins: seq<string>, origin: string): (r: seq<string>)
    ensures origins <= r && forall o :: o in r <==> o in origins || o == origin
  {
    if origin in origins then origins else origins + [origin]
  }

  /** The connection an observation confirms, if any: with its environment or else without one. */
  function Existing(naming: Naming, connections: map<Key, Connection>, key: Key,
                    environment: string): Option<Connection> {
    if key in connections then Some(connections[key])
    else if environment != "" && key.(environment := naming.lower("")) in connections
    then Some(connections[key.(environment := naming.lower(""))])
    else None
  }

  /** The metrics with one more observation. */
  function Observed(m: Option<Metrics>, o: Observation): Metrics {
    var before := if m.Some? then m.value else Metrics(0, 0, 0.0);
    var requests, errors := before.requestCount + o.requestCount, before.errorCount + o.errorCount;
    Metrics(requests, errors, if requests > 0 then errors as real / requests as real else before.errorRate)
  }

  /** The connection to store for an observation: the existing one, confirmed, or a new one. */
  function Confirm(naming: Naming, connections: map<Key, Connection>, fresh': Connection, o: Observation): Connection {
    var existing := Existing(naming, connections, fresh'.id, o.environment);
    var view := if existing.None? then fresh'
                else existing.value.(state := Confirmed, origins := WithOrigin(existing.value.origins, "runtime"));
    view.(runtime := Some(Observed(view.runtime, o)))
  }

  /** Every connection is stored under its id, with consistent metrics. */
  ghost predicate Stored(connections: map<Key, Connection>) {
    forall k <- connections :: connections[k].id == k && Consistent(connections[k])
  }

  /** The graph that was built: components and connections are stored under their ids, and the ends are known. */
  ghost predicate WellBuilt(nodes: map<Id, Component>, connections: map<Key, Connection>) {
    && (forall id <- nodes :: nodes[id].id == id)
    && forall k <- connections :: connections[k].id == k && k.source in nodes && k.target in nodes
  }

  /** The state of a connection that the snapshot declares or not and that so many observations went to. */
  function StateAfter(declared: bool, observations: nat): State {
    if observations == 0 then StaticOnly else if declared || observations > 1 then Confirmed else RuntimeOnly
  }

  /** There is a connection for every key that was declared or observed, and its state and metrics tell which. */
  ghost predicate Classified(connections: map<Key, Connection>, declared: set<Key>, observed: map<Key, nat>) {
    && connections.Keys == declared + observed.Keys
    && (forall k <- observed :: observed[k] > 0)
    && forall k <- connections ::
         && connections[k].state == StateAfter(k in declared, Times(observed, k))
         && (connections[k].runtime.Some? <==> k in observed)
  }

  /** The connection is what it was when it was first stored, but for its state and metrics; if it was observed, run
      time is one of its origins. */
  ghost predicate SameView(c: Connection, view: Connection, seen: bool) {
    && c == view.(state := c.state, origins := c.origins, runtime := c.runtime)
    && c.origins == if seen then WithOrigin(view.origins, "runtime") else view.origins
  }

  ghost predicate Viewed(connections: map<Key, Connection>, views: map<Key, Connection>, observed: map<Key, nat>) {
    connections.Keys == views.Keys && forall k <- views :: SameView(connections[k], views[k], k in observed)
  }

  /** How a static connection is first stored. */
  function StaticView(naming: Naming, c: StaticConnection): Connection {
    Connection(StaticKey(naming, c), c.protocol, c.environment, StaticOnly, c.confidence, [c.origin], c.targetResolved,
               c.evidence, None, "")
  }

  /** How a connection is stored that is known from an observation only. */
  ghost function ObservedView(naming: Naming, components: seq<Component>, o: Observation): Connection {
    var key := KeyObserved(naming, components, o);
    Connection(key, o.protocol, o.environment, RuntimeOnly, "observed", ["runtime"], !("runtime:" <= key.target), 0,
               None, "")
  }

  predicate EndsKnown(components: seq<Component>, c: StaticConnection) {
    HasComponent(components, c.source) && HasComponent(components, c.target)
  }

  /** The connections that the first n static ones declare. */
  function DeclaredViews(naming: Naming, components: seq<Component>, statics: seq<StaticConnection>, n: nat):
    map<Key, Connection>
    requires n <= |statics|
  {
    if n == 0 then map[]
    else
      var views, c := DeclaredViews(naming, components, statics, n - 1), statics[n - 1];
      if EndsKnown(components, c) then views[StaticKey(naming, c) := StaticView(naming, c)] else views
  }

  /** Static connection number i has known ends, and none of those from there to n has its key too. */
  ghost predicate Declares(naming: Naming, components: seq<Component>, statics: seq<StaticConnection>, n: nat, i: nat,
                           k: Key)
    requires n <= |statics|
  {
    && i < n && StaticKey(naming, statics[i]) == k && EndsKnown(components, statics[i])
    && forall j | i < j < n && EndsKnown(components, statics[j]) :: StaticKey(naming, statics[j]) != k
  }

  /** A key is declared by the last static connection that has it and whose ends are known. */
  lemma {:induction false} LastDeclares(naming: Naming, components: seq<Component>, statics: seq<StaticConnection>,
                                        n: nat, k: Key)
    requires n <= |statics|
    ensures var views := DeclaredViews(naming, components, statics, n);
            if k in views then exists i: nat :: Declares(naming, components, statics, n, i, k) &&
                                           views[k] == StaticView(naming, statics[i])
            else forall i | 0 <= i < n && EndsKnown(components, statics[i]) :: StaticKey(naming, statics[i]) != k
  {
    hide EndsKnown, StaticKey, StaticView;
    if n > 0 {
      var views := DeclaredViews(naming, components, statics, n - 1);
      LastDeclares(naming, components, statics, n - 1, k);
      if EndsKnown(components, statics[n - 1]) && StaticKey(naming, statics[n - 1]) == k {
        assert Declares(naming, components, statics, n, n - 1, k);
      } else if k in views {
        var i: nat :| Declares(naming, components, statics, n - 1, i, k) && views[k] == StaticView(naming, statics[i]);
        assert Declares(naming, components, statics, n, i, k);
      }
    }
  }

  /** The connection was made for observation number i, the first that went to it. */
  ghost predicate Opens(naming: Naming, components: seq<Component>, os: seq<Observation>, ds: seq<Option<Key>>,
                        i: nat, k: Key, view: Connection)
    requires |ds| <= |os|
  {
    && i < |ds| && ds[i] == Some(k) && view == ObservedView(naming, components, os[i])
    && forall j | 0 <= j < i :: ds[j] != Some(k)
  }

  /** A connection is first stored as it was declared or else as it was first observed. */
  ghost predicate ViewsFrom(naming: Naming, components: seq<Component>, os: seq<Observation>, ds: seq<Option<Key>>,
                            declared: map<Key, Connection>, views: map<Key, Connection>)
    requires |ds| <= |os|
  {
    && (forall k <- declared :: k in views && views[k] == declared[k])
    && forall k <- views | k !in declared :: exists i: nat :: Opens(naming, components, os, ds, i, k, views[k])
  }

  lemma OneMoreKey(ds: seq<Option<Key>>, d: Option<Key>)
    ensures KeysIn(ds + [d]) == KeysIn(ds) + if d.Some? then {d.value} else {}
  {
  }

  lemma NoKey(ds: seq<Option<Key>>, k: Key)
    requires k !in KeysIn(ds)
    ensures forall j | 0 <= j < |ds| :: ds[j] != Some(k)
  {
    forall j | 0 <= j < |ds| ensures ds[j] != Some(k) {
      assert ds[j] in ds;
    }
  }

  /** One more observation makes a connection only if there is none that it goes to. */
  lemma OneMoreView(naming: Naming, components: seq<Component>, os: seq<Observation>, ds: seq<Option<Key>>,
                    d: Option<Key>, declared: map<Key, Connection>, views: map<Key, Connection>,
                    views': map<Key, Connection>)
    requires |ds| < |os| && ViewsFrom(naming, components, os, ds, declared, views)
    requires views.Keys == declared.Keys + KeysIn(ds)
    requires d.None? || d.value in views ==> views' == views
    requires d.Some? && d.value !in views ==> views' == views[d.value := ObservedView(naming, components, os[|ds|])]
    ensures ViewsFrom(naming, components, os, ds + [d], declared, views')
    ensures views'.Keys == declared.Keys + KeysIn(ds + [d])
  {
    hide ObservedView, KeysIn;
    OneMoreKey(ds, d);
    forall k <- views' | k !in declared ensures exists i: nat :: Opens(naming, components, os, ds + [d], i, k, views'[k]) {
      if k in views {
        var i: nat :| Opens(naming, components, os, ds, i, k, views[k]);
        assert Opens(naming, components, os, ds + [d], i, k, views'[k]);
      } else {
        NoKey(ds, k);
        assert Opens(naming, components, os, ds + [d], |ds|, k, views'[k]);
      }
    }
  }

  lemma DeclaringKeeps(nodes: map<Id, Component>, connections: map<Key, Connection>, declared: set<Key>,
                       views: map<Key, Connection>, view: Connection)
    requires WellBuilt(nodes, connections) && Stored(connections) && Classified(connections, declared, map[])
    requires Viewed(connections, views, map[])
    requires view.id.source in nodes && view.id.target in nodes && view.state == StaticOnly && view.runtime == None
    ensures var connections' := connections[view.id := view];
            && WellBuilt(nodes, connections') && Stored(connections')
            && Classified(connections', declared + {view.id}, map[])
            && Viewed(connections', views[view.id := view], map[])
  {
  }

  /** It is stored under its own id, between the same ends, and its metrics grow by the observation. */
  lemma ConfirmedGrows(naming: Naming, connections: map<Key, Connection>, fresh': Connection, o: Observation)
    requires Stored(connections) && Validated(o) && fresh'.runtime == None
    ensures var view := Confirm(naming, connections, fresh', o);
            && Consistent(view) && view.id.source == fresh'.id.source && view.id.target == fresh'.id.target
            && Requests(view) == Times(RequestsOf(connections), view.id) + o.requestCount
            && Errors(view) == Times(ErrorsOf(connections), view.id) + o.errorCount
  {
  }

  lemma ConfirmsTheClosest(naming: Naming, connections: map<Key, Connection>, declared: set<Key>,
                           observed: map<Key, nat>,
                           fresh': Connection, o: Observation)
    requires Stored(connections) && Classified(connections, declared, observed)
    requires fresh'.state == RuntimeOnly && fresh'.runtime == None
    ensures var k := Closest(naming, connections.Keys, fresh'.id, o.environment);
            var view := Confirm(naming, connections, fresh', o);
            && view.id == k
            && Classified(connections[k := view], declared, observed[k := Times(observed, k) + 1])
  {
  }

  /** Everything else that is known of the connection stays as it was. */
  lemma ConfirmedIsSame(naming: Naming, connections: map<Key, Connection>, views: map<Key, Connection>,
                        observed: map<Key, nat>, fresh': Connection, o: Observation)
    requires Stored(connections) && Viewed(connections, views, observed) && fresh'.origins == ["runtime"]
    ensures var view := Confirm(naming, connections, fresh', o);
            Viewed(connections[view.id := view], if view.id in connections then views else views[view.id := fresh'],
                   observed[view.id := Times(observed, view.id) + 1])
  {
    hide Consistent;
  }

  lemma StaysWellBuilt(naming: Naming, nodes: map<Id, Component>, connections: map<Key, Connection>,
                       fresh': Connection, o: Observation)
    requires WellBuilt(nodes, connections) && fresh'.id.source in nodes && fresh'.id.target in nodes
    requires Stored(connections) && Validated(o) && fresh'.runtime == None
    ensures var view := Confirm(naming, connections, fresh', o);
            WellBuilt(nodes, connections[view.id := view]) && Stored(connections[view.id := view])
  {
    ConfirmedGrows(naming, connections, fresh', o);
  }

  /** The observation went to the connection and to no other, with its requests and errors. */
  ghost predicate GoesTo(connections: map<Key, Connection>, connections': map<Key, Connection>,
                         observed: map<Key, nat>, observed': map<Key, nat>, k: Key, o: Observation)
  {
    && k in connections' && connections' == connections[k := connections'[k]]
    && observed' == observed[k := Times(observed, k) + 1]
    && RequestsOf(connections') == RequestsOf(connections)[k := Times(RequestsOf(connections), k) + o.requestCount]
    && ErrorsOf(connections') == ErrorsOf(connections)[k := Times(ErrorsOf(connections), k) + o.errorCount]
  }

  lemma GoesToOne(connections: map<Key, Connection>, observed: map<Key, nat>, view: Connection, o: Observation)
    requires Requests(view) == Times(RequestsOf(connections), view.id) + o.requestCount
    requires Errors(view) == Times(ErrorsOf(connections), view.id) + o.errorCount
    ensures GoesTo(connections, connections[view.id := view], observed,
                   observed[view.id := Times(observed, view.id) + 1], view.id, o)
  {
    assert RequestsOf(connections[view.id := view]) == RequestsOf(connections)[view.id := Requests(view)];
    assert ErrorsOf(connections[view.id := view]) == ErrorsOf(connections)[view.id := Errors(view)];
  }

  /** What storing the confirmed connection achieves. */
  lemma Recorded(naming: Naming, nodes: map<Id, Component>, connections: map<Key, Connection>, declared: set<Key>,
                 observed: map<Key, nat>, views: map<Key, Connection>, fresh': Connection, o: Observation,
                 connections': map<Key, Connection>, observed': map<Key, nat>, views': map<Key, Connection>)
    requires WellBuilt(nodes, connections) && fresh'.id.source in nodes && fresh'.id.target in nodes
    requires Stored(connections) && Classified(connections, declared, observed) && Validated(o)
    requires Viewed(connections, views, observed)
    requires fresh'.state == RuntimeOnly && fresh'.runtime == None && fresh'.origins == ["runtime"]
    requires var view := Confirm(naming, connections, fresh', o);
             && connections' == connections[view.id := view]
             && observed' == observed[view.id := Times(observed, view.id) + 1]
             && views' == if view.id in connections then views else views[view.id := fresh']
    ensures WellBuilt(nodes, connections') && Stored(connections') && Classified(connections', declared, observed')
    ensures Viewed(connections', views', observed')
    ensures GoesTo(connections, connections', observed, observed',
                   Closest(naming, connections.Keys, fresh'.id, o.environment), o)
  {
    hide *;
    var view := Confirm(naming, connections, fresh', o);
    StaysWellBuilt(naming, nodes, connections, fresh', o);
    ConfirmsTheClosest(naming, connections, declared, observed, fresh', o);
    ConfirmedGrows(naming, connections, fresh', o);
    ConfirmedIsSame(naming, connections, views, observed, fresh', o);
    GoesToOne(connections, observed, view, o);
  }

  // ---------------------------------------------------------------- the components

  ghost predicate IsMeant(naming: Naming, components: seq<Component>, mentions: seq<Mention>, id: Id) {
    exists m <- mentions :: IdOf(naming, components, m) == id
  }

  ghost predicate IsMeantFrom(naming: Naming, components: seq<Component>, mentions: seq<Mention>, id: Id,
                              origin: string) {
    exists m <- mentions :: IdOf(naming, components, m) == id && m.origin == origin
  }

  /** A component made for mention number i, the first of its id. */
  ghost predicate Introduces(naming: Naming, components: seq<Component>, mentions: seq<Mention>, i: nat,
                             node: Component) {
    && i < |mentions|
    && Bare(node) == Component(RuntimeId(naming, mentions[i].name, mentions[i].kind), mentions[i].name,
                               naming.kindOf(mentions[i].kind), 0, false, [mentions[i].name], [])
    && IdOf(naming, components, mentions[i]) == node.id
    && forall j | 0 <= j < i :: IdOf(naming, components, mentions[j]) != node.id
  }

  /** A node is the component of the snapshot with its id, or was made for the name that first meant it; it is known
      from the snapshot and from the mentions that mean it. */
  ghost predicate IsNode(naming: Naming, components: seq<Component>, mentions: seq<Mention>, id: Id,
                         node: Component) {
    && node.id == id
    && (if LastOf(components, id).Some? then Bare(node) == Bare(LastOf(components, id).value)
        else exists i: nat :: Introduces(naming, components, mentions, i, node))
    && forall origin :: origin in node.origins <==>
                        (origin == "static" && LastOf(components, id).Some?) ||
                        IsMeantFrom(naming, components, mentions, id, origin)
  }

  /** The nodes are the components of the snapshot and those that the mentions mean. */
  ghost predicate NodesFrom(naming: Naming, components: seq<Component>, mentions: seq<Mention>,
                            nodes: map<Id, Component>) {
    && (forall id :: id in nodes <==>
                     LastOf(components, id).Some? || IsMeant(naming, components, mentions, id))
    && forall id <- nodes :: IsNode(naming, components, mentions, id, nodes[id])
  }

  lemma SnapshotGrows(naming: Naming, components: seq<Component>, c: Component, nodes: map<Id, Component>)
    requires NodesFrom(naming, components, [], nodes)
    ensures NodesFrom(naming, components + [c], [], nodes[c.id := c.(origins := ["static"])])
  {
    var nodes' := nodes[c.id := c.(origins := ["static"])];
    forall id ensures id in nodes' <==> LastOf(components + [c], id).Some? {
      LastOfMore(components, c, id);
    }
    forall id <- nodes' ensures IsNode(naming, components + [c], [], id, nodes'[id]) {
      LastOfMore(components, c, id);
    }
  }

  lemma OneMoreMeant(naming: Naming, components: seq<Component>, mentions: seq<Mention>, m: Mention, id: Id)
    ensures IsMeant(naming, components, mentions + [m], id) <==>
            IsMeant(naming, components, mentions, id) || IdOf(naming, components, m) == id
    ensures forall origin :: IsMeantFrom(naming, components, mentions + [m], id, origin) <==>
              IsMeantFrom(naming, components, mentions, id, origin) ||
                (IdOf(naming, components, m) == id && m.origin == origin)
  {
    hide IdOf;
    assert forall x :: x in mentions + [m] <==> x in mentions || x == m;
  }

  /** The node of a name that was mentioned once more: the one that is there, or one of its own. */
  function NodeFor(naming: Naming, nodes: map<Id, Component>, id: Id, m: Mention): Component {
    var node := if id in nodes then nodes[id]
                else Component(id, m.name, naming.kindOf(m.kind), 0, false, [m.name], []);
    node.(origins := WithOrigin(node.origins, m.origin))
  }

  lemma NodeStays(naming: Naming, components: seq<Component>, mentions: seq<Mention>, m: Mention, id: Id,
                  node: Component)
    requires IsNode(naming, components, mentions, id, node)
    ensures IsNode(naming, components, mentions + [m], id,
                   if IdOf(naming, components, m) == id then node.(origins := WithOrigin(node.origins, m.origin))
                   else node)
  {
    hide IdOf, LastOf, RuntimeId;
    OneMoreMeant(naming, components, mentions, m, id);
    if LastOf(components, id).None? {
      var i: nat :| Introduces(naming, components, mentions, i, node);
      var node' := if IdOf(naming, components, m) == id then node.(origins := WithOrigin(node.origins, m.origin))
                   else node;
      assert Introduces(naming, components, mentions + [m], i, node');
    }
  }

  lemma NodeAppears(naming: Naming, components: seq<Component>, mentions: seq<Mention>, nodes: map<Id, Component>,
                    m: Mention)
    requires NodesFrom(naming, components, mentions, nodes) && IdOf(naming, components, m) !in nodes
    ensures var id := IdOf(naming, components, m);
            IsNode(naming, components, mentions + [m], id, NodeFor(naming, nodes, id, m))
  {
    var id := IdOf(naming, components, m);
    OneMoreMeant(naming, components, mentions, m, id);
    if id in MayMean(naming, components, m.name, m.kind) {
      MayMeanIff(naming, components, m.name, m.kind, id);
    }
    assert id == RuntimeId(naming, m.name, m.kind);
    hide LastOf, MayMean, Meaning, CanStandFor;
    forall j | 0 <= j < |mentions| ensures IdOf(naming, components, mentions[j]) != id {
      assert mentions[j] in mentions;
    }
    assert forall origin :: !IsMeantFrom(naming, components, mentions, id, origin);
    assert (mentions + [m])[|mentions|] == m;
    assert Introduces(naming, components, mentions + [m], |mentions|, NodeFor(naming, nodes, id, m));
  }

  /** The nodes after one more name. */
  lemma OneMoreMention(naming: Naming, components: seq<Component>, mentions: seq<Mention>, nodes: map<Id, Component>,
                       m: Mention)
    requires NodesFrom(naming, components, mentions, nodes)
    ensures var id := IdOf(naming, components, m);
            NodesFrom(naming, components, mentions + [m], nodes[id := NodeFor(naming, nodes, id, m)])
  {
    hide IdOf, LastOf, IsNode, IsMeant;
    var id := IdOf(naming, components, m);
    var nodes' := nodes[id := NodeFor(naming, nodes, id, m)];
    forall i ensures i in nodes' <==>
                     LastOf(components, i).Some? || IsMeant(naming, components, mentions + [m], i) {
      OneMoreMeant(naming, components, mentions, m, i);
    }
    forall i <- nodes' ensures IsNode(naming, components, mentions + [m], i, nodes'[i]) {
      if i in nodes {
        NodeStays(naming, components, mentions, m, i, nodes[i]);
      } else {
        NodeAppears(naming, components, mentions, nodes, m);
      }
    }
  }

  lemma NodesGrow(nodes: map<Id, Component>, connections: map<Key, Connection>, id: Id, node: Component)
    requires WellBuilt(nodes, connections) && node.id == id
    ensures WellBuilt(nodes[id := node], connections)
  {
  }

  lemma {:induction false} NamedAreNodes(naming: Naming, components: seq<Component>, mentions: seq<Mention>, nodes: map<Id, Component>,
                      normalized: string, id: Id)
    requires NodesFrom(naming, components, mentions, nodes) && IsNamed(naming, components, normalized, id)
    ensures id in nodes && LastOf(components, id).Some? && Bare(nodes[id]) == Bare(LastOf(components, id).value)
  {
    LastIsLast(components, id);
  }

  // ---------------------------------------------------------------- the index of names

  /** The component goes by one of the first n of these names. */
  predicate IsCalled(naming: Naming, names: seq<string>, n: nat, normalized: string)
    requires n <= |names|
  {
    normalized != "" && exists k | 0 <= k < n :: naming.normalize(names[k]) == normalized
  }

  /** The index while the names of a component are added to it. */
  ghost predicate Indexing(naming: Naming, components: seq<Component>, id: Id, names: seq<string>, n: nat,
                           aliasTargets: map<string, seq<Id>>)
    requires n <= |names|
  {
    forall normalized ::
      && NoRepeats(TargetsOf(aliasTargets, normalized))
      && forall i :: i in TargetsOf(aliasTargets, normalized) <==>
                     IsNamed(naming, components, normalized, i) || (i == id && IsCalled(naming, names, n, normalized))
  }

  lemma OneMoreCall(naming: Naming, names: seq<string>, n: nat, normalized: string)
    requires n < |names|
    ensures IsCalled(naming, names, n + 1, normalized) <==>
            IsCalled(naming, names, n, normalized) || (normalized != "" && naming.normalize(names[n]) == normalized)
  {
  }

  lemma OneMoreIndexed(naming: Naming, components: seq<Component>, id: Id, names: seq<string>, n: nat,
                       aliasTargets: map<string, seq<Id>>, aliasTargets': map<string, seq<Id>>)
    requires n < |names| && Indexing(naming, components, id, names, n, aliasTargets)
    requires var normalized := naming.normalize(names[n]);
             var targets := TargetsOf(aliasTargets, normalized);
             aliasTargets' == if normalized != "" && id !in targets then aliasTargets[normalized := targets + [id]]
                              else aliasTargets
    ensures Indexing(naming, components, id, names, n + 1, aliasTargets')
  {
    hide IsNamed, IsCalled;
    var new' := naming.normalize(names[n]);
    forall normalized ensures
      && NoRepeats(TargetsOf(aliasTargets', normalized))
      && forall i :: i in TargetsOf(aliasTargets', normalized) <==>
                     IsNamed(naming, components, normalized, i) || (i == id && IsCalled(naming, names, n + 1, normalized))
    {
      OneMoreCall(naming, names, n, normalized);
      assert NoRepeats(TargetsOf(aliasTargets, normalized));
    }
  }

  lemma AllIndexed(naming: Naming, components: seq<Component>, c: Component, names: seq<string>,
                   aliasTargets: map<string, seq<Id>>)
    requires names == c.aliases + [c.name] && Indexing(naming, components, c.id, names, |names|, aliasTargets)
    ensures Indexes(naming, components + [c], aliasTargets)
  {
    hide IsNamed, NoRepeats;
    forall normalized ensures
      && NoRepeats(TargetsOf(aliasTargets, normalized))
      && forall i :: i in TargetsOf(aliasTargets, normalized) <==> IsNamed(naming, components + [c], normalized, i)
    {
      assert NoRepeats(TargetsOf(aliasTargets, normalized));
      assert HasName(naming, c, normalized) <==> IsCalled(naming, names, |names|, normalized);
      forall i ensures i in TargetsOf(aliasTargets, normalized) <==>
                       IsNamed(naming, components + [c], normalized, i) {
        OneMoreNamed(naming, components, c, normalized, i);
      }
    }
  }

  lemma NothingIndexed(naming: Naming, components: seq<Component>, id: Id, names: seq<string>,
                       aliasTargets: map<string, seq<Id>>)
    requires Indexes(naming, components, aliasTargets)
    ensures Indexing(naming, components, id, names, 0, aliasTargets)
  {
  }

  lemma NamesIndexed(naming: Naming, components: seq<Component>, aliasTargets: map<string, seq<Id>>,
                     normalized: string)
    requires Indexes(naming, components, aliasTargets)
    ensures NoRepeats(TargetsOf(aliasTargets, normalized))
    ensures forall id :: id in TargetsOf(aliasTargets, normalized) <==> IsNamed(naming, components, normalized, id)
  {
    hide IsNamed;
  }

  function Standing(naming: Naming, components: seq<Component>, kind: string): Id -> bool {
    (id: Id) => CanStandFor(naming, components, kind, id)
  }

  /** Those of the first n candidates that may be meant, once each. */
  ghost predicate Chosen(candidates: seq<Id>, n: nat, can: Id -> bool, targets: seq<Id>)
    requires n <= |candidates|
  {
    NoRepeats(targets) && forall id :: id in targets <==> id in candidates[..n] && can(id)
  }

  lemma NoneChosen(candidates: seq<Id>)
    ensures forall can: Id -> bool :: Chosen(candidates, 0, can, [])
  {
  }

  lemma OneMoreChosen(candidates: seq<Id>, n: nat, can: Id -> bool, targets: seq<Id>)
    requires n < |candidates| && NoRepeats(candidates) && Chosen(candidates, n, can, targets)
    ensures Chosen(candidates, n + 1, can, if can(candidates[n]) then targets + [candidates[n]] else targets)
  {
    assert candidates[..n + 1] == candidates[..n] + [candidates[n]];
    assert candidates[n] !in candidates[..n];
  }

  lemma EndsAreNodes(naming: Naming, components: seq<Component>, nodes: map<Id, Component>, c: StaticConnection)
    requires NodesFrom(naming, components, [], nodes)
    ensures EndsKnown(components, c) <==> c.source in nodes && c.target in nodes
  {
    LastIsLast(components, c.source);
    LastIsLast(components, c.target);
  }

  /** How many of the first n static connections have an unknown end. */
  function CountMissing(components: seq<Component>, statics: seq<StaticConnection>, n: nat): nat
    requires n <= |statics|
  {
    if n == 0 then 0
    else CountMissing(components, statics, n - 1) + if EndsKnown(components, statics[n - 1]) then 0 else 1
  }

  /** What the first n observations made of the declared connections: where each of them went decides the numbers at
      every connection, and each was first stored as it was declared or as it was first observed. */
  ghost predicate IsRecorded(naming: Naming, filter: Filter, components: seq<Component>,
                             declared: map<Key, Connection>, os: seq<Observation>, n: nat,
                             connections: map<Key, Connection>, observed: map<Key, nat>, views: map<Key, Connection>)
    requires n <= |os|
  {
    var ds := Destinations(naming, filter, components, declared.Keys, os, n);
    && Accounts(naming, filter, components, os, ds, observed, Once())
    && Accounts(naming, filter, components, os, ds, RequestsOf(connections), ByRequests())
    && Accounts(naming, filter, components, os, ds, ErrorsOf(connections), ByErrors())
    && ViewsFrom(naming, components, os, ds, declared, views)
    && connections.Keys == views.Keys == declared.Keys + KeysIn(ds)
  }

  lemma ViewedKeys(connections: map<Key, Connection>, views: map<Key, Connection>, observed: map<Key, nat>)
    requires Viewed(connections, views, observed)
    ensures connections.Keys == views.Keys
  {
  }

  lemma NotObserved(connections: map<Key, Connection>, declared: set<Key>)
    requires Classified(connections, declared, map[])
    ensures connections.Keys == declared && forall k <- connections :: connections[k].runtime == None
  {
  }

  lemma NothingRecorded(naming: Naming, filter: Filter, components: seq<Component>, declared: map<Key, Connection>,
                        os: seq<Observation>, connections: map<Key, Connection>)
    requires connections.Keys == declared.Keys && forall k <- connections :: connections[k].runtime == None
    ensures IsRecorded(naming, filter, components, declared, os, 0, connections, map[], declared)
  {
    NothingAccounts(naming, filter, components, os, map[], Once());
    NothingAccounts(naming, filter, components, os, RequestsOf(connections), ByRequests());
    NothingAccounts(naming, filter, components, os, ErrorsOf(connections), ByErrors());
    assert KeysIn([]) == {};
  }

  lemma OneMoreRecorded(naming: Naming, filter: Filter, components: seq<Component>, declared: map<Key, Connection>,
                        os: seq<Observation>, n: nat,
                        connections: map<Key, Connection>, connections': map<Key, Connection>,
                        observed: map<Key, nat>, observed': map<Key, nat>,
                        views: map<Key, Connection>, views': map<Key, Connection>)
    requires n < |os| && IsRecorded(naming, filter, components, declared, os, n, connections, observed, views)
    requires !Accepted(naming, filter, os[n]) ==>
               connections' == connections && observed' == observed && views' == views
    requires Accepted(naming, filter, os[n]) ==>
               var k := Closest(naming, connections.Keys, KeyObserved(naming, components, os[n]), os[n].environment);
               && GoesTo(connections, connections', observed, observed', k, os[n])
               && views' == if k in connections then views else views[k := ObservedView(naming, components, os[n])]
    requires connections'.Keys == views'.Keys
    ensures IsRecorded(naming, filter, components, declared, os, n + 1, connections', observed', views')
  {
    hide Accounts, ViewsFrom, Accepted, KeyObserved, ObservedView, RequestsOf, ErrorsOf, Times, KeysIn;
    var o := os[n];
    var ds := Destinations(naming, filter, components, declared.Keys, os, n);
    var key := KeyObserved(naming, components, o);
    var d := if Accepted(naming, filter, o) then Some(Closest(naming, connections.Keys, key, o.environment)) else None;
    assert Destinations(naming, filter, components, declared.Keys, os, n + 1) == ds + [d];
    OneMoreAccounts(naming, filter, components, os, ds, d, observed, observed', Once());
    OneMoreAccounts(naming, filter, components, os, ds, d, RequestsOf(connections), RequestsOf(connections'),
                    ByRequests());
    OneMoreAccounts(naming, filter, components, os, ds, d, ErrorsOf(connections), ErrorsOf(connections'), ByErrors());
    OneMoreView(naming, components, os, ds, d, declared, views, views');
  }

  // ---------------------------------------------------------------- the builder

  /** The maps that buildTopology fills. */
  class Builder {
    const naming: Naming
    var nodes: map<Id, Component>
    var aliasTargets: map<string, seq<Id>>
    var connections: map<Key, Connection>
    var missingReferences: nat
    ghost var snapshot: seq<Component>       // the components of the snapshot
    ghost var mentions: seq<Mention>         // the names that were resolved
    ghost var declared: set<Key>             // the connections of the snapshot
    ghost var observed: map<Key, nat>        // how many observations went to a connection
    ghost var views: map<Key, Connection>    // how connections were first stored

    ghost predicate Valid()
      reads this
    {
      && Indexes(naming, snapshot, aliasTargets) && NodesFrom(naming, snapshot, mentions, nodes)
      && WellBuilt(nodes, connections) && Stored(connections) && Classified(connections, declared, observed)
      && Viewed(connections, views, observed)
    }

    constructor (naming: Naming)
      ensures Valid() && this.naming == naming && nodes == map[] && connections == map[]
      ensures snapshot == [] && mentions == [] && declared == {} && observed == map[] && views == map[]
      ensures missingReferences == 0
    {
      this.naming := naming;
      nodes, aliasTargets, connections, missingReferences := map[], map[], map[], 0;
      snapshot, mentions, declared, observed, views := [], [], {}, map[], map[];
    }

    /** The loop over the components of the snapshot. */
    method AddComponent(component: Component)
      requires Valid() && mentions == [] && connections == map[]
      modifies this`nodes, this`aliasTargets, this`snapshot
      ensures Valid() && snapshot == old(snapshot) + [component]
    {
      hide Indexes, Indexing, NodesFrom, WellBuilt, Stored, Classified, Viewed;
      SnapshotGrows(naming, snapshot, component, nodes);
      NodesGrow(nodes, connections, component.id, component.(origins := ["static"]));
      nodes := nodes[component.id := component.(origins := ["static"])];
      var names := component.aliases + [component.name];
      NothingIndexed(naming, snapshot, component.id, names, aliasTargets);
      for i := 0 to |names|
        invariant Indexing(naming, snapshot, component.id, names, i, aliasTargets)
        invariant nodes == old(nodes)[component.id := component.(origins := ["static"])] && snapshot == old(snapshot)
      {
        var normalized := naming.normalize(names[i]);
        var targets := TargetsOf(aliasTargets, normalized);
        ghost var aliasTargets0 := aliasTargets;
        if normalized != "" && component.id !in targets {
          aliasTargets := aliasTargets[normalized := targets + [component.id]];
        }
        OneMoreIndexed(naming, snapshot, component.id, names, i, aliasTargets0, aliasTargets);
      }
      AllIndexed(naming, snapshot, component, names, aliasTargets);
      snapshot := snapshot + [component];
    }

    /** All components of the snapshot. */
    method AddComponents(components: seq<Component>)
      requires Valid() && snapshot == [] && mentions == [] && connections == map[]
      modifies this`nodes, this`aliasTargets, this`snapshot
      ensures Valid() && snapshot == components
    {
      for i := 0 to |components|
        invariant Valid() && snapshot == components[..i]
      {
        AddComponent(components[i]);
        assert components[..i + 1] == components[..i] + [components[i]];
      }
      assert components[..|components|] == components;
    }

    /** The loop over the components an observed name may stand for. */
    method Candidates(name: string, kind: string) returns (targets: seq<Id>)
      requires Valid()
      ensures NoRepeats(targets)
      ensures forall id :: id in targets <==> IsNamed(naming, snapshot, naming.normalize(name), id) &&
                                              CanStandFor(naming, snapshot, kind, id)
    {
      hide Indexes, NodesFrom, WellBuilt, Stored, Classified, Viewed, IsNamed, LastOf, NoRepeats, Bare;
      var normalized := naming.normalize(name);
      var candidates := TargetsOf(aliasTargets, normalized);
      NamesIndexed(naming, snapshot, aliasTargets, normalized);
      targets := [];
      NoneChosen(candidates);
      for i := 0 to |candidates|
        invariant Chosen(candidates, i, Standing(naming, snapshot, kind), targets)
      {
        var id := candidates[i];
        NamedAreNodes(naming, snapshot, mentions, nodes, normalized, id);
        OneMoreChosen(candidates, i, Standing(naming, snapshot, kind), targets);
        if naming.canResolve(kind, Bare(nodes[id])) {
          targets := targets + [id];
        }
      }
    }

    /** resolve: the one component a name stands for, or else a component of its own; it gets the origin. */
    method Resolve(name: string, kind: string, origin: string) returns (id: Id)
      requires Valid()
      modifies this`nodes, this`mentions
      ensures Valid() && id == Meaning(naming, snapshot, name, kind) && id in nodes
      ensures mentions == old(mentions) + [Mention(name, kind, origin)]
      ensures forall i <- old(nodes) :: i in nodes
    {
      hide Indexes, NodesFrom, Stored, Classified, Viewed, IsNamed, LastOf, CanStandFor, NoRepeats, Bare;
      hide Meaning, WithOrigin;
      var normalized := naming.normalize(name);
      var targets := Candidates(name, kind);
      CandidatesDecide(naming, snapshot, name, kind, targets);
      ghost var m := Mention(name, kind, origin);
      OneMoreMention(naming, snapshot, mentions, nodes, m);
      var node;
      if |targets| == 1 {
        id := targets[0];
        NamedAreNodes(naming, snapshot, mentions, nodes, normalized, id);
        node := nodes[id];
      } else {
        id := "runtime:" + naming.kindOf(kind) + ":" + normalized;
        node := if id in nodes then nodes[id] else Component(id, name, naming.kindOf(kind), 0, false, [name], []);
      }
      node := node.(origins := WithOrigin(node.origins, origin));
      NodesGrow(nodes, connections, id, node);
      nodes := nodes[id := node];
      mentions := mentions + [m];
    }

    /** The loop over the connections of the snapshot: one whose ends are not both known is dropped and counted. */
    method AddConnection(c: StaticConnection)
      requires Valid() && mentions == [] && observed == map[]
      modifies this`connections, this`missingReferences, this`declared, this`views
      ensures Valid()
      ensures if EndsKnown(snapshot, c)
              then && missingReferences == old(missingReferences) && declared == old(declared) + {StaticKey(naming, c)}
                   && views == old(views)[StaticKey(naming, c) := StaticView(naming, c)]
              else && missingReferences == old(missingReferences) + 1 && declared == old(declared)
                   && views == old(views)
    {
      EndsAreNodes(naming, snapshot, nodes, c);
      if c.source !in nodes {
        missingReferences := missingReferences + 1;
        return;
      }
      if c.target !in nodes {
        missingReferences := missingReferences + 1;
        return;
      }
      var key := KeyOf(naming, c.source, c.target, c.protocol, c.interaction, c.transport, c.environment);
      var view := Connection(key, c.protocol, c.environment, StaticOnly, c.confidence, [c.origin], c.targetResolved,
                             c.evidence, None, "");
      DeclaringKeeps(nodes, connections, declared, views, view);
      hide Stored, WellBuilt, Classified, Viewed, NodesFrom, Indexes, EndsKnown;
      connections := connections[key := view];
      declared := declared + {key};
      views := views[key := view];
    }

    /** All connections of the snapshot. */
    method AddConnections(statics: seq<StaticConnection>)
      requires Valid() && mentions == [] && connections == map[] && observed == map[] && missingReferences == 0
      requires declared == {} && views == map[]
      modifies this`connections, this`missingReferences, this`declared, this`views
      ensures Valid() && views == DeclaredViews(naming, snapshot, statics, |statics|) && declared == views.Keys
      ensures missingReferences == CountMissing(snapshot, statics, |statics|)
    {
      hide EndsKnown, StaticKey, StaticView, Indexes, NodesFrom, WellBuilt, Stored, Classified, Viewed;
      for i := 0 to |statics|
        invariant Valid() && views == DeclaredViews(naming, snapshot, statics, i) && declared == views.Keys
        invariant missingReferences == CountMissing(snapshot, statics, i)
      {
        AddConnection(statics[i]);
      }
    }

    /** Stores the connection of an observation, or adds the observation to one that exists. */
    method Record(view: Connection, o: Observation)
      requires Valid() && Validated(o) && view.id.source in nodes && view.id.target in nodes
      requires view.runtime == None && view.state == RuntimeOnly && view.origins == ["runtime"]
      modifies this`connections, this`observed, this`views
      ensures Valid()
      ensures var k := Closest(naming, old(connections).Keys, view.id, o.environment);
              && GoesTo(old(connections), connections, old(observed), observed, k, o)
              && views == if k in old(connections) then old(views) else old(views)[k := view]
    {
      hide Indexes, NodesFrom, WellBuilt, Stored, Classified, Viewed, GoesTo, Confirm, Closest, Validated, Times;
      var confirmed := Confirm(naming, connections, view, o);
      var connections' := connections[confirmed.id := confirmed];
      ghost var observed' := observed[confirmed.id := Times(observed, confirmed.id) + 1];
      ghost var views' := if confirmed.id in connections then views else views[confirmed.id := view];
      Recorded(naming, nodes, connections, declared, observed, views, view, o, connections', observed', views');
      ConfirmsTheClosest(naming, connections, declared, observed, view, o);
      connections := connections';
      observed := observed';
      views := views';
    }

    /** The loop over the observations: one that passes the filter goes to one connection, the closest to the one
        that it names. */
    method AddObservation(filter: Filter, o: Observation)
      requires Valid() && Validated(o)
      modifies this`nodes, this`mentions, this`connections, this`observed, this`views
      ensures Valid()
      ensures !Accepted(naming, filter, o) ==>
                && nodes == old(nodes) && mentions == old(mentions) && connections == old(connections)
                && observed == old(observed) && views == old(views)
      ensures Accepted(naming, filter, o) ==>
                var k := Closest(naming, old(connections).Keys, KeyObserved(naming, snapshot, o), o.environment);
                && mentions == old(mentions) + NamesOf(o)
                && GoesTo(old(connections), connections, old(observed), observed, k, o)
                && views == if k in old(connections) then old(views)
                            else old(views)[k := ObservedView(naming, snapshot, o)]
    {
      hide Valid, GoesTo, Closest, Meaning;
      if filter.provider != "" && naming.lower(filter.provider) != naming.lower(o.provider) {
        return;
      }
      if filter.environment != "" && naming.lower(filter.environment) != naming.lower(o.environment) {
        return;
      }
      var source := Resolve(o.sourceName, o.sourceKind, "runtime");
      var target := Resolve(o.targetName, o.targetKind, "runtime");
      var key := KeyOf(naming, source, target, o.protocol, o.interaction, o.transport, o.environment);
      var view := Connection(key, o.protocol, o.environment, RuntimeOnly, "observed", ["runtime"],
                             !("runtime:" <= target), 0, None, "");
      Record(view, o);
    }

    /** All observations: where each of them went, and what was made of it. */
    method AddObservations(filter: Filter, os: seq<Observation>)
      requires Valid() && (forall o <- os :: Validated(o)) && mentions == [] && observed == map[]
      requires declared == views.Keys
      modifies this`nodes, this`mentions, this`connections, this`observed, this`views
      ensures Valid() && mentions == MentionsOf(naming, filter, os, |os|)
      ensures IsRecorded(naming, filter, snapshot, old(views), os, |os|, connections, observed, views)
    {
      hide Indexes, NodesFrom, WellBuilt, Stored, Classified, Viewed, IsRecorded, GoesTo, Closest, KeyObserved;
      hide ObservedView, Accepted, Validated;
      NotObserved(connections, declared);
      NothingRecorded(naming, filter, snapshot, views, os, connections);
      ghost var declaredViews := views;
      for n := 0 to |os|
        invariant Valid() && mentions == MentionsOf(naming, filter, os, n)
        invariant IsRecorded(naming, filter, snapshot, declaredViews, os, n, connections, observed, views)
      {
        ghost var connections0, observed0, views0 := connections, observed, views;
        AddObservation(filter, os[n]);
        ViewedKeys(connections, views, observed);
        OneMoreRecorded(naming, filter, snapshot, declaredViews, os, n, connections0, connections, observed0, observed,
                        views0, views);
      }
    }
  }
}
