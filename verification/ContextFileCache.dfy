/** The files of a repository at a revision are listed once and cached: callers that miss join
    the load in flight or start one, at most 32 listings stay, and the least recently used goes.

    Callers interleave freely; each critical section under the mutex is one step. */
module ContextFileCache {

  datatype Option<+T> = None | Some(value: T)

  type Key = string
  type Caller = nat
  type LoadId = nat
  type Time = nat

  datatype Files = Files(paths: seq<string>, truncated: bool)

  datatype Entry = Entry(files: Files, lastUsed: Time)

  const MAXIMUM_CACHES := 32

  // ---------------------------------------------------------------- keys

  const DIGITS := "0123456789"

  function Decimal(n: nat): (r: string)
    ensures r != "" && forall i | 0 <= i < |r| :: r[i] in DIGITS
  {
    if n < 10 then [DIGITS[n]] else Decimal(n / 10) + [DIGITS[n % 10]]
  }

  /** strconv.FormatInt(id, 10) */
  function FormatInt(id: int): (r: string)
    ensures r != "" && (forall i | 0 <= i < |r| :: r[i] != '\0') && (r[0] == '-' <==> id < 0)
  {
    if id >= 0 then Decimal(id) else "-" + Decimal(-id)
  }

  function KeyOf(repository: int, revision: string): Key {
    FormatInt(repository) + "\0" + revision
  }

  lemma {:induction false} DecimalIsInjective(m: nat, n: nat)
    requires Decimal(m) == Decimal(n)
    ensures m == n
  {
    var x, y := Decimal(m), Decimal(n);
    assert x[|x| - 1] == DIGITS[m % 10] && y[|y| - 1] == DIGITS[n % 10];
    assert m % 10 == n % 10;
    if m >= 10 && n >= 10 {
      assert x[..|x| - 1] == Decimal(m / 10) && y[..|y| - 1] == Decimal(n / 10);
      DecimalIsInjective(m / 10, n / 10);
    }
  }

  lemma {:induction false} TextOfNegative(id: int)
    requires id < 0
    ensures FormatInt(id)[1..] == Decimal(-id)
  {
  }

  lemma FormatIntIsInjective(r: int, s: int)
    requires FormatInt(r) == FormatInt(s)
    ensures r == s
  {
    hide Decimal;
    if r < 0 {
      TextOfNegative(r);
      TextOfNegative(s);
      DecimalIsInjective(-r, -s);
    } else {
      DecimalIsInjective(r, s);
    }
  }

  /** What precedes the first NUL, and what follows it, can be told from the text. */
  lemma SplitAtNul(x: string, v: string, y: string, w: string)
    requires x + "\0" + v == y + "\0" + w
    requires forall i | 0 <= i < |x| :: x[i] != '\0'
    requires forall i | 0 <= i < |y| :: y[i] != '\0'
    ensures x == y && v == w
  {
    var key := x + "\0" + v;
    assert key[|x|] == '\0' && key[|y|] == '\0';
    assert forall i | 0 <= i < |x| :: key[i] == x[i];
    assert forall i | 0 <= i < |y| :: key[i] == y[i];
    assert x == key[..|x|] && y == key[..|y|];
    assert v == key[|x| + 1..] && w == key[|y| + 1..];
  }

  /** A key determines the repository and the revision, whatever the revision's text. */
  lemma KeysAreInjective(r: int, v: string, s: int, w: string)
    requires KeyOf(r, v) == KeyOf(s, w)
    ensures r == s && v == w
  {
    SplitAtNul(FormatInt(r), v, FormatInt(s), w);
    FormatIntIsInjective(r, s);
  }

  // ---------------------------------------------------------------- the cache itself

  /** No entry of the cache was used before the victim. */
  ghost predicate LeastRecentlyUsed(cache: map<Key, Entry>, victim: Key) {
    victim in cache && forall k <- cache :: cache[victim].lastUsed <= cache[k].lastUsed
  }

  /** Storing a loaded listing: a full cache loses the victim. */
  function Stored(before: map<Key, Entry>, key: Key, files: Files, now: Time, victim: Key): map<Key, Entry> {
    (if |before| >= MAXIMUM_CACHES then before - {victim} else before)[key := Entry(files, now)]
  }

  ghost predicate MayEvict(before: map<Key, Entry>, victim: Key) {
    |before| >= MAXIMUM_CACHES ==> LeastRecentlyUsed(before, victim)
  }

  /** What the first critical section does: a hit refreshes its entry, a miss joins or starts a load. */
  predicate Entered(cache: map<Key, Entry>, loads: map<Key, LoadId>, key: Key, now: Time, freshLoad: LoadId,
                    cache': map<Key, Entry>, loads': map<Key, LoadId>, hit: Option<Files>, joined: Option<LoadId>)
  {
    && (hit.Some? <==> key in cache)
    && (joined.Some? <==> key !in cache && key in loads)
    && (hit.Some? ==> hit.value == cache[key].files && loads' == loads && cache' == cache[key := Entry(hit.value, now)])
    && (hit.None? ==> cache' == cache)
    && (joined.Some? ==> joined.value == loads[key] && loads' == loads)
    && (hit.None? && joined.None? ==> loads' == loads[key := freshLoad])
  }

  /** What the second one does: the load is over; a successful one is stored. */
  ghost predicate Published(cache: map<Key, Entry>, loads: map<Key, LoadId>, key: Key, loaded: Option<Files>, now: Time,
                            cache': map<Key, Entry>, loads': map<Key, LoadId>)
  {
    && loads' == loads - {key}
    && (loaded.None? ==> cache' == cache)
    && (loaded.Some? ==>
          exists victim :: MayEvict(cache, victim) && cache' == Stored(cache, key, loaded.value, now, victim))
  }

  /** The fields of the service that the mutex guards.  A load in flight is named by its number. */
  class Store {
    var cache: map<Key, Entry>
    var loads: map<Key, LoadId>

    constructor ()
      ensures cache == map[] && loads == map[]
    {
      cache, loads := map[], map[];
    }

    /** The loop over the map, in whatever order the map is visited. */
    method Oldest() returns (oldestKey: Key)
      requires cache != map[] && "" !in cache
      ensures LeastRecentlyUsed(cache, oldestKey)
    {
      oldestKey := "";
      var oldest: Time := 0;
      var rest := cache.Keys;
      while rest != {}
        invariant rest <= cache.Keys
        invariant oldestKey == "" <==> rest == cache.Keys
        invariant oldestKey != "" ==> oldestKey in cache && oldest == cache[oldestKey].lastUsed
        invariant forall k | k in cache && k !in rest :: oldest <= cache[k].lastUsed
        decreases |rest|
      {
        var candidateKey :| candidateKey in rest;
        if oldestKey == "" || cache[candidateKey].lastUsed < oldest {
          oldestKey := candidateKey;
          oldest := cache[candidateKey].lastUsed;
        }
        rest := rest - {candidateKey};
      }
    }

    /** The first critical section: a hit refreshes its entry, a miss joins or starts a load. */
    method Enter(key: Key, now: Time, freshLoad: LoadId) returns (hit: Option<Files>, joined: Option<LoadId>)
      modifies this
      ensures Entered(old(cache), old(loads), key, now, freshLoad, cache, loads, hit, joined)
    {
      hit, joined := None, None;
      if key in cache {
        cache := cache[key := cache[key].(lastUsed := now)];
        hit := Some(cache[key].files);
      } else if key in loads {
        joined := Some(loads[key]);
      } else {
        loads := loads[key := freshLoad];
      }
    }

    /** The second critical section: the load is over; a successful one is stored. */
    method Publish(key: Key, loaded: Option<Files>, now: Time)
      requires "" !in cache
      modifies this
      ensures Published(old(cache), old(loads), key, loaded, now, cache, loads)
    {
      loads := loads - {key};
      if loaded.Some? {
        if |cache| >= MAXIMUM_CACHES {
          assert cache != map[];
          var oldestKey := Oldest();
          assert MayEvict(cache, oldestKey);
          assert (cache - {oldestKey})[key := Entry(loaded.value, now)] ==
                 Stored(cache, key, loaded.value, now, oldestKey);
          cache := cache - {oldestKey};
        } else {
          assert MayEvict(cache, "") && cache[key := Entry(loaded.value, now)] ==
                 Stored(cache, key, loaded.value, now, "");
        }
        cache := cache[key := Entry(loaded.value, now)];
      }
    }
  }

  // ---------------------------------------------------------------- callers

  datatype Answer = Listing(files: Files) | LoaderFailed | Cancelled

  datatype Point =
    | Calling
    | Waiting(load: LoadId)    // for the done channel or its context
    | Loading(load: LoadId)    // in the loader
    | Publishing(load: LoadId) // before the second critical section
    | Returned(answer: Answer, via: Via)

  /** Where an answer came from; no step reads it. */
  datatype Via = FromCache | FromLoad(l: LoadId) | GaveUp

  /** One call of cachedContextFiles. */
  datatype Call = Call(repository: int, revision: string, at: Point)

  /** A load: who started it, whether its done channel is closed, and what it gave.  Whether the loader succeeded, once
      it returned, is for the record; no step reads it. */
  datatype Load = Load(key: Key, owner: Caller, done: bool, result: Option<Files>, succeeded: Option<bool>)

  datatype State = State(calls: seq<Call>, cache: map<Key, Entry>, loads: map<Key, LoadId>, made: seq<Load>,
                         clock: Time)

  /** What the loader lists, when it succeeds: a revision does not change. */
  type Truth = (int, string) -> Files

  datatype Action =
    | Arrive(repository: int, revision: string)
    | Pass(now: Time)
    | Enter(c: Caller)
    | LoaderReturns(c: Caller, ok: bool)
    | Publish(c: Caller, victim: Key)
    | Wake(c: Caller)
    | GiveUp(c: Caller)

  const START := State([], map[], map[], [], 0)

  function KeyFor(s: State, c: Caller): Key
    requires c < |s.calls|
  {
    KeyOf(s.calls[c].repository, s.calls[c].revision)
  }

  ghost predicate Enabled(s: State, a: Action) {
    match a
    case Arrive(_, _) => true
    case Pass(now) => now >= s.clock
    case Enter(c) => c < |s.calls| && s.calls[c].at.Calling?
    case LoaderReturns(c, _) => c < |s.calls| && s.calls[c].at.Loading? && s.calls[c].at.load < |s.made|
    case Publish(c, victim) =>
      && c < |s.calls| && s.calls[c].at.Publishing? && s.calls[c].at.load < |s.made|
      && (s.made[s.calls[c].at.load].result.Some? ==> MayEvict(s.cache, victim))
    case Wake(c) =>
      c < |s.calls| && s.calls[c].at.Waiting? && s.calls[c].at.load < |s.made| && s.made[s.calls[c].at.load].done
    case GiveUp(c) => c < |s.calls| && s.calls[c].at.Waiting?
  }

  function Go(s: State, c: Caller, at: Point): State
    requires c < |s.calls|
  {
    s.(calls := s.calls[c := s.calls[c].(at := at)])
  }

  function AnswerOf(result: Option<Files>): Answer {
    if result.Some? then Listing(result.value) else LoaderFailed
  }

  function EnterOf(s: State, c: Caller): State
    requires c < |s.calls|
  {
    var key := KeyFor(s, c);
    if key in s.cache then
      Go(s, c, Returned(Listing(s.cache[key].files), FromCache)).(cache := s.cache[key := s.cache[key].(lastUsed := s.clock)])
    else if key in s.loads then Go(s, c, Waiting(s.loads[key]))
    else Go(s, c, Loading(|s.made|)).(loads := s.loads[key := |s.made|], made := s.made + [Load(key, c, false, None, None)])
  }

  function PublishOf(s: State, c: Caller, l: LoadId, victim: Key): State
    requires c < |s.calls| && l < |s.made|
  {
    var key, result := KeyFor(s, c), s.made[l].result;
    Go(s, c, Returned(AnswerOf(result), FromLoad(l)))
    .(loads := s.loads - {key},
      made := s.made[l := s.made[l].(done := true)],
      cache := if result.Some? then Stored(s.cache, key, result.value, s.clock, victim) else s.cache)
  }

  ghost function Apply(truth: Truth, s: State, a: Action): State
    requires Enabled(s, a)
  {
    match a
    case Arrive(repository, revision) => s.(calls := s.calls + [Call(repository, revision, Calling)])
    case Pass(now) => s.(clock := now)
    case Enter(c) => EnterOf(s, c)
    case LoaderReturns(c, ok) =>
      var l := s.calls[c].at.load;
      var result := if ok then Some(truth(s.calls[c].repository, s.calls[c].revision)) else None;
      Go(s, c, Publishing(l)).(made := s.made[l := s.made[l].(result := result, succeeded := Some(ok))])
    case Publish(c, victim) => PublishOf(s, c, s.calls[c].at.load, victim)
    case Wake(c) => Go(s, c, Returned(AnswerOf(s.made[s.calls[c].at.load].result), FromLoad(s.calls[c].at.load)))
    case GiveUp(c) => Go(s, c, Returned(Cancelled, GaveUp))
  }

  ghost predicate Step(truth: Truth, s: State, t: State) {
    exists a :: Enabled(s, a) && t == Apply(truth, s, a)
  }

  ghost predicate IsRun(truth: Truth, run: seq<State>) {
    run != [] && run[0] == START && forall i | 0 <= i < |run| - 1 :: Step(truth, run[i], run[i + 1])
  }

  // ---------------------------------------------------------------- steps are critical sections

  /** Whatever the first critical section does when a caller runs it is what the step of the caller does. */
  lemma EnterIsTheSection(s: State, c: Caller, cache': map<Key, Entry>, loads': map<Key, LoadId>, hit: Option<Files>,
                          joined: Option<LoadId>)
    requires Enabled(s, Enter(c))
    requires Entered(s.cache, s.loads, KeyFor(s, c), s.clock, |s.made|, cache', loads', hit, joined)
    ensures var t := EnterOf(s, c);
            && t.cache == cache' && t.loads == loads'
            && t.calls[c].at == if hit.Some? then Returned(Listing(hit.value), FromCache)
                                else if joined.Some? then Waiting(joined.value) else Loading(|s.made|)
  {
  }

  /** Whatever the second one does is what some step of the caller does, and every such step is one it may do. */
  lemma PublishIsTheSection(s: State, c: Caller, cache': map<Key, Entry>, loads': map<Key, LoadId>)
    requires c < |s.calls| && s.calls[c].at.Publishing? && s.calls[c].at.load < |s.made|
    ensures var l := s.calls[c].at.load;
            Published(s.cache, s.loads, KeyFor(s, c), s.made[l].result, s.clock, cache', loads')
            <==> exists victim :: Enabled(s, Publish(c, victim)) && PublishOf(s, c, l, victim).cache == cache'
                                  && PublishOf(s, c, l, victim).loads == loads'
  {
    var l := s.calls[c].at.load;
    if s.made[l].result.None? {
      assert Enabled(s, Publish(c, ""));
      assert PublishOf(s, c, l, "").cache == s.cache && PublishOf(s, c, l, "").loads == s.loads - {KeyFor(s, c)};
    } else if Published(s.cache, s.loads, KeyFor(s, c), s.made[l].result, s.clock, cache', loads') {
      var victim :| MayEvict(s.cache, victim)
                    && cache' == Stored(s.cache, KeyFor(s, c), s.made[l].result.value, s.clock, victim);
      assert Enabled(s, Publish(c, victim));
    }
  }

  // ---------------------------------------------------------------- the invariant

  predicate LoadInv(s: State, l: LoadId)
    requires l < |s.made|
  {
    var load := s.made[l];
    && load.owner < |s.calls| && load.key == KeyFor(s, load.owner)
    && (!load.done ==> load.key in s.loads && s.loads[load.key] == l
                       && (s.calls[load.owner].at == Loading(l) || s.calls[load.owner].at == Publishing(l)))
  }

  predicate InFlightInv(s: State, key: Key)
    requires key in s.loads
  {
    && key !in s.cache
    && s.loads[key] < |s.made| && s.made[s.loads[key]].key == key && !s.made[s.loads[key]].done
  }

  predicate CallInv(s: State, c: Caller)
    requires c < |s.calls|
  {
    match s.calls[c].at
    case Calling => true
    case Waiting(l) => l < |s.made| && s.made[l].key == KeyFor(s, c)
    case Loading(l) => l < |s.made| && s.made[l].owner == c && !s.made[l].done && s.made[l].result == None
    case Publishing(l) => l < |s.made| && s.made[l].owner == c && !s.made[l].done
    case Returned(_, _) => true
  }

  /** Nothing in the cache, in a load or in an answer differs from what the loader lists. */
  predicate IsTrue(truth: Truth, s: State, r: int, v: string) {
    var key := KeyOf(r, v);
    && (key in s.cache ==> s.cache[key].files == truth(r, v))
    && (forall l | 0 <= l < |s.made| && s.made[l].key == key && s.made[l].result.Some? ::
        s.made[l].result.value == truth(r, v))
  }

  predicate AnswerInv(truth: Truth, s: State, c: Caller)
    requires c < |s.calls|
  {
    var call := s.calls[c];
    call.at.Returned? && call.at.answer.Listing? ==> call.at.answer.files == truth(call.repository, call.revision)
  }

  ghost predicate CacheInv(s: State) {
    && |s.cache| <= MAXIMUM_CACHES && "" !in s.cache
    && forall k <- s.cache :: s.cache[k].lastUsed <= s.clock
  }

  ghost predicate FlightInv(s: State) {
    && (forall l: LoadId | l < |s.made| :: LoadInv(s, l))
    && (forall key <- s.loads :: InFlightInv(s, key))
    && (forall c: Caller | c < |s.calls| :: CallInv(s, c))
  }

  ghost predicate Shape(s: State) {
    CacheInv(s) && FlightInv(s)
  }

  ghost predicate Truthful(truth: Truth, s: State) {
    && (forall r, v :: IsTrue(truth, s, r, v))
    && (forall c: Caller | c < |s.calls| :: AnswerInv(truth, s, c))
  }

  lemma EnterKeepsCache(s: State, c: Caller)
    requires CacheInv(s) && Enabled(s, Enter(c))
    ensures CacheInv(EnterOf(s, c))
  {
    var t, key := EnterOf(s, c), KeyFor(s, c);
    assert key in s.cache ==> t.cache.Keys == s.cache.Keys;
  }

  lemma EnterKeepsFlight(s: State, c: Caller)
    requires FlightInv(s) && Enabled(s, Enter(c))
    ensures FlightInv(EnterOf(s, c))
  {
    var t, key := EnterOf(s, c), KeyFor(s, c);
    forall l: LoadId | l < |t.made| ensures LoadInv(t, l) {
      assert l < |s.made| ==> LoadInv(s, l);
    }
    forall k | k in t.loads ensures InFlightInv(t, k) {
      assert k in s.loads ==> InFlightInv(s, k);
    }
    forall d: Caller | d < |t.calls| ensures CallInv(t, d) {
      assert CallInv(s, d);
      assert key in s.loads ==> InFlightInv(s, key);
    }
  }

  lemma EnterKeepsTruth(truth: Truth, s: State, c: Caller)
    requires Truthful(truth, s) && Enabled(s, Enter(c))
    ensures Truthful(truth, EnterOf(s, c))
  {
    var t := EnterOf(s, c);
    forall r, v ensures IsTrue(truth, t, r, v) {
      assert IsTrue(truth, s, r, v);
    }
    forall d: Caller | d < |t.calls| ensures AnswerInv(truth, t, d) {
      assert AnswerInv(truth, s, d);
      assert IsTrue(truth, s, s.calls[c].repository, s.calls[c].revision);
    }
  }

  lemma LoaderReturnsKeepsShape(truth: Truth, s: State, c: Caller, ok: bool)
    requires Shape(s) && Enabled(s, LoaderReturns(c, ok))
    ensures Shape(Apply(truth, s, LoaderReturns(c, ok)))
  {
    var t := Apply(truth, s, LoaderReturns(c, ok));
    assert CallInv(s, c);
    forall l: LoadId | l < |t.made| ensures LoadInv(t, l) {
      assert LoadInv(s, l);
    }
    forall k | k in t.loads ensures InFlightInv(t, k) {
      assert InFlightInv(s, k);
    }
    forall d: Caller | d < |t.calls| ensures CallInv(t, d) {
      assert CallInv(s, d);
    }
  }

  lemma LoaderReturnsKeepsTruth(truth: Truth, s: State, c: Caller, ok: bool)
    requires Shape(s) && Truthful(truth, s) && Enabled(s, LoaderReturns(c, ok))
    ensures Truthful(truth, Apply(truth, s, LoaderReturns(c, ok)))
  {
    var t := Apply(truth, s, LoaderReturns(c, ok));
    var call := s.calls[c];
    assert CallInv(s, c) && LoadInv(s, call.at.load);
    forall r, v ensures IsTrue(truth, t, r, v) {
      assert IsTrue(truth, s, r, v);
      if KeyOf(r, v) == KeyFor(s, c) {
        KeysAreInjective(r, v, call.repository, call.revision);
      }
    }
    forall d: Caller | d < |t.calls| ensures AnswerInv(truth, t, d) {
      assert AnswerInv(truth, s, d);
    }
  }

  lemma PublishKeepsCache(s: State, c: Caller, victim: Key)
    requires CacheInv(s) && Enabled(s, Publish(c, victim))
    ensures CacheInv(PublishOf(s, c, s.calls[c].at.load, victim))
  {
    assert |s.cache| >= MAXIMUM_CACHES ==> (s.cache - {victim}).Keys == s.cache.Keys - {victim};
    var t := PublishOf(s, c, s.calls[c].at.load, victim);
    var kept := if |s.cache| >= MAXIMUM_CACHES then s.cache - {victim} else s.cache;
    assert t.cache != s.cache ==> t.cache.Keys == kept.Keys + {KeyFor(s, c)};
  }

  lemma PublishKeepsFlight(s: State, c: Caller, victim: Key)
    requires FlightInv(s) && Enabled(s, Publish(c, victim))
    ensures FlightInv(PublishOf(s, c, s.calls[c].at.load, victim))
  {
    var mine := s.calls[c].at.load;
    var t := PublishOf(s, c, mine, victim);
    assert CallInv(s, c) && LoadInv(s, mine);
    forall l: LoadId | l < |t.made| ensures LoadInv(t, l) {
      assert LoadInv(s, l);
    }
    forall k | k in t.loads ensures InFlightInv(t, k) {
      assert InFlightInv(s, k);
    }
    forall d: Caller | d < |t.calls| ensures CallInv(t, d) {
      assert CallInv(s, d);
    }
  }

  lemma PublishKeepsTrue(truth: Truth, s: State, c: Caller, l: LoadId, victim: Key, r: int, v: string)
    requires c < |s.calls| && l < |s.made| && s.made[l].key == KeyFor(s, c) && IsTrue(truth, s, r, v)
    ensures IsTrue(truth, PublishOf(s, c, l, victim), r, v)
  {
  }

  lemma PublishKeepsTruth(truth: Truth, s: State, c: Caller, l: LoadId, victim: Key)
    requires c < |s.calls| && l < |s.made| && s.made[l].key == KeyFor(s, c) && Truthful(truth, s)
    ensures Truthful(truth, PublishOf(s, c, l, victim))
  {
    var t := PublishOf(s, c, l, victim);
    assert IsTrue(truth, s, s.calls[c].repository, s.calls[c].revision);
    forall r, v ensures IsTrue(truth, t, r, v) {
      PublishKeepsTrue(truth, s, c, l, victim, r, v);
    }
    forall d: Caller | d < |t.calls| ensures AnswerInv(truth, t, d) {
      assert AnswerInv(truth, s, d);
    }
  }

  /** The steps that touch neither the cache nor the loads. */
  lemma OthersKeep(truth: Truth, s: State, a: Action)
    requires Shape(s) && Truthful(truth, s) && Enabled(s, a)
    requires a.Arrive? || a.Pass? || a.Wake? || a.GiveUp?
    ensures Shape(Apply(truth, s, a)) && Truthful(truth, Apply(truth, s, a))
  {
    var t := Apply(truth, s, a);
    forall l: LoadId | l < |t.made| ensures LoadInv(t, l) {
      assert LoadInv(s, l);
    }
    forall k | k in t.loads ensures InFlightInv(t, k) {
      assert InFlightInv(s, k);
    }
    forall d: Caller | d < |t.calls| ensures CallInv(t, d) && AnswerInv(truth, t, d) {
      if d < |s.calls| {
        assert CallInv(s, d) && AnswerInv(truth, s, d);
        assert IsTrue(truth, s, s.calls[d].repository, s.calls[d].revision);
      }
    }
    forall r, v ensures IsTrue(truth, t, r, v) {
      assert IsTrue(truth, s, r, v);
    }
  }

  lemma StepKeeps(truth: Truth, s: State, a: Action)
    requires Shape(s) && Truthful(truth, s) && Enabled(s, a)
    ensures Shape(Apply(truth, s, a)) && Truthful(truth, Apply(truth, s, a))
  {
    match a
    case Enter(c) =>
      EnterKeepsCache(s, c);
      EnterKeepsFlight(s, c);
      EnterKeepsTruth(truth, s, c);
    case LoaderReturns(c, ok) =>
      LoaderReturnsKeepsShape(truth, s, c, ok);
      LoaderReturnsKeepsTruth(truth, s, c, ok);
    case Publish(c, victim) =>
      PublishKeepsCache(s, c, victim);
      PublishKeepsFlight(s, c, victim);
      assert CallInv(s, c) && LoadInv(s, s.calls[c].at.load);
      PublishKeepsTruth(truth, s, c, s.calls[c].at.load, victim);
    case _ =>
      OthersKeep(truth, s, a);
  }

  lemma Advance(truth: Truth, s: State, t: State)
    requires Shape(s) && Truthful(truth, s) && Step(truth, s, t)
    ensures Shape(t) && Truthful(truth, t)
  {
    var a :| Enabled(s, a) && t == Apply(truth, s, a);
    StepKeeps(truth, s, a);
  }

  /** Every reachable state satisfies the invariant. */
  lemma {:induction false} RunKeeps(truth: Truth, run: seq<State>, i: nat)
    requires IsRun(truth, run) && i < |run|
    ensures Shape(run[i]) && Truthful(truth, run[i])
  {
    if i > 0 {
      RunKeeps(truth, run, i - 1);
      Advance(truth, run[i - 1], run[i - 1 + 1]);
    }
  }

  // ---------------------------------------------------------------- what callers can rely on

  predicate InLoad(s: State, c: Caller) {
    c < |s.calls| && (s.calls[c].at.Loading? || s.calls[c].at.Publishing?)
  }

  /** At most one load is in flight for a key. */
  lemma OneLoaderPerKey(truth: Truth, run: seq<State>, i: nat, c: Caller, d: Caller)
    requires IsRun(truth, run) && i < |run|
    requires InLoad(run[i], c) && InLoad(run[i], d) && KeyFor(run[i], c) == KeyFor(run[i], d)
    ensures c == d
  {
    RunKeeps(truth, run, i);
    var s := run[i];
    assert CallInv(s, c) && CallInv(s, d);
    assert LoadInv(s, s.calls[c].at.load) && LoadInv(s, s.calls[d].at.load);
  }

  /** The cache never holds more than 32 listings, every listing returned is the one the loader
      makes, and a load's done channel is never closed twice. */
  lemma CacheIsSound(truth: Truth, run: seq<State>, i: nat)
    requires IsRun(truth, run) && i < |run|
    ensures |run[i].cache| <= MAXIMUM_CACHES
    ensures forall c: Caller | c < |run[i].calls| :: AnswerInv(truth, run[i], c)
    ensures forall c: Caller, victim | Enabled(run[i], Publish(c, victim)) :: !run[i].made[run[i].calls[c].at.load].done
  {
    RunKeeps(truth, run, i);
    forall c: Caller, victim | Enabled(run[i], Publish(c, victim)) ensures !run[i].made[run[i].calls[c].at.load].done {
      assert CallInv(run[i], c);
    }
  }

  /** A listing leaves the cache only when a successful load finds it full, and then it is a least
      recently used one; a failed load leaves the cache alone. */
  lemma OnlyTheOldestLeaves(truth: Truth, s: State, a: Action, key: Key)
    requires Enabled(s, a) && key in s.cache && key !in Apply(truth, s, a).cache
    ensures LeastRecentlyUsed(s.cache, key) && |s.cache| >= MAXIMUM_CACHES
    ensures a.Publish? && s.made[s.calls[a.c].at.load].result.Some?
  {
  }

  /** The time of use is that of the last hit, or of the load. */
  lemma UseIsRecorded(truth: Truth, s: State, a: Action, key: Key)
    requires Shape(s) && Enabled(s, a) && key in Apply(truth, s, a).cache
    requires key !in s.cache || Apply(truth, s, a).cache[key] != s.cache[key]
    ensures Apply(truth, s, a).cache[key].lastUsed == s.clock
    ensures (a.Enter? && key == KeyFor(s, a.c) && key in s.cache) ||
            (a.Publish? && key == KeyFor(s, a.c) && key !in s.cache && s.made[s.calls[a.c].at.load].result.Some?)
  {
    if a.Publish? {
      assert CallInv(s, a.c) && LoadInv(s, s.calls[a.c].at.load);
      assert InFlightInv(s, KeyFor(s, a.c));
    }
  }

  /** A caller that has not returned, and did not lose its context, is never stuck: it, or the
      caller whose load it waits for, can move on. */
  lemma NobodyIsStuck(truth: Truth, run: seq<State>, i: nat, c: Caller) returns (a: Action)
    requires IsRun(truth, run) && i < |run| && c < |run[i].calls| && !run[i].calls[c].at.Returned?
    ensures Enabled(run[i], a)
    ensures a == Enter(c) || a == Wake(c) || (a.LoaderReturns? && InLoad(run[i], a.c)) ||
            (a.Publish? && InLoad(run[i], a.c))
    ensures (a.LoaderReturns? || a.Publish?) ==> KeyFor(run[i], a.c) == KeyFor(run[i], c)
  {
    RunKeeps(truth, run, i);
    var s := run[i];
    assert CallInv(s, c);
    match s.calls[c].at {
      case Calling => a := Enter(c);
      case Waiting(l) =>
        if s.made[l].done {
          a := Wake(c);
        } else {
          assert LoadInv(s, l);
          a := LoaderMoves(s, s.made[l].owner);
        }
      case Loading(_) => a := LoaderMoves(s, c);
      case Publishing(_) => a := LoaderMoves(s, c);
    }
  }

  lemma LoaderMoves(s: State, c: Caller) returns (a: Action)
    requires Shape(s) && InLoad(s, c)
    ensures Enabled(s, a) && (a == LoaderReturns(c, true) || (a.Publish? && a.c == c))
  {
    assert CallInv(s, c);
    if s.calls[c].at.Loading? {
      a := LoaderReturns(c, true);
    } else {
      var victim := HasVictim(s.cache);
      a := Publish(c, victim);
    }
  }

  lemma HasVictim(cache: map<Key, Entry>) returns (victim: Key)
    ensures MayEvict(cache, victim)
  {
    victim := "";
    if |cache| >= MAXIMUM_CACHES {
      assert cache.Keys != {};
      victim := OldestOf(cache, cache.Keys);
    }
  }

  lemma {:induction false} OldestOf(cache: map<Key, Entry>, keys: set<Key>) returns (victim: Key)
    requires keys != {} && keys <= cache.Keys
    ensures victim in keys && forall k <- keys :: cache[victim].lastUsed <= cache[k].lastUsed
    decreases |keys|
  {
    victim :| victim in keys;
    if keys != {victim} {
      var other := OldestOf(cache, keys - {victim});
      victim := if cache[other].lastUsed < cache[victim].lastUsed then other else victim;
    }
  }
}
