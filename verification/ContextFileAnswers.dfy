/** What callers of the context-file cache are told: the truth about the load they took part in. */
module ContextFileAnswers {

  import opened ContextFileCache

  /** What the loader of a load gave is what the load holds. */
  predicate LoadSays(truth: Truth, s: State, l: LoadId)
    requires l < |s.made|
  {
    var load := s.made[l];
    && load.owner < |s.calls| && load.key == KeyFor(s, load.owner)
    && (load.done ==> load.succeeded.Some?)
    && load.result == if load.succeeded == Some(true)
                      then Some(truth(s.calls[load.owner].repository, s.calls[load.owner].revision)) else None
  }

  /** The answer that a load owes the callers that took part in it. */
  function Owed(truth: Truth, s: State, c: Caller, l: LoadId): Answer
    requires c < |s.calls| && l < |s.made|
  {
    if s.made[l].succeeded == Some(true) then Listing(truth(s.calls[c].repository, s.calls[c].revision)) else LoaderFailed
  }

  predicate CallerKnows(truth: Truth, s: State, c: Caller)
    requires c < |s.calls|
  {
    match s.calls[c].at
    case Loading(l) => l < |s.made| && s.made[l].owner == c && s.made[l].succeeded.None?
    case Publishing(l) => l < |s.made| && s.made[l].owner == c && s.made[l].succeeded.Some?
    case Returned(answer, FromCache) => answer == Listing(truth(s.calls[c].repository, s.calls[c].revision))
    case Returned(answer, FromLoad(l)) =>
      && l < |s.made| && s.made[l].key == KeyFor(s, c) && s.made[l].succeeded.Some?
      && answer == Owed(truth, s, c, l)
    case Returned(answer, GaveUp) => answer == Cancelled
    case _ => true
  }

  ghost predicate AnswersInv(truth: Truth, s: State) {
    && (forall l: LoadId | l < |s.made| :: LoadSays(truth, s, l))
    && (forall c: Caller | c < |s.calls| :: CallerKnows(truth, s, c))
  }

  /** A load gives every caller with its key the answer it is owed. */
  lemma LoadAnswers(truth: Truth, s: State, c: Caller, l: LoadId)
    requires c < |s.calls| && l < |s.made| && LoadSays(truth, s, l) && s.made[l].key == KeyFor(s, c)
    ensures AnswerOf(s.made[l].result) == Owed(truth, s, c, l)
  {
    var owner := s.calls[s.made[l].owner];
    KeysAreInjective(owner.repository, owner.revision, s.calls[c].repository, s.calls[c].revision);
  }

  lemma EnterKeepsAnswers(truth: Truth, s: State, c: Caller)
    requires Truthful(truth, s) && AnswersInv(truth, s) && Enabled(s, Enter(c))
    ensures AnswersInv(truth, EnterOf(s, c))
  {
    var t := EnterOf(s, c);
    assert IsTrue(truth, s, s.calls[c].repository, s.calls[c].revision);
    forall l: LoadId | l < |t.made| ensures LoadSays(truth, t, l) {
      assert l < |s.made| ==> LoadSays(truth, s, l);
    }
    forall d: Caller | d < |t.calls| ensures CallerKnows(truth, t, d) {
      assert CallerKnows(truth, s, d);
    }
  }

  lemma LoaderKeepsLoad(truth: Truth, s: State, c: Caller, ok: bool, l: LoadId)
    requires Enabled(s, LoaderReturns(c, ok)) && l < |s.made| && LoadSays(truth, s, l) && CallerKnows(truth, s, c)
    ensures var t := Apply(truth, s, LoaderReturns(c, ok));
            |t.made| == |s.made| && LoadSays(truth, t, l)
  {
    hide KeyOf;
  }

  lemma LoaderKeepsCaller(truth: Truth, s: State, c: Caller, ok: bool, d: Caller)
    requires Enabled(s, LoaderReturns(c, ok)) && d < |s.calls|
    requires CallerKnows(truth, s, c) && CallerKnows(truth, s, d)
    ensures var t := Apply(truth, s, LoaderReturns(c, ok));
            |t.calls| == |s.calls| && CallerKnows(truth, t, d)
  {
    hide KeyOf;
  }

  lemma LoaderKeepsAnswers(truth: Truth, s: State, c: Caller, ok: bool)
    requires AnswersInv(truth, s) && Enabled(s, LoaderReturns(c, ok))
    ensures AnswersInv(truth, Apply(truth, s, LoaderReturns(c, ok)))
  {
    var t := Apply(truth, s, LoaderReturns(c, ok));
    assert |t.made| == |s.made| && |t.calls| == |s.calls|;
    assert CallerKnows(truth, s, c);
    hide Apply, LoadSays, CallerKnows;
    forall l: LoadId | l < |t.made| ensures LoadSays(truth, t, l) {
      LoaderKeepsLoad(truth, s, c, ok, l);
    }
    forall d: Caller | d < |t.calls| ensures CallerKnows(truth, t, d) {
      LoaderKeepsCaller(truth, s, c, ok, d);
    }
  }

  /** Callers ask for the same as before, and loads are the same but for one that may be done now. */
  predicate SameButDone(s: State, t: State, c: Caller) {
    && |t.calls| == |s.calls| && |t.made| == |s.made|
    && (forall d: Caller | d < |s.calls| ::
          t.calls[d].repository == s.calls[d].repository && t.calls[d].revision == s.calls[d].revision)
    && (forall d: Caller | d < |s.calls| && d != c :: t.calls[d] == s.calls[d])
    && (forall l: LoadId | l < |s.made| ::
          t.made[l] == s.made[l] || (t.made[l] == s.made[l].(done := true) && s.made[l].succeeded.Some?))
  }

  lemma OthersKnowTheSame(truth: Truth, s: State, t: State, c: Caller)
    requires SameButDone(s, t, c) && AnswersInv(truth, s)
    ensures forall l: LoadId | l < |t.made| :: LoadSays(truth, t, l)
    ensures forall d: Caller | d < |t.calls| && d != c :: CallerKnows(truth, t, d)
  {
    forall l: LoadId | l < |t.made| ensures LoadSays(truth, t, l) {
      assert LoadSays(truth, s, l);
    }
    forall d: Caller | d < |t.calls| && d != c ensures CallerKnows(truth, t, d) {
      assert CallerKnows(truth, s, d);
    }
  }

  lemma PublishKeepsAnswers(truth: Truth, s: State, c: Caller, victim: Key)
    requires Shape(s) && AnswersInv(truth, s) && Enabled(s, Publish(c, victim))
    ensures AnswersInv(truth, Apply(truth, s, Publish(c, victim)))
  {
    var t, mine := Apply(truth, s, Publish(c, victim)), s.calls[c].at.load;
    assert CallInv(s, c) && LoadInv(s, mine) && LoadSays(truth, s, mine) && CallerKnows(truth, s, c);
    LoadAnswers(truth, s, c, mine);
    hide Shape, Truthful, LoadInv, CallInv, Stored, KeyOf;
    OthersKnowTheSame(truth, s, t, c);
  }

  lemma WakeKeepsAnswers(truth: Truth, s: State, c: Caller)
    requires Shape(s) && AnswersInv(truth, s) && Enabled(s, Wake(c))
    ensures AnswersInv(truth, Apply(truth, s, Wake(c)))
  {
    var t, l := Apply(truth, s, Wake(c)), s.calls[c].at.load;
    assert CallInv(s, c) && LoadSays(truth, s, l);
    LoadAnswers(truth, s, c, l);
    forall k: LoadId | k < |t.made| ensures LoadSays(truth, t, k) {
      assert LoadSays(truth, s, k);
    }
    forall d: Caller | d < |t.calls| ensures CallerKnows(truth, t, d) {
      assert CallerKnows(truth, s, d);
    }
  }

  lemma OthersKeepAnswers(truth: Truth, s: State, a: Action)
    requires AnswersInv(truth, s) && Enabled(s, a) && (a.Arrive? || a.Pass? || a.GiveUp?)
    ensures AnswersInv(truth, Apply(truth, s, a))
  {
    var t := Apply(truth, s, a);
    forall l: LoadId | l < |t.made| ensures LoadSays(truth, t, l) {
      assert LoadSays(truth, s, l);
    }
    forall d: Caller | d < |t.calls| ensures CallerKnows(truth, t, d) {
      assert d < |s.calls| ==> CallerKnows(truth, s, d);
    }
  }

  lemma StepKeepsAnswers(truth: Truth, s: State, a: Action)
    requires Shape(s) && Truthful(truth, s) && AnswersInv(truth, s) && Enabled(s, a)
    ensures AnswersInv(truth, Apply(truth, s, a))
  {
    match a
    case Enter(c) => EnterKeepsAnswers(truth, s, c);
    case LoaderReturns(c, ok) => LoaderKeepsAnswers(truth, s, c, ok);
    case Publish(c, victim) => PublishKeepsAnswers(truth, s, c, victim);
    case Wake(c) => WakeKeepsAnswers(truth, s, c);
    case _ => OthersKeepAnswers(truth, s, a);
  }

  lemma ActionOf(truth: Truth, run: seq<State>, i: nat) returns (a: Action)
    requires IsRun(truth, run) && 0 < i < |run|
    ensures Enabled(run[i - 1], a) && run[i] == Apply(truth, run[i - 1], a)
  {
    assert Step(truth, run[i - 1], run[i - 1 + 1]);
    a :| Enabled(run[i - 1], a) && run[i] == Apply(truth, run[i - 1], a);
  }

  lemma {:induction false} AnswersInRun(truth: Truth, run: seq<State>, i: nat)
    requires IsRun(truth, run) && i < |run|
    ensures AnswersInv(truth, run[i])
  {
    if i > 0 {
      hide IsRun, Enabled, Apply, Shape, Truthful, AnswersInv;
      AnswersInRun(truth, run, i - 1);
      RunKeeps(truth, run, i - 1);
      var a := ActionOf(truth, run, i);
      StepKeepsAnswers(truth, run[i - 1], a);
    }
  }

  /** In every run a caller that found the listing in the cache gets the true one; one that took part in a load, as its
      owner or waiting for it, gets the true listing exactly if the loader succeeded and a failure exactly if it failed;
      and only a waiter that gave up is told that it was cancelled. */
  lemma CallersAreToldTheTruth(truth: Truth, run: seq<State>, i: nat, c: Caller)
    requires IsRun(truth, run) && i < |run| && c < |run[i].calls| && run[i].calls[c].at.Returned?
    ensures var s, call := run[i], run[i].calls[c];
            match call.at.via
            case FromCache => call.at.answer == Listing(truth(call.repository, call.revision))
            case FromLoad(l) =>
              && l < |s.made| && s.made[l].key == KeyFor(s, c) && s.made[l].succeeded.Some?
              && (call.at.answer == Listing(truth(call.repository, call.revision)) <==> s.made[l].succeeded.value)
              && (call.at.answer == LoaderFailed <==> !s.made[l].succeeded.value)
            case GaveUp => call.at.answer == Cancelled
  {
    AnswersInRun(truth, run, i);
    assert CallerKnows(truth, run[i], c);
  }
}
