/** What the advisory pool makes of the outcomes of its fetches. */
module AdvisoryOutcomes {

  import opened AdvisoryPool
  import opened AdvisoryPoolRuns

  /** The fetch of the id returned an advisory. */
  predicate WasFetched(s: State, j: Job) {
    j in s.outcomes && s.outcomes[j].Fetched?
  }

  /** The worker of the id gave up: the fetch ended with a fatal error, or there was none because of a cancellation. */
  predicate GaveUp(s: State, j: Job) {
    j !in s.outcomes || s.outcomes[j].Fatal?
  }

  /** What a worker is about to say of its id is what the fetch gave. */
  predicate WorkerSays(s: State, w: nat)
    requires w < |s.workers|
  {
    match s.workers[w]
    case Idle => true
    case Exited => true
    case Pacing(j) => j !in s.outcomes
    case Fetching(j) => j !in s.outcomes
    case Aborting(j) => GaveUp(s, j) && (j !in s.outcomes ==> s.cancelled)
    case Reporting(r, last) => Says(s, r) && (last <==> GaveUp(s, r.job))
  }

  /** The result of an id is good exactly if its fetch returned an advisory; a worker that gave up closed the fatal
      signal, and gave up without a fetch only after a cancellation. */
  predicate Says(s: State, r: Result) {
    && (r.ok <==> WasFetched(s, r.job))
    && (GaveUp(s, r.job) ==> s.fatal) && (r.job !in s.outcomes ==> s.cancelled)
  }

  ghost predicate OutcomeInv(s: State) {
    && (forall w: nat | w < |s.workers| :: WorkerSays(s, w))
    && (forall k: nat | k < |s.results| :: Says(s, s.results[k]))
    && (forall j <- s.outcomes :: j < |s.places|)
    && (s.fatal ==> s.culprit < |s.places| && GaveUp(s, s.culprit) && (s.culprit !in s.outcomes ==> s.cancelled))
  }

  lemma WorkersHaveOwnIds(s: State, w: nat, v: nat)
    requires Inv(s) && w < |s.workers| && v < |s.workers| && v != w && Busy(s.workers[w]) && Busy(s.workers[v])
    ensures JobOf(s.workers[v]) != JobOf(s.workers[w])
  {
    assert WorkerInv(s, w) && WorkerInv(s, v);
  }

  lemma ResultsHaveOtherIds(s: State, w: nat, k: nat)
    requires Inv(s) && w < |s.workers| && Busy(s.workers[w]) && k < |s.results|
    ensures s.results[k].job != JobOf(s.workers[w])
  {
    assert WorkerInv(s, w) && ResultInv(s, k);
  }

  /** Nothing is said of the ids of others. */
  lemma OthersSayTheSame(s: State, t: State, w: nat)
    requires Inv(s) && OutcomeInv(s) && w < |s.workers| && Busy(s.workers[w])
    requires |t.workers| == |s.workers| && forall v: nat | v < |s.workers| && v != w :: t.workers[v] == s.workers[v]
    requires t.results == s.results && (s.fatal ==> t.fatal) && (s.cancelled ==> t.cancelled)
    requires forall j: Job | j != JobOf(s.workers[w]) ::
               (j in t.outcomes <==> j in s.outcomes) && (j in s.outcomes ==> t.outcomes[j] == s.outcomes[j])
    ensures forall v: nat | v < |s.workers| && v != w :: WorkerSays(t, v)
    ensures forall k: nat | k < |s.results| :: Says(t, t.results[k])
  {
    forall v: nat | v < |s.workers| && v != w ensures WorkerSays(t, v) {
      assert WorkerSays(s, v);
      if Busy(s.workers[v]) {
        WorkersHaveOwnIds(s, w, v);
      }
    }
    forall k: nat | k < |s.results| ensures Says(t, t.results[k]) {
      assert Says(s, s.results[k]);
      ResultsHaveOtherIds(s, w, k);
    }
  }

  lemma WorkerKeepsOutcomes(s: State, a: Action, w: nat)
    requires Inv(s) && OutcomeInv(s) && Enabled(s, a)
    requires a == Tick(w) || a == SeeCancelled(w) || (a.Return? && a.w == w) || a == Abort(w)
    ensures OutcomeInv(Apply(s, a))
  {
    var t := Apply(s, a);
    assert WorkerInv(s, w) && WorkerSays(s, w);
    assert s.fatal ==> PlaceInv(s, s.culprit);
    OthersSayTheSame(s, t, w);
  }

  lemma HandoffKeepsOutcomes(s: State, w: nat)
    requires Inv(s) && OutcomeInv(s) && Enabled(s, Handoff(w))
    ensures OutcomeInv(Apply(s, Handoff(w)))
  {
    var t := Apply(s, Handoff(w));
    forall v: nat | v < |t.workers| ensures WorkerSays(t, v) {
      assert WorkerSays(s, v);
    }
    forall k: nat | k < |t.results| ensures Says(t, t.results[k]) {
      assert Says(s, s.results[k]);
    }
  }

  lemma ReportKeepsOutcomes(s: State, w: nat)
    requires Inv(s) && OutcomeInv(s) && Enabled(s, Report(w))
    ensures OutcomeInv(Apply(s, Report(w)))
  {
    var t := Apply(s, Report(w));
    assert WorkerInv(s, w) && WorkerSays(s, w);
    forall v: nat | v < |t.workers| ensures WorkerSays(t, v) {
      assert WorkerSays(s, v);
    }
    forall k: nat | k < |t.results| ensures Says(t, t.results[k]) {
      assert k < |s.results| ==> Says(s, s.results[k]);
    }
  }

  lemma OthersKeepOutcomes(s: State, a: Action)
    requires Inv(s) && OutcomeInv(s) && Enabled(s, a)
    requires a.Cancel? || a.SkipFatal? || a.Check? || a.CloseJobs? || a.CloseResults? || a.Exit? || a.Receive? || a.Finish?
    ensures OutcomeInv(Apply(s, a))
  {
    var t := Apply(s, a);
    forall v: nat | v < |t.workers| ensures WorkerSays(t, v) {
      assert WorkerSays(s, v);
    }
    forall k: nat | k < |t.results| ensures Says(t, t.results[k]) {
      assert Says(s, s.results[k]);
    }
  }

  lemma StepKeepsOutcomes(s: State, a: Action)
    requires Inv(s) && OutcomeInv(s) && Enabled(s, a)
    ensures OutcomeInv(Apply(s, a))
  {
    match a
    case Handoff(w) => HandoffKeepsOutcomes(s, w);
    case Tick(w) => WorkerKeepsOutcomes(s, a, w);
    case SeeCancelled(w) => WorkerKeepsOutcomes(s, a, w);
    case Return(w, o) => WorkerKeepsOutcomes(s, a, w);
    case Abort(w) => WorkerKeepsOutcomes(s, a, w);
    case Report(w) => ReportKeepsOutcomes(s, w);
    case _ => OthersKeepOutcomes(s, a);
  }

  lemma ActionOf(run: seq<State>, n: nat, j: nat) returns (a: Action)
    requires IsRun(run, n) && 0 < j < |run|
    ensures Enabled(run[j - 1], a) && run[j] == Apply(run[j - 1], a)
  {
    assert Step(run[j - 1], run[j - 1 + 1]);
    a :| Enabled(run[j - 1], a) && run[j] == Apply(run[j - 1], a);
  }

  lemma {:induction false} OutcomesInRun(run: seq<State>, n: nat, i: nat)
    requires IsRun(run, n) && i < |run|
    ensures Inv(run[i]) && OutcomeInv(run[i])
  {
    RunKeeps(run, n, i);
    if i > 0 {
      hide *;
      OutcomesInRun(run, n, i - 1);
      var a := ActionOf(run, n, i);
      StepKeepsOutcomes(run[i - 1], a);
    }
  }

  // ---------------------------------------------------------------- what the pool promises

  /** In every run a result is good exactly if the fetch of its id returned an advisory, and nothing but a fatal error
      of a fetch or a cancellation closes the fatal signal. */
  lemma ResultsAreOutcomes(run: seq<State>, n: nat, i: nat)
    requires IsRun(run, n) && i < |run|
    ensures forall k | 0 <= k < |run[i].results| :: run[i].results[k].ok <==> WasFetched(run[i], run[i].results[k].job)
    ensures run[i].fatal ==> run[i].cancelled || exists j <- run[i].outcomes :: run[i].outcomes[j].Fatal?
  {
    OutcomesInRun(run, n, i);
    forall k: nat | k < |run[i].results| ensures run[i].results[k].ok <==> WasFetched(run[i], run[i].results[k].job) {
      assert Says(run[i], run[i].results[k]);
    }
  }

  /** When the consumer has returned, the output holds exactly the ids whose fetch returned an advisory, the snapshot is
      partial exactly if some queried id is not among them, and the fatal signal is closed exactly if the worker of some
      dispatched id gave up: its fetch ended with a fatal error, or a cancellation came before it. */
  lemma OutputIsWhatWasFetched(run: seq<State>, n: nat, i: nat)
    requires IsRun(run, n) && i < |run| && run[i].consumer.done
    ensures forall j: Job :: j in run[i].consumer.output <==> WasFetched(run[i], j)
    ensures !Partial(run[i]) <==> forall j: Job | j < n :: WasFetched(run[i], j)
    ensures run[i].fatal <==> exists j: Job :: j < |run[i].places| && GaveUp(run[i], j)
    ensures (!run[i].cancelled && !run[i].fatal) ==> |run[i].places| == n
  {
    var s := run[i];
    OutcomesInRun(run, n, i);
    RunKeeps(run, n, i);
    ConsumerKnows(s.results, s.received);
    forall j: Job ensures j in s.consumer.output <==> WasFetched(s, j) {
      OutputHolds(s, j);
    }
    forall j: Job | j < |s.places| && GaveUp(s, j) ensures s.fatal {
      AllReported(s, j);
      assert Says(s, s.results[s.places[j].k]);
    }
    NotPartialMeansComplete(s);
    if Partial(s) {
      var k :| 0 <= k < |s.results| && !s.results[k].ok;
      assert Says(s, s.results[k]) && ResultInv(s, k);
      assert !WasFetched(s, s.results[k].job);
    }
  }

  lemma OutputHolds(s: State, j: Job)
    requires Inv(s) && OutcomeInv(s) && s.consumer.done
    ensures j in s.consumer.output <==> WasFetched(s, j)
  {
    ConsumerKnows(s.results, s.received);
    if WasFetched(s, j) {
      AllReported(s, j);
      assert Says(s, s.results[s.places[j].k]);
      assert s.results[s.places[j].k] == Result(j, true);
    }
    if j in s.consumer.output {
      var k :| 0 <= k < s.received && s.results[k] == Result(j, true);
      assert Says(s, s.results[k]);
    }
  }

  // ---------------------------------------------------------------- after a fatal error

  /** How many ids were handed out or may still be after the fatal signal was closed. */
  function Dispatches(s: State): nat {
    |s.places| + if s.dispatcher.Offering? then 1 else 0
  }

  lemma StepDispatches(s: State, a: Action)
    requires Enabled(s, a) && s.fatal
    ensures Apply(s, a).fatal
    ensures Dispatches(Apply(s, a)) <= Dispatches(s)
  {
  }

  /** After the fatal signal was closed at most one more id is handed out: one that the dispatcher was offering. */
  lemma {:induction false} DispatchStops(run: seq<State>, n: nat, i: nat, j: nat)
    requires IsRun(run, n) && i <= j < |run| && run[i].fatal
    ensures run[j].fatal && Dispatches(run[j]) <= Dispatches(run[i])
    decreases j
  {
    hide *;
    if i < j {
      DispatchStops(run, n, i, j - 1);
      var a := ActionOf(run, n, j);
      StepDispatches(run[j - 1], a);
    }
  }
}
