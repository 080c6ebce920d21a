/** Runs of the advisory pool: nobody blocks, every run ends, and what it ends with. */
module AdvisoryPoolRuns {

  import opened AdvisoryPool

  /** A worker with a result to send never waits for the consumer: the buffer has room. */
  lemma BufferHasRoom(s: State, w: nat)
    requires Inv(s) && w < |s.workers| && s.workers[w].Reporting?
    ensures HasRoom(s)
  {
    CountAfterPut(s.workers, w, Idle);
  }

  /** Until the consumer returns somebody can move, without help from a cancellation. */
  lemma SomebodyMoves(s: State) returns (a: Action)
    requires Inv(s) && !s.consumer.done
    ensures Enabled(s, a) && !a.Cancel?
  {
    if w: nat :| w < |s.workers| && Busy(s.workers[w]) {
      match s.workers[w] {
        case Pacing(_) => a := Tick(w);
        case Fetching(_) => a := Return(w, Fetched);
        case Aborting(_) => a := Abort(w);
        case Reporting(_, _) =>
          BufferHasRoom(s, w);
          a := Report(w);
      }
    } else {
      a := IdleMove(s);
    }
  }

  lemma IdleMove(s: State) returns (a: Action)
    requires Inv(s) && !s.consumer.done && forall w: nat | w < |s.workers| :: !Busy(s.workers[w])
    ensures Enabled(s, a) && !a.Cancel?
  {
    match s.dispatcher {
      case Offering(_) =>
        assert WorkerInv(s, 0);
        a := if s.workers[0].Idle? then Handoff(0) else SkipFatal;
      case Checking(_) => a := Check;
      case ClosingJobs => a := CloseJobs;
      case Waiting =>
        if w: nat :| w < |s.workers| && s.workers[w].Idle? {
          a := Exit(w);
        } else {
          a := CloseResults;
        }
      case Gone => a := if s.received < |s.results| then Receive else Finish;
    }
  }

  /** Steps a worker may still take with the id it has, its result included. */
  function Weight(x: Worker): nat {
    match x
    case Idle => 1
    case Pacing(_) => 6
    case Fetching(_) => 5
    case Aborting(_) => 4
    case Reporting(_, _) => 3
    case Exited => 0
  }

  function TotalWeight(workers: seq<Worker>): nat {
    if workers == [] then 0 else TotalWeight(workers[..|workers| - 1]) + Weight(workers[|workers| - 1])
  }

  predicate InBounds(s: State) {
    && (s.dispatcher.Offering? ==> s.dispatcher.next < s.n)
    && (s.dispatcher.Checking? ==> s.dispatcher.next < s.n)
    && s.received <= |s.results|
  }

  function DispatcherWeight(s: State): nat
    requires InBounds(s)
  {
    match s.dispatcher
    case Offering(next) => 8 * (s.n - next) + 4
    case Checking(next) => 8 * (s.n - next) - 2
    case ClosingJobs => 3
    case Waiting => 2
    case Gone => 1
  }

  /** A bound on the number of steps from a state on. */
  function Left(s: State): nat
    requires InBounds(s)
  {
    DispatcherWeight(s) + TotalWeight(s.workers) + (|s.results| - s.received)
    + (if s.consumer.done then 0 else 1) + if s.cancelled then 0 else 1
  }

  lemma {:induction false} WeightAfterPut(workers: seq<Worker>, w: nat, x: Worker)
    requires w < |workers|
    ensures TotalWeight(workers[w := x]) == TotalWeight(workers) - Weight(workers[w]) + Weight(x)
  {
    var front := workers[..|workers| - 1];
    if w < |workers| - 1 {
      WeightAfterPut(front, w, x);
      assert workers[w := x][..|workers| - 1] == front[w := x];
    } else {
      assert workers[w := x][..|workers| - 1] == front;
    }
  }

  /** A step of a worker, alone or with the dispatcher. */
  lemma WorkerUsesUp(s: State, a: Action)
    requires Enabled(s, a) && InBounds(s) && InBounds(Apply(s, a))
    requires a.Handoff? || a.Tick? || a.SeeCancelled? || a.Return? || a.Abort? || a.Report? || a.Exit?
    ensures Left(Apply(s, a)) < Left(s)
  {
    hide TotalWeight, HasRoom;
    WeightAfterPut(s.workers, a.w, Apply(s, a).workers[a.w]);
  }

  lemma ActionUsesUp(s: State, a: Action)
    requires Enabled(s, a) && InBounds(s) && InBounds(Apply(s, a))
    ensures Left(Apply(s, a)) < Left(s)
  {
    if a.Handoff? || a.Tick? || a.SeeCancelled? || a.Return? || a.Abort? || a.Report? || a.Exit? {
      WorkerUsesUp(s, a);
    }
  }

  lemma ReachableInBounds(run: seq<State>, n: nat, i: nat)
    requires IsRun(run, n) && i < |run|
    ensures InBounds(run[i])
  {
    RunKeeps(run, n, i);
  }

  /** Every step uses up some of what is left. */
  lemma StepUsesUp(s: State, t: State)
    requires Step(s, t) && InBounds(s) && InBounds(t)
    ensures Left(t) < Left(s)
  {
    var a :| Enabled(s, a) && t == Apply(s, a);
    ActionUsesUp(s, a);
  }

  lemma {:induction false} RunUsesUp(run: seq<State>, n: nat, i: nat)
    requires IsRun(run, n) && i < |run|
    ensures InBounds(run[i]) && i + Left(run[i]) <= Left(Start(n))
  {
    ReachableInBounds(run, n, i);
    if i > 0 {
      RunUsesUp(run, n, i - 1);
      StepUsesUp(run[i - 1], run[i - 1 + 1]);
    }
  }

  lemma {:induction false} IdleWeight(workers: seq<Worker>)
    requires forall x <- workers :: x.Idle?
    ensures TotalWeight(workers) == |workers|
  {
    if workers != [] {
      IdleWeight(workers[..|workers| - 1]);
    }
  }

  /** Every run is finite, whatever the schedule: it takes at most 9 steps for each id and 6 more. */
  lemma RunsAreFinite(run: seq<State>, n: nat)
    requires IsRun(run, n)
    ensures |run| <= 9 * n + 7
  {
    RunUsesUp(run, n, |run| - 1);
    IdleWeight(Start(n).workers);
  }

  // ---------------------------------------------------------------- the outcome

  /** The number of results for an id. */
  function CountOf(results: seq<Result>, j: Job): nat {
    if results == [] then 0
    else CountOf(results[..|results| - 1], j) + if results[|results| - 1].job == j then 1 else 0
  }

  lemma {:induction false} CountNone(results: seq<Result>, j: Job)
    requires forall k | 0 <= k < |results| :: results[k].job != j
    ensures CountOf(results, j) == 0
  {
    if results != [] {
      CountNone(results[..|results| - 1], j);
    }
  }

  lemma {:induction false} CountOne(results: seq<Result>, k: nat)
    requires k < |results|
    requires forall i | 0 <= i < |results| :: results[i].job == results[k].job ==> i == k
    ensures CountOf(results, results[k].job) == 1
  {
    if k == |results| - 1 {
      CountNone(results[..k], results[k].job);
    } else {
      CountOne(results[..|results| - 1], k);
    }
  }

  /** When the consumer returned, every dispatched id is in a result. */
  lemma AllReported(s: State, j: Job)
    requires Inv(s) && s.consumer.done && j < |s.places|
    ensures s.places[j].In? && s.places[j].k < |s.results| && s.results[s.places[j].k].job == j
  {
    forall w: nat | w < |s.workers| ensures s.workers[w].Exited? {
      assert WorkerInv(s, w);
    }
    assert PlaceInv(s, j);
  }

  /** At any time an id was fetched at most once and reported at most once; after the pool is
      done exactly the dispatched ids were reported. */
  lemma {:induction false} OneResultPerId(s: State, j: Job)
    requires Inv(s)
    ensures s.fetches[j] <= 1 && CountOf(s.results, j) <= 1
    ensures s.consumer.done ==> CountOf(s.results, j) == if j < |s.places| then 1 else 0
  {
    if s.consumer.done && j < |s.places| {
      AllReported(s, j);
    }
    assert j < |s.places| ==> PlaceInv(s, j);
    forall i | 0 <= i < |s.results| && s.results[i].job == j ensures j < |s.places| && s.places[j] == In(i) {
      assert ResultInv(s, i);
    }
    if j < |s.places| && s.places[j].In? {
      CountOne(s.results, s.places[j].k);
    } else {
      CountNone(s.results, j);
    }
  }

  /** Result k failed, and none before it did. */
  predicate FirstFailure(results: seq<Result>, k: nat) {
    k < |results| && !results[k].ok && forall j | 0 <= j < k :: results[j].ok
  }

  /** What the consumer knows after c results; the error it returns is that of the first failed one. */
  lemma {:induction false} ConsumerKnows(results: seq<Result>, c: nat)
    requires c <= |results|
    ensures var r := Received(results, c);
            && (forall j :: j in r.output <==> exists k | 0 <= k < c :: results[k] == Result(j, true))
            && |r.output| + r.failed == c
            && (r.firstError.Some? <==> r.failed > 0)
            && (r.failed > 0 <==> exists k | 0 <= k < c :: !results[k].ok)
            && (forall k: nat | k < c && FirstFailure(results, k) :: r.firstError == Some(results[k].job))
  {
    if c > 0 {
      ConsumerKnows(results, c - 1);
    }
  }

  /** runAdvisoryRefresh marks the snapshot partial. */
  predicate Partial(s: State) {
    s.consumer.failed > 0
  }

  /** A fatal error shows in some result. */
  lemma FatalIsReported(s: State)
    requires Inv(s) && s.consumer.done && s.fatal
    ensures exists k | 0 <= k < |s.results| :: !s.results[k].ok
  {
    AllReported(s, s.culprit);
    assert !s.results[s.places[s.culprit].k].ok;
  }

  /** A snapshot that is not partial holds the advisory of every id, each fetched once; and it is
      partial exactly if fetchAdvisories returns an error. */
  lemma NotPartialMeansComplete(s: State)
    requires Inv(s) && s.consumer.done
    ensures Partial(s) <==> s.consumer.firstError.Some?
    ensures |s.consumer.output| + s.consumer.failed == |s.results| <= s.n
    ensures !Partial(s) ==> |s.places| == s.n && forall j: nat | j < s.n :: j in s.consumer.output && s.fetches[j] == 1
  {
    ConsumerKnows(s.results, s.received);
    if !Partial(s) {
      if s.fatal {
        FatalIsReported(s);
        assert false;
      }
      forall j: nat | j < s.n ensures j in s.consumer.output && s.fetches[j] == 1 {
        AllReported(s, j);
        assert ResultInv(s, s.places[j].k);
        assert s.results[s.places[j].k] == Result(j, true);
      }
    }
  }

  /** The same for every run from the start, however it was scheduled. */
  lemma PoolIsSound(run: seq<State>, n: nat)
    requires IsRun(run, n)
    ensures var s := run[|run| - 1];
            && (s.consumer.done || exists a :: Enabled(s, a) && !a.Cancel?)
            && (forall j: Job :: s.fetches[j] <= 1 && CountOf(s.results, j) <= 1)
            && (s.consumer.done && !Partial(s) ==> forall j: nat | j < n :: j in s.consumer.output)
  {
    var s := run[|run| - 1];
    RunKeeps(run, n, |run| - 1);
    if !s.consumer.done {
      var a := SomebodyMoves(s);
    } else {
      NotPartialMeansComplete(s);
    }
    forall j: Job ensures s.fetches[j] <= 1 && CountOf(s.results, j) <= 1 {
      OneResultPerId(s, j);
    }
  }
}
