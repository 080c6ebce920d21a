/** Fetching advisories: a dispatcher, at most four workers and a consumer talk over three
    channels, and the first fatal error, or the cancellation of the refresh, stops the dispatcher.

    The ids are distinct and stand in a slice; here they are the positions 0..n.  What a
    fetch returns, when the context is cancelled and which ready case a select takes are
    the choices of the actions below. */
module AdvisoryPool {

  datatype Option<+T> = None | Some(value: T)

  type Job = nat

  datatype Outcome = Fetched | Failed | Fatal

  /** One message on the results channel. */
  datatype Result = Result(job: Job, ok: bool)

  datatype Worker =
    | Idle                            // receiving from jobs
    | Pacing(job: Job)                // waiting for the ticker or the context
    | Fetching(job: Job)
    | Aborting(job: Job)              // about to close the fatal signal
    | Reporting(r: Result, last: bool) // about to send r, and to return if it is the last one
    | Exited

  datatype Dispatcher =
    | Offering(next: Job)             // in the select for ids[next]
    | Checking(next: Job)             // about to look at the fatal signal
    | ClosingJobs
    | Waiting                         // for the workers
    | Gone                            // closed the results channel

  /** The consumer's variables and whether it returned. */
  datatype Consumer = Consumer(output: seq<Job>, failed: nat, firstError: Option<Job>, done: bool)

  /** Where a dispatched id is; bookkeeping for the proofs. */
  datatype Place = With(w: nat) | In(k: nat)

  datatype State = State(
    n: nat,
    dispatcher: Dispatcher,
    jobsClosed: bool,
    fatal: bool,             // the fatal signal is closed
    cancelled: bool,         // the context is
    workers: seq<Worker>,
    results: seq<Result>,    // everything sent so far
    received: nat,           // how much of it the consumer has received
    consumer: Consumer,
    places: seq<Place>,      // of the ids dispatched so far
    fetches: multiset<Job>,  // the fetches so far
    outcomes: map<Job, Outcome>, // what the fetches that returned gave
    culprit: Job             // the id whose error closed the fatal signal
  )

  datatype Action =
    | Cancel
    | Handoff(w: nat)        // the dispatcher sends, worker w receives
    | SkipFatal              // the dispatcher takes the fatal case of its select
    | Check | CloseJobs | CloseResults
    | Tick(w: nat) | SeeCancelled(w: nat) | Return(w: nat, o: Outcome) | Abort(w: nat) | Report(w: nat) | Exit(w: nat)
    | Receive | Finish

  const MAX_WORKERS := 4

  /** The state right after the goroutines were started; without ids there is nothing to do. */
  function Start(n: nat): State {
    State(n, if n == 0 then Gone else Offering(0), n == 0, false, false,
          seq(if n < MAX_WORKERS then n else MAX_WORKERS, _ => Idle), [], 0,
          Consumer([], 0, None, n == 0), [], multiset{}, map[], 0)
  }

  predicate IsWorker(s: State, w: nat) {
    w < |s.workers|
  }

  predicate Enabled(s: State, a: Action) {
    match a
    case Cancel => !s.cancelled
    case Handoff(w) => IsWorker(s, w) && s.workers[w].Idle? && s.dispatcher.Offering?
    case SkipFatal => s.dispatcher.Offering? && s.fatal
    case Check => s.dispatcher.Checking?
    case CloseJobs => s.dispatcher.ClosingJobs?
    case CloseResults => s.dispatcher.Waiting? && forall w <- s.workers :: w.Exited?
    case Tick(w) => IsWorker(s, w) && s.workers[w].Pacing?
    case SeeCancelled(w) => IsWorker(s, w) && s.workers[w].Pacing? && s.cancelled
    case Return(w, o) => IsWorker(s, w) && s.workers[w].Fetching?
    case Abort(w) => IsWorker(s, w) && s.workers[w].Aborting?
    case Report(w) => IsWorker(s, w) && s.workers[w].Reporting? && HasRoom(s)
    case Exit(w) => IsWorker(s, w) && s.workers[w].Idle? && s.jobsClosed
    case Receive => s.received < |s.results| && !s.consumer.done
    case Finish => s.dispatcher.Gone? && s.received == |s.results| && !s.consumer.done
  }

  /** The results channel buffers n messages. */
  predicate HasRoom(s: State) {
    |s.results| - s.received < s.n
  }

  function Put(s: State, w: nat, x: Worker): State
    requires IsWorker(s, w)
  {
    s.(workers := s.workers[w := x])
  }

  function Consume(c: Consumer, r: Result): Consumer {
    if r.ok then c.(output := c.output + [r.job])
    else c.(failed := c.failed + 1, firstError := if c.firstError.None? then Some(r.job) else c.firstError)
  }

  function Apply(s: State, a: Action): State
    requires Enabled(s, a)
  {
    match a
    case Cancel => s.(cancelled := true)
    case Handoff(w) =>
      Put(s, w, Pacing(s.dispatcher.next)).(dispatcher := Checking(s.dispatcher.next), places := s.places + [With(w)])
    case SkipFatal => s.(dispatcher := Checking(s.dispatcher.next))
    case Check =>
      s.(dispatcher := if s.fatal || s.dispatcher.next + 1 == s.n then ClosingJobs else Offering(s.dispatcher.next + 1))
    case CloseJobs => s.(dispatcher := Waiting, jobsClosed := true)
    case CloseResults => s.(dispatcher := Gone)
    case Tick(w) => Put(s, w, Fetching(s.workers[w].job)).(fetches := s.fetches + multiset{s.workers[w].job})
    case SeeCancelled(w) => Put(s, w, Aborting(s.workers[w].job))
    case Return(w, o) =>
      Put(s, w, if o.Fatal? then Aborting(s.workers[w].job) else Reporting(Result(s.workers[w].job, o.Fetched?), false))
      .(outcomes := s.outcomes[s.workers[w].job := o])
    case Abort(w) =>
      Put(s, w, Reporting(Result(s.workers[w].job, false), true))
      .(fatal := true, culprit := if s.fatal then s.culprit else s.workers[w].job)
    case Report(w) =>
      var r := s.workers[w].r;
      Put(s, w, if s.workers[w].last then Exited else Idle).(results := s.results + [r],
        places := if r.job < |s.places| then s.places[r.job := In(|s.results|)] else s.places)
    case Exit(w) => Put(s, w, Exited)
    case Receive => s.(consumer := Consume(s.consumer, s.results[s.received]), received := s.received + 1)
    case Finish => s.(consumer := s.consumer.(done := true))
  }

  ghost predicate Step(s: State, t: State) {
    exists a :: Enabled(s, a) && t == Apply(s, a)
  }

  ghost predicate IsRun(run: seq<State>, n: nat) {
    && run != [] && run[0] == Start(n)
    && forall i | 0 <= i < |run| - 1 :: Step(run[i], run[i + 1])
  }

  // ---------------------------------------------------------------- the invariant

  predicate Busy(x: Worker) {
    !x.Idle? && !x.Exited?
  }

  function JobOf(x: Worker): Job
    requires Busy(x)
  {
    if x.Reporting? then x.r.job else x.job
  }

  function CountBusy(workers: seq<Worker>): nat {
    if workers == [] then 0
    else CountBusy(workers[..|workers| - 1]) + if Busy(workers[|workers| - 1]) then 1 else 0
  }

  ghost predicate DispatcherInv(s: State) {
    && |s.places| <= s.n
    && (s.jobsClosed <==> s.dispatcher.Waiting? || s.dispatcher.Gone?)
    && (match s.dispatcher
        case Offering(next) => next == |s.places| < s.n
        case Checking(next) => next < s.n && (|s.places| == next + 1 || (|s.places| == next && s.fatal))
        case _ => |s.places| == s.n || s.fatal)
  }

  /** Worker w and the place of its id agree. */
  predicate WorkerInv(s: State, w: nat)
    requires w < |s.workers|
  {
    var x := s.workers[w];
    && (x.Exited? ==> s.fatal || s.jobsClosed)
    && (s.dispatcher.Gone? ==> x.Exited?)
    && (Busy(x) ==> JobOf(x) < |s.places| && s.places[JobOf(x)] == With(w))
    && (x.Pacing? ==> s.fetches[x.job] == 0)
    && (x.Fetching? ==> s.fetches[x.job] == 1)
    && (x.Reporting? ==> (x.last ==> !x.r.ok && s.fatal) && (x.r.ok ==> s.fetches[x.r.job] == 1))
  }

  predicate ResultInv(s: State, k: nat)
    requires k < |s.results|
  {
    var r := s.results[k];
    && r.job < |s.places| && s.places[r.job] == In(k)
    && (r.ok ==> s.fetches[r.job] == 1)
  }

  /** A dispatched id is with a worker or in one result. */
  predicate PlaceInv(s: State, j: Job)
    requires j < |s.places|
  {
    && s.fetches[j] <= 1
    && match s.places[j]
       case With(w) => w < |s.workers| && Busy(s.workers[w]) && JobOf(s.workers[w]) == j
       case In(k) => k < |s.results| && s.results[k].job == j
  }

  /** The id that closed the fatal signal failed. */
  predicate CulpritInv(s: State) {
    s.fatal ==>
      && s.culprit < |s.places|
      && match s.places[s.culprit]
         case With(w) => w < |s.workers| && s.workers[w].Reporting? && !s.workers[w].r.ok
         case In(k) => k < |s.results| && !s.results[k].ok
  }

  /** The consumer's variables after it received the first c results. */
  function Received(results: seq<Result>, c: nat): Consumer
    requires c <= |results|
  {
    if c == 0 then Consumer([], 0, None, false) else Consume(Received(results, c - 1), results[c - 1])
  }

  predicate ConsumerInv(s: State) {
    && s.received <= |s.results|
    && s.consumer.(done := false) == Received(s.results, s.received)
    && (s.consumer.done ==> s.dispatcher.Gone? && s.received == |s.results|)
  }

  ghost predicate Inv(s: State) {
    && |s.workers| == (if s.n < MAX_WORKERS then s.n else MAX_WORKERS)
    && DispatcherInv(s)
    && (forall w: nat | w < |s.workers| :: WorkerInv(s, w))
    && (forall k: nat | k < |s.results| :: ResultInv(s, k))
    && (forall j: nat | j < |s.places| :: PlaceInv(s, j))
    && (forall j: nat | j >= |s.places| :: s.fetches[j] == 0)
    && |s.results| + CountBusy(s.workers) == |s.places|
    && CulpritInv(s)
    && ConsumerInv(s)
  }

  lemma {:induction false} CountAfterPut(workers: seq<Worker>, w: nat, x: Worker)
    requires w < |workers|
    ensures CountBusy(workers[w := x]) ==
            CountBusy(workers) - (if Busy(workers[w]) then 1 else 0) + if Busy(x) then 1 else 0
    ensures Busy(workers[w]) ==> CountBusy(workers) > 0
  {
    var front := workers[..|workers| - 1];
    if w < |workers| - 1 {
      CountAfterPut(front, w, x);
      assert workers[w := x][..|workers| - 1] == front[w := x];
    } else {
      assert workers[w := x][..|workers| - 1] == front;
    }
  }

  lemma {:induction false} NobodyBusy(workers: seq<Worker>)
    requires forall x <- workers :: !Busy(x)
    ensures CountBusy(workers) == 0
  {
    if workers != [] {
      NobodyBusy(workers[..|workers| - 1]);
    }
  }

  lemma {:induction false} ReceivedAgain(results: seq<Result>, more: seq<Result>, c: nat)
    requires c <= |results|
    ensures Received(results + more, c) == Received(results, c)
  {
    if c > 0 {
      ReceivedAgain(results, more, c - 1);
    }
  }

  lemma StartKeeps(n: nat)
    ensures Inv(Start(n))
  {
    NobodyBusy(Start(n).workers);
  }

  lemma DispatcherKeeps(s: State, a: Action)
    requires Inv(s) && Enabled(s, a)
    requires a.Cancel? || a.SkipFatal? || a.Check? || a.CloseJobs? || a.CloseResults?
    ensures Inv(Apply(s, a))
  {
    var t := Apply(s, a);
    forall w: nat | w < |t.workers| ensures WorkerInv(t, w) {
      assert WorkerInv(s, w);
    }
    forall k: nat | k < |t.results| ensures ResultInv(t, k) {
      assert ResultInv(s, k);
    }
    forall j: nat | j < |t.places| ensures PlaceInv(t, j) {
      assert PlaceInv(s, j);
    }
  }

  lemma ReceiveCounts(s: State, a: Action)
    requires Inv(s) && Enabled(s, a) && (a.Receive? || a.Finish?)
    ensures ConsumerInv(Apply(s, a))
  {
    assert s.consumer == s.consumer.(done := false);
    var t := Apply(s, a);
    assert a.Receive? ==>
             Received(t.results, t.received) == Consume(Received(s.results, s.received), s.results[s.received]);
  }

  lemma ConsumerKeeps(s: State, a: Action)
    requires Inv(s) && Enabled(s, a) && (a.Receive? || a.Finish?)
    ensures Inv(Apply(s, a))
  {
    var t := Apply(s, a);
    ReceiveCounts(s, a);
    forall w: nat | w < |t.workers| ensures WorkerInv(t, w) {
      assert WorkerInv(s, w);
    }
    forall k: nat | k < |t.results| ensures ResultInv(t, k) {
      assert ResultInv(s, k);
    }
    forall j: nat | j < |t.places| ensures PlaceInv(t, j) {
      assert PlaceInv(s, j);
    }
  }

  lemma HandoffKeeps(s: State, w: nat)
    requires Inv(s) && Enabled(s, Handoff(w))
    ensures Inv(Apply(s, Handoff(w)))
  {
    var t := Apply(s, Handoff(w));
    CountAfterPut(s.workers, w, t.workers[w]);
    forall v: nat | v < |t.workers| ensures WorkerInv(t, v) {
      assert WorkerInv(s, v);
    }
    forall k: nat | k < |t.results| ensures ResultInv(t, k) {
      assert ResultInv(s, k);
    }
    forall j: nat | j < |t.places| ensures PlaceInv(t, j) {
      assert j < |s.places| ==> PlaceInv(s, j);
    }
  }

  /** A worker that keeps its id moves on. */
  lemma MovesOn(s: State, t: State, w: nat, x: Worker)
    requires Inv(s) && w < |s.workers| && Busy(s.workers[w]) && Busy(x) && JobOf(x) == JobOf(s.workers[w])
    requires t == Put(s, w, x).(fetches := t.fetches, outcomes := t.outcomes, fatal := t.fatal, culprit := t.culprit)
    requires (s.fatal ==> t.fatal) && CulpritInv(t) && WorkerInv(t, w)
    requires t.fetches[JobOf(x)] <= 1 && forall j: Job | j != JobOf(x) :: t.fetches[j] == s.fetches[j]
    requires forall k: nat | k < |s.results| :: s.results[k].job != JobOf(x)
    ensures Inv(t)
  {
    CountAfterPut(s.workers, w, x);
    forall v: nat | v < |t.workers| ensures WorkerInv(t, v) {
      assert WorkerInv(s, v) && WorkerInv(s, w);
    }
    forall k: nat | k < |t.results| ensures ResultInv(t, k) {
      assert ResultInv(s, k);
    }
    forall j: nat | j < |t.places| ensures PlaceInv(t, j) {
      assert PlaceInv(s, j);
    }
  }

  lemma WorkerKeeps(s: State, a: Action, w: nat)
    requires Inv(s) && Enabled(s, a)
    requires a == Tick(w) || a == SeeCancelled(w) || (a.Return? && a.w == w) || a == Abort(w)
    ensures Inv(Apply(s, a))
  {
    var t := Apply(s, a);
    var mine := JobOf(s.workers[w]);
    assert WorkerInv(s, w) && PlaceInv(s, mine);
    assert s.fatal ==> PlaceInv(s, s.culprit);
    forall k: nat | k < |s.results| ensures s.results[k].job != mine {
      assert ResultInv(s, k);
    }
    MovesOn(s, t, w, t.workers[w]);
  }

  lemma ReportedLater(s: State, w: nat)
    requires Inv(s) && Enabled(s, Report(w))
    ensures ConsumerInv(Apply(s, Report(w)))
  {
    assert WorkerInv(s, w);
    ReceivedAgain(s.results, [s.workers[w].r], s.received);
  }

  lemma ReportMovesId(s: State, w: nat)
    requires Inv(s) && Enabled(s, Report(w))
    ensures var t := Apply(s, Report(w));
            && (forall v: nat | v < |t.workers| :: WorkerInv(t, v))
            && (forall k: nat | k < |t.results| :: ResultInv(t, k))
            && (forall j: nat | j < |t.places| :: PlaceInv(t, j))
  {
    var t := Apply(s, Report(w));
    assert WorkerInv(s, w);
    forall v: nat | v < |t.workers| ensures WorkerInv(t, v) {
      assert WorkerInv(s, v);
    }
    forall k: nat | k < |t.results| ensures ResultInv(t, k) {
      assert k < |s.results| ==> ResultInv(s, k);
    }
    forall j: nat | j < |t.places| ensures PlaceInv(t, j) {
      assert PlaceInv(s, j);
    }
  }

  lemma ReportKeeps(s: State, w: nat)
    requires Inv(s) && Enabled(s, Report(w))
    ensures Inv(Apply(s, Report(w)))
  {
    CountAfterPut(s.workers, w, Apply(s, Report(w)).workers[w]);
    assert WorkerInv(s, w) && PlaceInv(s, s.workers[w].r.job);
    assert s.fatal ==> PlaceInv(s, s.culprit);
    ReportMovesId(s, w);
    ReportedLater(s, w);
  }

  lemma ExitKeeps(s: State, w: nat)
    requires Inv(s) && Enabled(s, Exit(w))
    ensures Inv(Apply(s, Exit(w)))
  {
    var t := Apply(s, Exit(w));
    CountAfterPut(s.workers, w, t.workers[w]);
    forall v: nat | v < |t.workers| ensures WorkerInv(t, v) {
      assert WorkerInv(s, v);
    }
    forall k: nat | k < |t.results| ensures ResultInv(t, k) {
      assert ResultInv(s, k);
    }
    forall j: nat | j < |t.places| ensures PlaceInv(t, j) {
      assert PlaceInv(s, j);
    }
  }

  lemma StepKeeps(s: State, a: Action)
    requires Inv(s) && Enabled(s, a)
    ensures Inv(Apply(s, a))
  {
    match a
    case Handoff(w) => HandoffKeeps(s, w);
    case Tick(w) => WorkerKeeps(s, a, w);
    case SeeCancelled(w) => WorkerKeeps(s, a, w);
    case Return(w, o) => WorkerKeeps(s, a, w);
    case Abort(w) => WorkerKeeps(s, a, w);
    case Report(w) => ReportKeeps(s, w);
    case Exit(w) => ExitKeeps(s, w);
    case Receive => ConsumerKeeps(s, a);
    case Finish => ConsumerKeeps(s, a);
    case _ => DispatcherKeeps(s, a);
  }

  lemma SizeStays(s: State, a: Action)
    requires Enabled(s, a)
    ensures Apply(s, a).n == s.n
  {
  }

  lemma Advance(s: State, t: State)
    requires Inv(s) && Step(s, t)
    ensures Inv(t) && t.n == s.n
  {
    hide Inv, Enabled, Apply;
    var a :| Enabled(s, a) && t == Apply(s, a);
    SizeStays(s, a);
    StepKeeps(s, a);
  }

  /** Every reachable state satisfies the invariant. */
  lemma {:induction false} RunKeeps(run: seq<State>, n: nat, i: nat)
    requires IsRun(run, n) && i < |run|
    ensures Inv(run[i]) && run[i].n == n
  {
    if i == 0 {
      StartKeeps(n);
    } else {
      RunKeeps(run, n, i - 1);
      Advance(run[i - 1], run[i - 1 + 1]);
    }
  }
}
