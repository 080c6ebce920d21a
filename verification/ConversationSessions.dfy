/** What becomes of sessions: whatever an operation took over to close does get closed, and every session ever started
    is accounted for. */
module ConversationSessions {

  import opened Conversation
  import opened ConversationInvariant
  import opened ConversationFlags
  import opened ConversationOrphans
  import opened ConversationSafety
  import opened ConversationWindow

  // ---------------------------------------------------------------- who still has to close a session

  /** A Send started the object and has not published it. */
  predicate IsStart(op: Op, o: Object) {
    op.Send? && (op.at.Created? || op.at.Generated?) && op.o == o
  }

  /** The operation has taken over the current session of the object: a Send that started it, a turn that dropped its
      conversation, a deletion that saw it idle, or a reaper sweep with the object in its batch. */
  predicate Owes(op: Op, o: Object) {
    IsStart(op, o) || IsDrop(op, o) || Doomed(op, o)
  }

  /** The operation has taken over the session that it replaced. */
  predicate OwesStale(op: Op, o: Object, x: Session) {
    op.Send? && op.at.Replaced? && op.o == o && op.x == x
  }

  // ---------------------------------------------------------------- one step

  /** The step of an operation that owes the close of a session closes it, leaves the debt, or publishes the object. */
  predicate Pays(s: State, s': State, t: OpId, o: Object)
    requires o in s.session && t in s.ops
  {
    && t in s'.ops
    && (|| (Owes(s'.ops[t], o) && (IsStart(s'.ops[t], o) <==> IsStart(s.ops[t], o)))
        || s.session[o] in s'.closed
        || (IsStart(s.ops[t], o) && o in s'.h.published))
  }

  lemma AcquirePays(s: State, s': State, t: OpId, o: Object)
    requires t in s.ops && s.ops[t].Send? && AcquireStep(s, s', t, s.ops[t]) && o in s.session && Owes(s.ops[t], o)
    ensures Pays(s, s', t, o)
  {
  }

  lemma TurnPays(s: State, s': State, t: OpId, o: Object)
    requires t in s.ops && s.ops[t].Send? && TurnStep(s, s', t, s.ops[t]) && o in s.session && Owes(s.ops[t], o)
    ensures Pays(s, s', t, o)
  {
  }

  lemma DeletePays(s: State, s': State, t: OpId, o: Object)
    requires t in s.ops && s.ops[t].Delete? && DeleteStep(s, s', t, s.ops[t]) && o in s.session && Owes(s.ops[t], o)
    ensures Pays(s, s', t, o)
  {
  }

  lemma ReapPays(s: State, s': State, t: OpId, o: Object)
    requires t in s.ops && s.ops[t].Reap? && ReapStep(s, s', t, s.ops[t]) && o in s.session && Owes(s.ops[t], o)
    ensures Pays(s, s', t, o)
  {
    var op := s.ops[t];
    if op.phase.Scanning? && s' != At(SetLock(s, None, None), t, op.(phase := Sweeping)) {
      var id :| id in s.conversations && s' == At(SetLock(s, Some(t), Some(s.conversations[id])), t,
                                                  op.(phase := Checked, id := id, o := s.conversations[id]));
    } else if op.phase.Sweeping? && s' != At(s, t, Finished) {
      var b :| b in s.session && s' == At(Close(s, s.session[b]), t, op.(batch := op.batch - {b}));
    }
  }

  lemma OwnStepPays(s: State, s': State, t: OpId, o: Object)
    requires StepOf(s, s', t) && o in s.session && Owes(s.ops[t], o)
    ensures Pays(s, s', t, o)
  {
    hide AcquireStep, FlagStep, TurnStep, DeleteStep, ReapStep, Pays;
    if s.ops[t].Delete? {
      DeletePays(s, s', t, o);
    } else if s.ops[t].Reap? {
      ReapPays(s, s', t, o);
    } else if AcquireStep(s, s', t, s.ops[t]) {
      AcquirePays(s, s', t, o);
    } else if TurnStep(s, s', t, s.ops[t]) {
      TurnPays(s, s', t, o);
    } else {
      FlagOwesNothing(s, s', t, o);
    }
  }

  lemma FlagOwesNothing(s: State, s': State, t: OpId, o: Object)
    requires t in s.ops && s.ops[t].Send? && FlagStep(s, s', t, s.ops[t])
    ensures !Owes(s.ops[t], o)
  {
  }

  /** The other operations do not move. */
  lemma OthersWait(s: State, s': State, t: OpId, u: OpId)
    requires StepOf(s, s', t) && u in s.ops && u != t
    ensures u in s'.ops && s'.ops[u] == s.ops[u]
  {
    hide AcquireStep, FlagStep, TurnStep, DeleteStep, ReapStep;
    if s.ops[t].Delete? {
      DeleteMoves(s, s', t);
    } else if s.ops[t].Reap? {
      ReapMoves(s, s', t);
    } else if AcquireStep(s, s', t, s.ops[t]) {
      AcquireMoves(s, s', t);
    } else if FlagStep(s, s', t, s.ops[t]) {
      FlagMoves(s, s', t);
    } else {
      TurnMoves(s, s', t);
    }
  }

  /** The session of an object that somebody took over is not replaced: no turn runs on the object. */
  lemma OwedIsNotReplaced(s: State, s': State, t: OpId, u: OpId, o: Object)
    requires Inv(s) && StepOf(s, s', t) && u in s.ops && o in s.session && Owes(s.ops[u], o)
    ensures o in s'.session && s'.session[o] == s.session[o]
  {
    assert OpInv(s, t, s.ops[t]) && OpInv(s, u, s.ops[u]) && DomainInv(s);
    hide StepOf, Inv;
    StepStartsOne(s, s', t);
  }

  lemma DebtStays(s: State, s': State, t: OpId, u: OpId, o: Object)
    requires Inv(s) && StepOf(s, s', t) && u in s.ops && o in s.session && Owes(s.ops[u], o)
    ensures o in s'.session && s'.session[o] == s.session[o] && Pays(s, s', u, o)
  {
    OwedIsNotReplaced(s, s', t, u, o);
    if u == t {
      OwnStepPays(s, s', t, o);
    } else {
      OthersWait(s, s', t, u);
    }
  }

  lemma PublishedStays(s: State, s': State, t: OpId, o: Object)
    requires Inv(s) && StepOf(s, s', t) && o in s.h.published
    ensures o in s'.h.published
  {
    hide StepOf, Inv;
    StepKeeps(s, s', t);
  }

  // ---------------------------------------------------------------- debts over runs

  /** The debt of the operation stands, or the session is closed, or the object that it started was published. */
  predicate Settles(s: State, t: OpId, o: Object, x: Session, start: bool) {
    || (t in s.ops && Owes(s.ops[t], o) && o in s.session && s.session[o] == x && (start <==> IsStart(s.ops[t], o)))
    || x in s.closed
    || (start && o in s.h.published)
  }

  lemma StepSettles(s: State, s': State, t: OpId, u: OpId, o: Object, x: Session, start: bool)
    requires Inv(s) && StepOf(s, s', t) && Settles(s, u, o, x, start)
    ensures Settles(s', u, o, x, start)
  {
    if x in s.closed {
      ClosedStays(s, s', t);
    } else if start && o in s.h.published {
      PublishedStays(s, s', t, o);
    } else {
      hide StepOf, Inv, Owes;
      DebtStays(s, s', t, u, o);
    }
  }

  lemma {:induction false} SettlesForever(run: seq<State>, i: nat, j: nat, t: OpId, o: Object, x: Session, start: bool)
    requires Run(run) && i <= j < |run| && Settles(run[i], t, o, x, start)
    ensures Settles(run[j], t, o, x, start)
    decreases j
  {
    hide *;
    if i < j {
      SettlesForever(run, i, j - 1, t, o, x, start);
      var u := StepAfter(run, j - 1);
      StepSettles(run[j - 1], run[j], u, t, o, x, start);
    }
  }

  /** In every run an operation that took over the session of an object closes that very session before it lets go of
      it, unless it is a Send that published the object.  So once a deletion that saw a conversation idle, a reaper
      sweep, a dropping turn or an abandoned start has gone on, the sessions it took are closed. */
  lemma OwedIsClosed(run: seq<State>, i: nat, j: nat, t: OpId, o: Object)
    requires Run(run) && i <= j < |run| && t in run[i].ops && Owes(run[i].ops[t], o) && o in run[i].session
    requires t in run[j].ops ==> !Owes(run[j].ops[t], o)
    ensures run[i].session[o] in run[j].closed || (IsStart(run[i].ops[t], o) && o in run[j].h.published)
  {
    SettlesForever(run, i, j, t, o, run[i].session[o], IsStart(run[i].ops[t], o));
  }

  /** The same for the session that a turn replaced. */
  predicate StaleSettles(s: State, t: OpId, o: Object, x: Session) {
    x in s.closed || (t in s.ops && OwesStale(s.ops[t], o, x))
  }

  lemma StaleStepSettles(s: State, s': State, t: OpId, u: OpId, o: Object, x: Session)
    requires StepOf(s, s', t) && StaleSettles(s, u, o, x)
    ensures StaleSettles(s', u, o, x)
  {
    if x in s.closed {
      ClosedStays(s, s', t);
    } else if u != t {
      OthersWait(s, s', t, u);
    }
  }

  lemma {:induction false} StaleSettlesForever(run: seq<State>, i: nat, j: nat, t: OpId, o: Object, x: Session)
    requires Run(run) && i <= j < |run| && StaleSettles(run[i], t, o, x)
    ensures StaleSettles(run[j], t, o, x)
    decreases j
  {
    hide *;
    if i < j {
      StaleSettlesForever(run, i, j - 1, t, o, x);
      var u := StepAfter(run, j - 1);
      StaleStepSettles(run[j - 1], run[j], u, t, o, x);
    }
  }

  lemma StaleIsClosed(run: seq<State>, i: nat, j: nat, t: OpId, o: Object, x: Session)
    requires Run(run) && i <= j < |run| && t in run[i].ops && OwesStale(run[i].ops[t], o, x)
    requires t in run[j].ops ==> !OwesStale(run[j].ops[t], o, x)
    ensures x in run[j].closed
  {
    StaleSettlesForever(run, i, j, t, o, x);
  }

  // ---------------------------------------------------------------- every session

  /** Somebody still has to close the current session of the object. */
  ghost predicate IsOwed(s: State, o: Object) {
    exists t <- s.ops :: Owes(s.ops[t], o)
  }

  /** Somebody still has to close the session, which a turn on the object replaced. */
  ghost predicate IsOwedStale(s: State, o: Object, x: Session) {
    exists t <- s.ops :: OwesStale(s.ops[t], o, x)
  }

  /** A published object that is neither deleted nor reaped keeps its session; any other object's is closed or owed. */
  ghost predicate ObjectSettled(s: State, o: Object) {
    o in s.session ==> (o in s.h.published && o !in s.h.retired) || s.session[o] in s.closed || IsOwed(s, o)
  }

  /** A session that its object has left behind is closed or owed. */
  ghost predicate SessionSettled(s: State, x: Session) {
    x in s.h.owner ==>
      && s.h.owner[x] in s.session
      && (s.session[s.h.owner[x]] == x || x in s.closed || IsOwedStale(s, s.h.owner[x], x))
  }

  lemma NewlyRetired(s: State, s': State, t: OpId, o: Object)
    requires Inv(s) && StepOf(s, s', t) && o in s'.h.retired && o !in s.h.retired
    ensures t in s'.ops && Doomed(s'.ops[t], o)
  {
    hide AcquireStep, FlagStep, TurnStep, DeleteStep, ReapStep, Inv;
    var op := s.ops[t];
    if op.Delete? {
      DeleteRetires(s, s', t, o);
    } else if op.Reap? {
      ReapRetires(s, s', t, o);
    } else {
      SendRetiresNone(s, s', t);
    }
  }

  lemma DeleteRetires(s: State, s': State, t: OpId, o: Object)
    requires t in s.ops && s.ops[t].Delete? && DeleteStep(s, s', t, s.ops[t]) && o in s'.h.retired && o !in s.h.retired
    ensures t in s'.ops && Doomed(s'.ops[t], o)
  {
  }

  lemma ScanRetiresNone(s: State, s': State, t: OpId)
    requires t in s.ops && s.ops[t].Reap? && ReapStep(s, s', t, s.ops[t]) && !s.ops[t].phase.Checked?
    ensures s'.h.retired == s.h.retired
  {
    var op := s.ops[t];
    if op.phase.Scanning? && s' != At(SetLock(s, None, None), t, op.(phase := Sweeping)) {
      var id :| id in s.conversations && s' == At(SetLock(s, Some(t), Some(s.conversations[id])), t,
                                                  op.(phase := Checked, id := id, o := s.conversations[id]));
    } else if op.phase.Sweeping? && s' != At(s, t, Finished) {
      var b :| b in s.session && s' == At(Close(s, s.session[b]), t, op.(batch := op.batch - {b}));
    }
  }

  lemma ReapRetires(s: State, s': State, t: OpId, o: Object)
    requires t in s.ops && s.ops[t].Reap? && ReapStep(s, s', t, s.ops[t]) && o in s'.h.retired && o !in s.h.retired
    ensures t in s'.ops && Doomed(s'.ops[t], o)
  {
    if !s.ops[t].phase.Checked? {
      ScanRetiresNone(s, s', t);
    }
  }

  lemma AcquireRetiresNone(s: State, s': State, t: OpId)
    requires t in s.ops && s.ops[t].Send? && AcquireStep(s, s', t, s.ops[t])
    ensures s'.h.retired == s.h.retired
  {
  }

  lemma TurnRetiresNone(s: State, s': State, t: OpId)
    requires t in s.ops && s.ops[t].Send? && TurnStep(s, s', t, s.ops[t])
    ensures s'.h.retired == s.h.retired
  {
  }

  lemma SendRetiresNone(s: State, s': State, t: OpId)
    requires t in s.ops && s.ops[t].Send?
    requires AcquireStep(s, s', t, s.ops[t]) || FlagStep(s, s', t, s.ops[t]) || TurnStep(s, s', t, s.ops[t])
    ensures s'.h.retired == s.h.retired
  {
    hide AcquireStep, TurnStep;
    if AcquireStep(s, s', t, s.ops[t]) {
      AcquireRetiresNone(s, s', t);
    } else if TurnStep(s, s', t, s.ops[t]) {
      TurnRetiresNone(s, s', t);
    }
  }

  lemma CreatorOwes(s: State, s': State, t: OpId, o: Object)
    requires DomainInv(s) && t in s.ops && s.ops[t].Send? && AcquireStep(s, s', t, s.ops[t])
    requires (s.ops[t].at.Lookup? || s.ops[t].at.Generate?) && o !in s.session && o in s'.session
    ensures t in s'.ops && IsStart(s'.ops[t], o)
  {
    var op := s.ops[t];
    var at := if op.at.Lookup? then Created else Generated;
    var new' :| new' !in s.identity && s' == At(StartObject(s, t, op.id, new'), t, op.(at := at, o := new'));
  }

  lemma NewIsOwed(s: State, s': State, t: OpId, o: Object)
    requires Inv(s) && StepOf(s, s', t) && o !in s.session && o in s'.session
    ensures t in s'.ops && IsStart(s'.ops[t], o)
  {
    assert DomainInv(s) && OpInv(s, t, s.ops[t]);
    hide AcquireStep, FlagStep, TurnStep, DeleteStep, ReapStep, Inv;
    var op := s.ops[t];
    if op.Delete? {
      DeleteStartsNone(s, s', t, op);
    } else if op.Reap? {
      ReapStartsNone(s, s', t, op);
    } else if FlagStep(s, s', t, op) {
      FlagStartsNone(s, s', t, op);
    } else if AcquireStep(s, s', t, op) {
      if op.at.Lookup? || op.at.Generate? {
        CreatorOwes(s, s', t, o);
      } else {
        PublishStartsNone(s, s', t, op);
      }
    } else {
      TurnCreatesNone(s, s', t);
    }
  }

  lemma RetiredIsNotReplaced(s: State, s': State, t: OpId, o: Object)
    requires Inv(s) && StepOf(s, s', t) && o in s.session && !(o in s.h.published && o !in s.h.retired)
    ensures o in s'.session && s'.session[o] == s.session[o]
  {
    assert OpInv(s, t, s.ops[t]) && DomainInv(s);
    hide StepOf, Inv;
    StepStartsOne(s, s', t);
  }

  lemma StepSettlesObject(s: State, s': State, t: OpId, o: Object)
    requires Inv(s) && StepOf(s, s', t) && ObjectSettled(s, o)
    ensures ObjectSettled(s', o)
  {
    if o in s'.session && !(o in s'.h.published && o !in s'.h.retired) {
      if o !in s.session {
        NewIsOwed(s, s', t, o);
        assert Owes(s'.ops[t], o);
      } else if o in s'.h.retired && o !in s.h.retired {
        NewlyRetired(s, s', t, o);
        assert Owes(s'.ops[t], o);
      } else {
        OldStaysSettled(s, s', t, o);
      }
    }
  }

  lemma OldStaysSettled(s: State, s': State, t: OpId, o: Object)
    requires Inv(s) && StepOf(s, s', t) && ObjectSettled(s, o) && o in s.session
    requires !(o in s'.h.published && o !in s'.h.retired) && !(o in s'.h.retired && o !in s.h.retired)
    ensures o in s'.session && (s'.session[o] in s'.closed || IsOwed(s', o))
  {
    hide StepOf, Owes;
    if o in s.h.published {
      PublishedStays(s, s', t, o);
    }
    RetiredIsNotReplaced(s, s', t, o);
    ClosedStays(s, s', t);
    if s.session[o] !in s.closed {
      var u :| u in s.ops && Owes(s.ops[u], o);
      assert OpInv(s, u, s.ops[u]);
      hide Inv;
      StartIsUnpublished(s, u, o);
      DebtStays(s, s', t, u, o);
    }
  }

  lemma StartIsUnpublished(s: State, u: OpId, o: Object)
    requires u in s.ops && OpInv(s, u, s.ops[u])
    ensures IsStart(s.ops[u], o) ==> o !in s.h.published && o !in s.h.retired
  {
  }

  lemma TurnReplaces(s: State, s': State, t: OpId)
    requires t in s.ops && s.ops[t].Send? && s.ops[t].at.Running? && TurnStep(s, s', t, s.ops[t])
    requires Starts(s, s', s.ops[t].o) && OpInv(s, t, s.ops[t])
    ensures t in s'.ops && OwesStale(s'.ops[t], s.ops[t].o, s.ops[t].x)
  {
    assert s'.started != s.started;
  }

  /** What a step does to the session that an object had: it stays, or the running turn on the object takes it over. */
  lemma SessionStaysOrIsStale(s: State, s': State, t: OpId, o: Object)
    requires Inv(s) && StepOf(s, s', t) && o in s.session
    ensures o in s'.session && (s'.session[o] == s.session[o] || IsOwedStale(s', o, s.session[o]))
  {
    assert OpInv(s, t, s.ops[t]) && DomainInv(s);
    hide AcquireStep, FlagStep, DeleteStep, ReapStep, Inv, OpInv;
    StepStartsOne(s, s', t);
    if s'.session[o] != s.session[o] {
      RunningTurnSteps(s, s', t);
      TurnReplaces(s, s', t);
      assert OwesStale(s'.ops[t], o, s.ops[t].x);
      RunningHasSession(s, t);
    }
  }

  lemma RunningHasSession(s: State, t: OpId)
    requires t in s.ops && s.ops[t].Send? && s.ops[t].at.Running? && OpInv(s, t, s.ops[t])
    ensures s.ops[t].o in s.session && s.session[s.ops[t].o] == s.ops[t].x
  {
  }

  lemma RunningTurnSteps(s: State, s': State, t: OpId)
    requires StepOf(s, s', t) && s.ops[t].Send? && s.ops[t].at.Running?
    ensures TurnStep(s, s', t, s.ops[t])
  {
  }

  lemma StaleStaysSettled(s: State, s': State, t: OpId, o: Object, x: Session)
    requires StepOf(s, s', t) && (x in s.closed || IsOwedStale(s, o, x))
    ensures x in s'.closed || IsOwedStale(s', o, x)
  {
    hide StepOf;
    if x in s.closed {
      ClosedStays(s, s', t);
    } else {
      var u :| u in s.ops && OwesStale(s.ops[u], o, x);
      StaleStepSettles(s, s', t, u, o, x);
    }
  }

  lemma NewSessionIsCurrent(s: State, s': State, t: OpId, x: Session)
    requires StepOf(s, s', t) && x in s'.h.owner && x !in s.h.owner
    ensures s'.h.owner[x] in s'.session && s'.session[s'.h.owner[x]] == x
  {
    hide StepOf;
    StepStartsOne(s, s', t);
  }

  lemma StepSettlesSession(s: State, s': State, t: OpId, x: Session)
    requires Inv(s) && StepOf(s, s', t) && SessionSettled(s, x)
    ensures SessionSettled(s', x)
  {
    hide StepOf;
    if x in s'.h.owner {
      if x !in s.h.owner {
        NewSessionIsCurrent(s, s', t, x);
      } else {
        var o := s.h.owner[x];
        assert DomainInv(s);
        hide Inv, IsOwedStale;
        OwnerStays(s, s', t, x);
        SessionStaysOrIsStale(s, s', t, o);
        if s.session[o] != x {
          StaleStaysSettled(s, s', t, o, x);
        }
      }
    }
  }

  /** Every session that was started has an owner. */
  ghost predicate AllOwned(s: State) {
    forall x: Session :: x < s.started ==> x in s.h.owner
  }

  lemma StepKeepsOwned(s: State, s': State, t: OpId)
    requires StepOf(s, s', t) && AllOwned(s)
    ensures AllOwned(s')
  {
    hide StepOf;
    StepStartsOne(s, s', t);
  }

  lemma NothingToSettle(run: seq<State>)
    requires Run(run)
    ensures AllOwned(run[0])
    ensures forall o :: ObjectSettled(run[0], o)
    ensures forall x :: SessionSettled(run[0], x)
  {
    assert run[0].session == map[] && run[0].h.owner == map[] && run[0].started == 0;
  }

  lemma {:induction false} SettledInRun(run: seq<State>, i: nat)
    requires Run(run) && i < |run|
    ensures AllOwned(run[i])
    ensures forall o :: ObjectSettled(run[i], o)
    ensures forall x :: SessionSettled(run[i], x)
  {
    hide *;
    if i == 0 {
      NothingToSettle(run);
    } else {
      SettledInRun(run, i - 1);
      var t := StepAfter(run, i - 1);
      StepKeepsOwned(run[i - 1], run[i], t);
      forall o ensures ObjectSettled(run[i], o) {
        StepSettlesObject(run[i - 1], run[i], t, o);
      }
      forall x ensures SessionSettled(run[i], x) {
        StepSettlesSession(run[i - 1], run[i], t, x);
      }
    }
  }

  /** A deletion holds the object and has not decided yet, or is about to put it back. */
  predicate Undecided(op: Op, o: Object) {
    op.Delete? && (op.point.Taken? || op.point.Restoring?) && op.o == o
  }

  /** The object is alive: it is in the map, or with a deletion that may put it back. */
  ghost predicate IsAlive(s: State, o: Object) {
    (exists id :: IsMapped(s, id, o)) || exists t <- s.ops :: Undecided(s.ops[t], o)
  }

  /** In every run every session ever started is closed, or somebody has yet to close it, or it is the current session
      of an object that is alive -- or of an orphan.  Orphans are the only leak. */
  lemma EverySessionIsAccountedFor(run: seq<State>, i: nat, x: Session)
    requires Run(run) && i < |run| && x < run[i].started
    ensures x in run[i].h.owner
    ensures var s, o := run[i], run[i].h.owner[x];
            || x in s.closed
            || IsOwedStale(s, o, x)
            || (o in s.session && s.session[o] == x && (IsOwed(s, o) || IsAlive(s, o) || Orphan(s, o)))
  {
    var s := run[i];
    SettledInRun(run, i);
    var o := s.h.owner[x];
    assert SessionSettled(s, x) && ObjectSettled(s, o);
    if o in s.session && o in s.h.published && o !in s.h.retired && !Orphan(s, o) {
      OrphanIffOutOfReach(run, i, o);
      RunKeeps(run, i);
      if forall id :: !IsMapped(s, id, o) {
        var t :| t in s.ops && Holds(s.ops[t], o);
        HolderIsUndecided(s, t, o);
      }
    }
  }

  lemma HolderIsUndecided(s: State, t: OpId, o: Object)
    requires Inv(s) && t in s.ops && Holds(s.ops[t], o) && o in s.h.published && o !in s.h.retired
    ensures Undecided(s.ops[t], o)
  {
    assert OpInv(s, t, s.ops[t]);
  }

  /** In particular the session of a deleted or reaped object is closed, or the deletion or the sweep has yet to close
      it; and that of an object whose start was given up is closed, or the Send has yet to. */
  lemma RetiredIsClosedOrOwed(run: seq<State>, i: nat, o: Object)
    requires Run(run) && i < |run| && o in run[i].session
    ensures o in run[i].h.retired ==>
              run[i].session[o] in run[i].closed || exists t <- run[i].ops :: Doomed(run[i].ops[t], o)
    ensures o !in run[i].h.published ==>
              run[i].session[o] in run[i].closed || exists t <- run[i].ops :: IsStart(run[i].ops[t], o)
  {
    SettledInRun(run, i);
    RunKeeps(run, i);
    assert ObjectSettled(run[i], o);
    forall t <- run[i].ops | Owes(run[i].ops[t], o)
      ensures o in run[i].h.retired ==> Doomed(run[i].ops[t], o)
      ensures o !in run[i].h.published ==> IsStart(run[i].ops[t], o)
    {
      DebtorOf(run[i], t, o);
    }
  }

  lemma DebtorOf(s: State, t: OpId, o: Object)
    requires Inv(s) && t in s.ops && Owes(s.ops[t], o)
    ensures o in s.h.retired ==> Doomed(s.ops[t], o)
    ensures o !in s.h.published ==> IsStart(s.ops[t], o)
  {
    assert OpInv(s, t, s.ops[t]);
  }
}
