/** Objects that nobody holds: when exactly an object loses its place in the map without a new holder, and that it
    never gets one back. */
module ConversationOrphans {

  import opened Conversation
  import opened ConversationFlags
  import opened ConversationInvariant
  import opened ConversationSafety
  import opened ConversationWindow

  /** Nobody holds the object: it left the map, and no operation took it over. */
  predicate Orphan(s: State, o: Object) {
    o in s.h.holder && s.h.holder[o] == Nobody
  }

  /** Operation t drops its conversation, which is mapped. */
  predicate DropsMapped(s: State, s': State, t: OpId, o: Object) {
    && t in s.ops && IsTurn(s.ops[t]) && s.ops[t].o == o && IsMapped(s, s.ops[t].id, o)
    && !IsDrop(s.ops[t], o) && t in s'.ops && IsDrop(s'.ops[t], o)
  }

  /** Operation t puts its own object in the place of the mapped one. */
  predicate Displaces(s: State, s': State, t: OpId, o: Object) {
    && t in s.ops && Publishes(s.ops[t]) && s.ops[t].o != o
    && IsMapped(s, s.ops[t].id, o) && IsMapped(s', s.ops[t].id, s.ops[t].o)
  }

  predicate Orphans(s: State, s': State, t: OpId, o: Object) {
    DropsMapped(s, s', t, o) || Displaces(s, s', t, o)
  }

  /** What a step makes of an object that exists. */
  predicate Fate(s: State, s': State, t: OpId, o: Object) {
    o in s'.h.holder && (Orphan(s', o) <==> Orphan(s, o) || Orphans(s, s', t, o))
  }

  // ---------------------------------------------------------------- the fate of an object in one step

  lemma LookupFate(s: State, s': State, t: OpId, o: Object)
    requires DomainInv(s) && t in s.ops && s.ops[t].Send? && AcquireStep(s, s', t, s.ops[t]) && o in s.h.holder
    requires s.ops[t].at.Lookup? || s.ops[t].at.Generate?
    ensures Fate(s, s', t, o)
  {
    var op := s.ops[t];
    if s' == At(s, t, Finished)
       || (op.at.Lookup? && op.id in s.conversations &&
           s' == At(s, t, op.(at := Holding, o := s.conversations[op.id]))) {
      assert s'.h == s.h;
    } else {
      var at := if op.at.Lookup? then Created else Generated;
      var new' :| new' !in s.identity && s' == At(StartObject(s, t, op.id, new'), t, op.(at := at, o := new'));
    }
  }

  /** Publishing an object moves its token to the map, and that of the object it displaces to nobody. */
  lemma MapToFate(s: State, s': State, t: OpId, o: Object)
    requires t in s.ops && Publishes(s.ops[t]) && o in s.h.holder && s.ops[t].o in s.h.holder
    requires s.h.holder[s.ops[t].o] == Held(t) && MappedInv(s, s.ops[t].id)
    requires s'.conversations == MapTo(s, s.ops[t].id, s.ops[t].o).conversations
    requires s'.h.holder == MapTo(s, s.ops[t].id, s.ops[t].o).h.holder
    ensures Fate(s, s', t, o)
  {
  }

  lemma PublishFate(s: State, s': State, t: OpId, o: Object)
    requires Inv(s) && t in s.ops && s.ops[t].Send? && AcquireStep(s, s', t, s.ops[t]) && o in s.h.holder
    requires s.ops[t].at.Created? || s.ops[t].at.Generated?
    ensures Fate(s, s', t, o)
  {
    var op := s.ops[t];
    assert OpInv(s, t, op) && MappedInv(s, op.id);
    hide Inv;
    if s' == At(MapTo(s, op.id, op.o), t, op.(at := Holding)) {
      MapToFate(s, s', t, o);
    } else {
      assert s'.h.holder == s.h.holder && s'.conversations == s.conversations;
      assert op.id in s.conversations ==> s.conversations[op.id] != op.o;
      hide AcquireStep, OpInv;
    }
  }

  lemma AcquireFate(s: State, s': State, t: OpId, o: Object)
    requires Inv(s) && t in s.ops && s.ops[t].Send? && AcquireStep(s, s', t, s.ops[t]) && o in s.h.holder
    ensures Fate(s, s', t, o)
  {
    if s.ops[t].at.Lookup? || s.ops[t].at.Generate? {
      LookupFate(s, s', t, o);
    } else {
      PublishFate(s, s', t, o);
    }
  }

  lemma FlagFate(s: State, s': State, t: OpId, o: Object)
    requires t in s.ops && s.ops[t].Send? && FlagStep(s, s', t, s.ops[t]) && o in s.h.holder
    ensures Fate(s, s', t, o)
  {
  }

  lemma DropFate(s: State, s': State, t: OpId, o: Object)
    requires Inv(s) && t in s.ops && IsTurn(s.ops[t]) && DropStep(s, s', t, s.ops[t]) && o in s.h.holder
    requires !IsDrop(s.ops[t], s.ops[t].o)
    ensures Fate(s, s', t, o)
  {
    var op := s.ops[t];
    assert OpInv(s, t, op) && MappedInv(s, op.id);
  }

  lemma TurnKeepsHolders(s: State, s': State, t: OpId)
    requires t in s.ops && s.ops[t].Send? && TurnStep(s, s', t, s.ops[t]) && !DropStep(s, s', t, s.ops[t])
    ensures s'.h.holder == s.h.holder
  {
    hide DropStep;
  }

  lemma TurnHoldsOn(s: State, s': State, t: OpId)
    requires t in s.ops && s.ops[t].Send? && TurnStep(s, s', t, s.ops[t]) && !DropStep(s, s', t, s.ops[t])
    ensures s'.h.holder == s.h.holder && t in s'.ops && !IsDrop(s'.ops[t], s.ops[t].o) && !Publishes(s.ops[t])
  {
    hide DropStep;
    TurnKeepsHolders(s, s', t);
  }

  /** A turn that replaced its session, or has dropped its conversation already, does not drop it now. */
  lemma DropsOnce(s: State, s': State, t: OpId)
    requires t in s.ops && s.ops[t].Send? && TurnStep(s, s', t, s.ops[t]) && DropStep(s, s', t, s.ops[t])
    ensures s.ops[t].at.Passed? || s.ops[t].at.Running? || s.ops[t].at.Retrying?
  {
    assert s'.ops[t].at.Dropping?;
  }

  lemma TurnFate(s: State, s': State, t: OpId, o: Object)
    requires Inv(s) && t in s.ops && s.ops[t].Send? && TurnStep(s, s', t, s.ops[t]) && o in s.h.holder
    ensures Fate(s, s', t, o)
  {
    var op := s.ops[t];
    if (op.at.Passed? || op.at.Running? || op.at.Retrying?) && DropStep(s, s', t, op) {
      DropFate(s, s', t, o);
    } else {
      if DropStep(s, s', t, op) {
        DropsOnce(s, s', t);
        assert false;
      }
      hide Inv;
      TurnHoldsOn(s, s', t);
      hide TurnStep;
    }
  }

  lemma RestoreFate(s: State, s': State, t: OpId, o: Object)
    requires Inv(s) && t in s.ops && s.ops[t].Delete? && s.ops[t].point.Restoring? && DeleteStep(s, s', t, s.ops[t])
    requires o in s.h.holder
    ensures Fate(s, s', t, o)
  {
    var op := s.ops[t];
    assert OpInv(s, t, op) && MappedInv(s, op.id);
  }

  lemma DeleteFate(s: State, s': State, t: OpId, o: Object)
    requires Inv(s) && t in s.ops && s.ops[t].Delete? && DeleteStep(s, s', t, s.ops[t]) && o in s.h.holder
    ensures Fate(s, s', t, o)
  {
    var op := s.ops[t];
    if op.point.Restoring? {
      RestoreFate(s, s', t, o);
    } else {
      assert MappedInv(s, op.id);
      hide Inv;
      assert !Orphans(s, s', t, o);
    }
  }

  lemma ReapFate(s: State, s': State, t: OpId, o: Object)
    requires Inv(s) && t in s.ops && s.ops[t].Reap? && ReapStep(s, s', t, s.ops[t]) && o in s.h.holder
    ensures Fate(s, s', t, o)
  {
    var op := s.ops[t];
    assert !Orphans(s, s', t, o);
    if op.phase.Checked? {
      assert OpInv(s, t, op) && MappedInv(s, op.id);
    } else {
      hide Inv;
      ReapHoldsOn(s, s', t, op);
    }
  }

  lemma ReapHoldsOn(s: State, s': State, t: OpId, op: Op)
    requires op.Reap? && ReapStep(s, s', t, op) && !op.phase.Checked?
    ensures s'.h.holder == s.h.holder
  {
    if op.phase.Scanning? && s' != At(SetLock(s, None, None), t, op.(phase := Sweeping)) {
      var id :| id in s.conversations && s' == At(SetLock(s, Some(t), Some(s.conversations[id])), t,
                                                  op.(phase := Checked, id := id, o := s.conversations[id]));
    } else if op.phase.Sweeping? && s' != At(s, t, Finished) {
      var b :| b in s.session && s' == At(Close(s, s.session[b]), t, op.(batch := op.batch - {b}));
    }
  }

  lemma StepFate(s: State, s': State, t: OpId, o: Object)
    requires Inv(s) && StepOf(s, s', t) && o in s.h.holder
    ensures Fate(s, s', t, o)
  {
    hide AcquireStep, FlagStep, TurnStep, DeleteStep, ReapStep, Inv, Fate;
    var op := s.ops[t];
    if op.Delete? {
      DeleteFate(s, s', t, o);
    } else if op.Reap? {
      ReapFate(s, s', t, o);
    } else if FlagStep(s, s', t, op) {
      FlagFate(s, s', t, o);
    } else if TurnStep(s, s', t, op) {
      TurnFate(s, s', t, o);
    } else {
      AcquireFate(s, s', t, o);
    }
  }

  lemma LookupCreates(s: State, s': State, t: OpId, o: Object)
    requires DomainInv(s) && t in s.ops && s.ops[t].Send? && AcquireStep(s, s', t, s.ops[t])
    requires (s.ops[t].at.Lookup? || s.ops[t].at.Generate?) && o !in s.session && o in s'.session
    ensures o in s'.h.holder && s'.h.holder[o] == Held(t)
  {
    var op := s.ops[t];
    var at := if op.at.Lookup? then Created else Generated;
    var new' :| new' !in s.identity && s' == At(StartObject(s, t, op.id, new'), t, op.(at := at, o := new'));
  }

  /** A new object is held by its creator. */
  lemma NewIsHeld(s: State, s': State, t: OpId, o: Object)
    requires Inv(s) && StepOf(s, s', t) && o !in s.session && o in s'.session
    ensures o in s'.h.holder && s'.h.holder[o] == Held(t)
  {
    assert DomainInv(s) && OpInv(s, t, s.ops[t]);
    hide AcquireStep, FlagStep, TurnStep, DeleteStep, ReapStep, Inv;
    var op := s.ops[t];
    if op.Delete? {
      DeleteStartsNone(s, s', t, op);
    } else if op.Reap? {
      ReapStartsNone(s, s', t, op);
    } else if FlagStep(s, s', t, op) {
      FlagStartsNone(s, s', t, op);
    } else if AcquireStep(s, s', t, op) {
      if op.at.Lookup? || op.at.Generate? {
        LookupCreates(s, s', t, o);
      } else {
        PublishStartsNone(s, s', t, op);
      }
    } else {
      TurnCreatesNone(s, s', t);
    }
  }

  lemma TurnCreatesNone(s: State, s': State, t: OpId)
    requires t in s.ops && s.ops[t].Send? && TurnStep(s, s', t, s.ops[t]) && OpInv(s, t, s.ops[t])
    ensures s'.session.Keys == s.session.Keys
  {
  }

  // ---------------------------------------------------------------- when an object is orphaned

  /** A step orphans the object. */
  ghost predicate OrphanedBy(s: State, s': State, o: Object) {
    exists t :: StepOf(s, s', t) && Orphans(s, s', t, o)
  }

  /** Step k does. */
  ghost predicate OrphanedIn(run: seq<State>, k: nat, o: Object) {
    k + 1 < |run| && OrphanedBy(run[k], run[k + 1], o)
  }

  lemma OrphanedExists(run: seq<State>, k: nat, o: Object)
    requires Run(run) && OrphanedIn(run, k, o)
    ensures o in run[k].session && o in run[k].h.holder && Orphan(run[k + 1], o)
  {
    var t :| StepOf(run[k], run[k + 1], t) && Orphans(run[k], run[k + 1], t, o);
    RunKeeps(run, k);
    assert MappedInv(run[k], run[k].ops[t].id);
    hide StepOf, Inv;
    StepFate(run[k], run[k + 1], t, o);
  }

  lemma SessionStays(s: State, s': State, t: OpId, o: Object)
    requires StepOf(s, s', t) && o in s.session
    ensures o in s'.session
  {
    hide StepOf;
    StepStartsOne(s, s', t);
  }

  lemma {:induction false} ObjectStays(run: seq<State>, i: nat, j: nat, o: Object)
    requires Run(run) && i <= j < |run| && o in run[i].session
    ensures o in run[j].session
    decreases j
  {
    hide StepOf, Inv;
    if i < j {
      ObjectStays(run, i, j - 1, o);
      var t := StepAfter(run, j - 1);
      SessionStays(run[j - 1], run[j], t, o);
    }
  }

  /** In every run nobody holds an object exactly if some step took it out of the map without a new holder: a turn on it
      dropped its conversation, or an operation put another object in its place, as a refused deletion does when a
      second object was published in the meantime. */
  lemma {:induction false} OrphanIffUnmapped(run: seq<State>, i: nat, o: Object)
    requires Run(run) && i < |run| && o in run[i].session
    ensures Orphan(run[i], o) <==> exists k: nat :: k < i && OrphanedIn(run, k, o)
  {
    if i > 0 {
      hide StepOf, Inv, OrphanedIn, Run, Orphan;
      if o in run[i - 1].session {
        OrphanIffUnmapped(run, i - 1, o);
        LastStepOrphans(run, i, o);
      } else {
        NewIsNoOrphan(run, i, o);
        NewWasNeverOrphaned(run, i, o);
      }
    }
  }

  lemma NewIsNoOrphan(run: seq<State>, i: nat, o: Object)
    requires Run(run) && 0 < i < |run| && o !in run[i - 1].session && o in run[i].session
    ensures !Orphan(run[i], o)
  {
    hide StepOf, Inv;
    var t := StepAfter(run, i - 1);
    NewIsHeld(run[i - 1], run[i], t, o);
  }

  lemma NewWasNeverOrphaned(run: seq<State>, i: nat, o: Object)
    requires Run(run) && 0 < i < |run| && o !in run[i - 1].session
    ensures forall k: nat | k < i :: !OrphanedIn(run, k, o)
  {
    forall k: nat | k < i ensures !OrphanedIn(run, k, o) {
      if OrphanedIn(run, k, o) {
        OrphanedExists(run, k, o);
        ObjectStays(run, k, i - 1, o);
      }
    }
  }

  lemma LastStepOrphans(run: seq<State>, i: nat, o: Object)
    requires Run(run) && 0 < i < |run| && o in run[i - 1].session
    ensures Orphan(run[i], o) <==> Orphan(run[i - 1], o) || OrphanedIn(run, i - 1, o)
  {
    hide StepOf, Inv, Orphans;
    var t := StepAfter(run, i - 1);
    StepFate(run[i - 1], run[i], t, o);
    if OrphanedIn(run, i - 1, o) {
      OrphanedExists(run, i - 1, o);
    }
  }

  // ---------------------------------------------------------------- what becomes of an orphan

  /** An orphan is not in the map, no operation holds it, and only a turn on it that dropped its conversation can
      still close its session. */
  ghost predicate Lost(s: State, o: Object) {
    && (forall id :: !IsMapped(s, id, o))
    && (forall t <- s.ops :: !Holds(s.ops[t], o))
    && (o in s.session ==> forall t <- s.ops | CallsClose(s, t, s.session[o]) :: IsDrop(s.ops[t], o))
  }

  lemma ClosesOwn(s: State, t: OpId, o: Object)
    requires Inv(s) && Orphan(s, o) && o in s.session && CallsClose(s, t, s.session[o])
    ensures IsDrop(s.ops[t], o)
  {
    assert OpInv(s, t, s.ops[t]);
    assert forall b <- s.session :: ObjectInv(s, b);
  }

  lemma OrphanIsLost(s: State, o: Object)
    requires Inv(s) && Orphan(s, o)
    ensures Lost(s, o)
  {
    forall id ensures !IsMapped(s, id, o) {
      assert MappedInv(s, id);
    }
    forall t <- s.ops ensures !Holds(s.ops[t], o) {
      assert OpInv(s, t, s.ops[t]);
    }
    forall t <- s.ops | o in s.session && CallsClose(s, t, s.session[o]) ensures IsDrop(s.ops[t], o) {
      ClosesOwn(s, t, o);
    }
  }

  // ---------------------------------------------------------------- orphans without the bookkeeping

  /** A published object that is neither deleted nor reaped has its token with the map, with an operation that really
      holds it, or with nobody. */
  predicate TokenIsReal(s: State, o: Object) {
    o in s.h.holder && s.h.holder[o].Held? && o in s.h.published && o !in s.h.retired ==>
      s.h.holder[o].t in s.ops && Holds(s.ops[s.h.holder[o].t], o)
  }

  lemma LookupKeepsToken(s: State, s': State, t: OpId, o: Object)
    requires DomainInv(s) && t in s.ops && s.ops[t].Send? && AcquireStep(s, s', t, s.ops[t]) && TokenIsReal(s, o)
    requires s.ops[t].at.Lookup? || s.ops[t].at.Generate?
    ensures TokenIsReal(s', o)
  {
    var op := s.ops[t];
    if s' != At(s, t, Finished)
       && !(op.at.Lookup? && op.id in s.conversations &&
            s' == At(s, t, op.(at := Holding, o := s.conversations[op.id]))) {
      var at := if op.at.Lookup? then Created else Generated;
      var new' :| new' !in s.identity && s' == At(StartObject(s, t, op.id, new'), t, op.(at := at, o := new'));
    }
  }

  lemma MapToKeepsToken(s: State, s': State, t: OpId, o: Object)
    requires t in s.ops && Publishes(s.ops[t]) && TokenIsReal(s, o) && s'.ops.Keys == s.ops.Keys
    requires o in s.h.published ==> o in s.h.holder
    requires forall u <- s.ops | u != t :: s'.ops[u] == s.ops[u]
    requires s'.h == MapTo(s, s.ops[t].id, s.ops[t].o).h
    ensures TokenIsReal(s', o)
  {
  }

  lemma PublishKeepsToken(s: State, s': State, t: OpId, o: Object)
    requires Inv(s) && t in s.ops && s.ops[t].Send? && AcquireStep(s, s', t, s.ops[t]) && TokenIsReal(s, o)
    requires s.ops[t].at.Created? || s.ops[t].at.Generated?
    ensures TokenIsReal(s', o)
  {
    var op := s.ops[t];
    assert OpInv(s, t, op) && DomainInv(s);
    hide Inv;
    if s' == At(MapTo(s, op.id, op.o), t, op.(at := Holding)) {
      MapToKeepsToken(s, s', t, o);
    } else {
      assert s'.h == s.h;
    }
  }

  lemma FlagKeepsToken(s: State, s': State, t: OpId, o: Object)
    requires t in s.ops && s.ops[t].Send? && FlagStep(s, s', t, s.ops[t]) && TokenIsReal(s, o)
    ensures TokenIsReal(s', o)
  {
  }

  /** The token of an object stays where it is, or goes to nobody. */
  predicate LetsGo(s: State, s': State, t: OpId) {
    && t in s'.ops && s'.ops == s.ops[t := s'.ops[t]] && s'.h.published == s.h.published && s'.h.retired == s.h.retired
    && forall o <- s'.h.holder | s'.h.holder[o].Held? :: o in s.h.holder && s.h.holder[o] == s'.h.holder[o]
  }

  lemma TurnLetsGo(s: State, s': State, t: OpId)
    requires t in s.ops && s.ops[t].Send? && TurnStep(s, s', t, s.ops[t])
    ensures LetsGo(s, s', t) && IsTurn(s.ops[t])
  {
    if (s.ops[t].at.Passed? || s.ops[t].at.Running? || s.ops[t].at.Retrying?) && DropStep(s, s', t, s.ops[t]) {
      DropLetsGo(s, s', t);
    }
  }

  lemma DropLetsGo(s: State, s': State, t: OpId)
    requires t in s.ops && s.ops[t].Send? && DropStep(s, s', t, s.ops[t])
    ensures LetsGo(s, s', t)
  {
  }

  lemma TurnKeepsToken(s: State, s': State, t: OpId, o: Object)
    requires t in s.ops && s.ops[t].Send? && TurnStep(s, s', t, s.ops[t]) && TokenIsReal(s, o)
    ensures TokenIsReal(s', o)
  {
    TurnLetsGo(s, s', t);
    hide TurnStep;
  }

  lemma FindKeepsToken(s: State, s': State, t: OpId, o: Object)
    requires Inv(s) && t in s.ops && s.ops[t].Delete? && s.ops[t].point.Find? && DeleteStep(s, s', t, s.ops[t])
    requires TokenIsReal(s, o)
    ensures TokenIsReal(s', o)
  {
    hide Inv;
  }

  lemma RestoreKeepsToken(s: State, s': State, t: OpId, o: Object)
    requires Inv(s) && t in s.ops && s.ops[t].Delete? && s.ops[t].point.Restoring? && DeleteStep(s, s', t, s.ops[t])
    requires TokenIsReal(s, o)
    ensures TokenIsReal(s', o)
  {
    assert OpInv(s, t, s.ops[t]);
    hide Inv;
  }

  lemma CloseKeepsToken(s: State, s': State, t: OpId, o: Object)
    requires Inv(s) && t in s.ops && s.ops[t].Delete? && DeleteStep(s, s', t, s.ops[t])
    requires (s.ops[t].point.Taken? || s.ops[t].point.Closing?) && TokenIsReal(s, o)
    ensures TokenIsReal(s', o)
  {
    assert OpInv(s, t, s.ops[t]);
    hide Inv;
  }

  lemma EvictKeepsToken(s: State, s': State, t: OpId, o: Object)
    requires Inv(s) && t in s.ops && s.ops[t].Reap? && s.ops[t].phase.Checked? && ReapStep(s, s', t, s.ops[t])
    requires TokenIsReal(s, o)
    ensures TokenIsReal(s', o)
  {
    assert OpInv(s, t, s.ops[t]);
    hide Inv;
  }

  lemma SweepKeepsToken(s: State, s': State, t: OpId, o: Object)
    requires Inv(s) && t in s.ops && s.ops[t].Reap? && !s.ops[t].phase.Checked? && ReapStep(s, s', t, s.ops[t])
    requires TokenIsReal(s, o)
    ensures TokenIsReal(s', o)
  {
    assert OpInv(s, t, s.ops[t]);
    hide Inv;
    ReapHoldsOn(s, s', t, s.ops[t]);
    ReapMoves(s, s', t);
    ReapPublishesNone(s, s', t, s.ops[t]);
    ReapGrows(s, s', t, s.ops[t]);
    hide ReapStep;
  }

  lemma StepKeepsToken(s: State, s': State, t: OpId, o: Object)
    requires Inv(s) && StepOf(s, s', t) && TokenIsReal(s, o)
    ensures TokenIsReal(s', o)
  {
    assert DomainInv(s);
    hide AcquireStep, FlagStep, TurnStep, DeleteStep, ReapStep, Inv, TokenIsReal;
    var op := s.ops[t];
    if op.Delete? {
      if op.point.Find? {
        FindKeepsToken(s, s', t, o);
      } else if op.point.Restoring? {
        RestoreKeepsToken(s, s', t, o);
      } else {
        CloseKeepsToken(s, s', t, o);
      }
    } else if op.Reap? {
      if op.phase.Checked? {
        EvictKeepsToken(s, s', t, o);
      } else {
        SweepKeepsToken(s, s', t, o);
      }
    } else if FlagStep(s, s', t, op) {
      FlagKeepsToken(s, s', t, o);
    } else if TurnStep(s, s', t, op) {
      TurnKeepsToken(s, s', t, o);
    } else if op.at.Lookup? || op.at.Generate? {
      LookupKeepsToken(s, s', t, o);
    } else {
      AcquireHasCases(s, s', t);
      PublishKeepsToken(s, s', t, o);
    }
  }

  lemma AcquireHasCases(s: State, s': State, t: OpId)
    requires t in s.ops && s.ops[t].Send? && AcquireStep(s, s', t, s.ops[t])
    ensures s.ops[t].at.Lookup? || s.ops[t].at.Generate? || s.ops[t].at.Created? || s.ops[t].at.Generated?
  {
  }

  lemma NoTokenAtStart(run: seq<State>, o: Object)
    requires Run(run)
    ensures TokenIsReal(run[0], o)
  {
    assert run[0].h.holder == map[];
  }

  lemma {:induction false} TokensAreReal(run: seq<State>, i: nat, o: Object)
    requires Run(run) && i < |run|
    ensures TokenIsReal(run[i], o)
  {
    hide *;
    if i == 0 {
      NoTokenAtStart(run, o);
    } else {
      TokensAreReal(run, i - 1, o);
      var t := StepAfter(run, i - 1);
      StepKeepsToken(run[i - 1], run[i], t, o);
    }
  }

  /** In every run a published object that was neither deleted nor reaped is an orphan exactly if it is not in the map
      and no operation holds it. */
  lemma OrphanIffOutOfReach(run: seq<State>, i: nat, o: Object)
    requires Run(run) && i < |run| && o in run[i].h.published && o !in run[i].h.retired
    ensures Orphan(run[i], o)
            <==> (forall id :: !IsMapped(run[i], id, o)) && forall t <- run[i].ops :: !Holds(run[i].ops[t], o)
  {
    RunKeeps(run, i);
    assert DomainInv(run[i]) && o in run[i].session && ObjectInv(run[i], o);
    TokensAreReal(run, i, o);
    if Orphan(run[i], o) {
      OrphanIsLost(run[i], o);
    }
  }

  /** An orphan stays one: it never enters the map again, and no operation ever holds it. */
  lemma {:induction false} OrphanForever(run: seq<State>, i: nat, j: nat, o: Object)
    requires Run(run) && i <= j < |run| && Orphan(run[i], o)
    ensures Orphan(run[j], o) && Lost(run[j], o)
    decreases j
  {
    hide StepOf, Inv, Lost, Orphans;
    if i < j {
      OrphanForever(run, i, j - 1, o);
      var t := StepAfter(run, j - 1);
      StepFate(run[j - 1], run[j], t, o);
    }
    RunKeeps(run, j);
    OrphanIsLost(run[j], o);
  }

  /** An orphan without a turn, whose session is open: nobody will ever close the session. */
  ghost predicate Leaked(s: State, o: Object, x: Session) {
    && Orphan(s, o) && o in s.session && s.session[o] == x && x !in s.closed
    && forall t <- s.ops | IsTurn(s.ops[t]) :: s.ops[t].o != o
  }

  lemma LeakStays(s: State, s': State, t: OpId, o: Object, x: Session)
    requires Inv(s) && StepOf(s, s', t) && Leaked(s, o, x)
    ensures Leaked(s', o, x)
  {
    assert DomainInv(s) && t in s.ops;
    hide StepOf, Inv, Orphans;
    StepFate(s, s', t, o);
    OrphanIsLost(s, o);
    forall u <- s'.ops | IsTurn(s'.ops[u]) ensures s'.ops[u].o != o {
      TurnsStartMapped(s, s', t, u);
    }
    StepStartsOne(s, s', t);
    if x in s'.closed {
      OnlyCloseCloses(s, s', t, x);
    }
  }

  /** Its session leaks. */
  lemma {:induction false} LeakedForever(run: seq<State>, i: nat, j: nat, o: Object, x: Session)
    requires Run(run) && i <= j < |run| && Leaked(run[i], o, x)
    ensures Leaked(run[j], o, x)
    decreases j
  {
    hide StepOf, Inv, Leaked;
    if i < j {
      LeakedForever(run, i, j - 1, o, x);
      var t := StepAfter(run, j - 1);
      LeakStays(run[j - 1], run[j], t, o, x);
    }
  }
}
