/** The remove/restore window of a deletion: when exactly a mapped object is left with a closed session, and runs
    in which the window lets a second object appear for an id. */
module ConversationWindow {

  import opened Conversation
  import opened ConversationInvariant
  import opened ConversationSafety

  // ---------------------------------------------------------------- what no step undoes

  lemma ClosedStays(s: State, s': State, t: OpId)
    requires StepOf(s, s', t)
    ensures s.closed <= s'.closed
  {
  }

  predicate SameSessions(s: State, s': State) {
    s'.session == s.session && s'.started == s.started && s'.h.owner == s.h.owner
  }

  /** A session is started for the object. */
  predicate Starts(s: State, s': State, o: Object) {
    s'.session == s.session[o := s.started] && s'.started == s.started + 1 && s'.h.owner == s.h.owner[s.started := o]
  }

  /** No session is started, or one for a new object, or one for the object of a running turn. */
  ghost predicate StartsOne(s: State, s': State, op: Op) {
    || SameSessions(s, s')
    || (exists o :: o !in s.identity && Starts(s, s', o))
    || (op.Send? && op.at.Running? && Starts(s, s', op.o))
  }

  lemma LookupStartsOne(s: State, s': State, t: OpId, op: Op)
    requires op.Send? && AcquireStep(s, s', t, op) && (op.at.Lookup? || op.at.Generate?)
    ensures StartsOne(s, s', op)
  {
    if s' == At(s, t, Finished)
       || (op.at.Lookup? && op.id in s.conversations &&
           s' == At(s, t, op.(at := Holding, o := s.conversations[op.id]))) {
      assert SameSessions(s, s');
    } else {
      var at := if op.at.Lookup? then Created else Generated;
      var o :| o !in s.identity && s' == At(StartObject(s, t, op.id, o), t, op.(at := at, o := o));
      assert Starts(s, s', o);
    }
  }

  lemma PublishStartsNone(s: State, s': State, t: OpId, op: Op)
    requires op.Send? && AcquireStep(s, s', t, op) && !op.at.Lookup? && !op.at.Generate?
    ensures SameSessions(s, s')
  {
  }

  lemma FlagStartsNone(s: State, s': State, t: OpId, op: Op)
    requires op.Send? && FlagStep(s, s', t, op)
    ensures SameSessions(s, s')
  {
  }

  lemma TurnStartsOne(s: State, s': State, t: OpId, op: Op)
    requires op.Send? && TurnStep(s, s', t, op)
    ensures StartsOne(s, s', op)
  {
    if s' == At(ReplaceSession(s, op.o), t, op.(at := Replaced)) && op.at.Running? {
      assert Starts(s, s', op.o);
    } else {
      assert SameSessions(s, s');
    }
  }

  lemma DeleteStartsNone(s: State, s': State, t: OpId, op: Op)
    requires op.Delete? && DeleteStep(s, s', t, op)
    ensures SameSessions(s, s')
  {
  }

  lemma ReapStartsNone(s: State, s': State, t: OpId, op: Op)
    requires op.Reap? && ReapStep(s, s', t, op)
    ensures SameSessions(s, s')
  {
    if op.phase.Scanning? && s' != At(SetLock(s, None, None), t, op.(phase := Sweeping)) {
      var id :| id in s.conversations && s' == At(SetLock(s, Some(t), Some(s.conversations[id])), t,
                                                  op.(phase := Checked, id := id, o := s.conversations[id]));
    } else if op.phase.Sweeping? && s' != At(s, t, Finished) {
      var o :| o in s.session && s' == At(Close(s, s.session[o]), t, op.(batch := op.batch - {o}));
    }
  }

  lemma StepStartsOne(s: State, s': State, t: OpId)
    requires StepOf(s, s', t)
    ensures StartsOne(s, s', s.ops[t])
  {
    hide AcquireStep, FlagStep, TurnStep, DeleteStep, ReapStep;
    var op := s.ops[t];
    if op.Delete? {
      DeleteStartsNone(s, s', t, op);
    } else if op.Reap? {
      ReapStartsNone(s, s', t, op);
    } else if AcquireStep(s, s', t, op) {
      if op.at.Lookup? || op.at.Generate? {
        LookupStartsOne(s, s', t, op);
      } else {
        PublishStartsNone(s, s', t, op);
      }
    } else if FlagStep(s, s', t, op) {
      FlagStartsNone(s, s', t, op);
    } else {
      TurnStartsOne(s, s', t, op);
    }
  }

  lemma OwnerStays(s: State, s': State, t: OpId, x: Session)
    requires DomainInv(s) && StepOf(s, s', t) && x in s.h.owner
    ensures x in s'.h.owner && s'.h.owner[x] == s.h.owner[x]
  {
    hide StepOf;
    StepStartsOne(s, s', t);
  }

  /** The object has another session than x, which was started before. */
  predicate LeftBehind(s: State, o: Object, x: Session) {
    x < s.started && o in s.session && s.session[o] != x
  }

  lemma LeftBehindStays(s: State, s': State, t: OpId, o: Object, x: Session)
    requires StepOf(s, s', t) && LeftBehind(s, o, x)
    ensures LeftBehind(s', o, x)
  {
    hide StepOf;
    StepStartsOne(s, s', t);
  }

  /** The operation is about to put its object into the map. */
  predicate Publishes(op: Op) {
    || (op.Send? && (op.at.Created? || op.at.Generated?))
    || (op.Delete? && op.point.Restoring?)
  }

  lemma AcquirePublishesOne(s: State, s': State, t: OpId, op: Op)
    requires op.Send? && AcquireStep(s, s', t, op)
    ensures s'.h.published <= s.h.published + if Publishes(op) then {op.o} else {}
  {
  }

  lemma FlagPublishesNone(s: State, s': State, t: OpId, op: Op)
    requires op.Send? && FlagStep(s, s', t, op)
    ensures s'.h.published == s.h.published
  {
  }

  lemma TurnPublishesNone(s: State, s': State, t: OpId, op: Op)
    requires op.Send? && TurnStep(s, s', t, op)
    ensures s'.h.published == s.h.published
  {
    if DropStep(s, s', t, op) {
      assert s'.h.published == s.h.published;
    }
  }

  lemma DeletePublishesOne(s: State, s': State, t: OpId, op: Op)
    requires op.Delete? && DeleteStep(s, s', t, op)
    ensures s'.h.published <= s.h.published + if Publishes(op) then {op.o} else {}
  {
    match op.point {
      case Find =>
      case Taken =>
      case Restoring =>
        assert s'.h.published == s.h.published + {op.o};
      case Closing =>
    }
  }

  lemma ReapPublishesNone(s: State, s': State, t: OpId, op: Op)
    requires op.Reap? && ReapStep(s, s', t, op)
    ensures s'.h.published == s.h.published
  {
    if op.phase.Scanning? && s' != At(SetLock(s, None, None), t, op.(phase := Sweeping)) {
      var id :| id in s.conversations && s' == At(SetLock(s, Some(t), Some(s.conversations[id])), t,
                                                  op.(phase := Checked, id := id, o := s.conversations[id]));
    } else if op.phase.Sweeping? && s' != At(s, t, Finished) {
      var o :| o in s.session && s' == At(Close(s, s.session[o]), t, op.(batch := op.batch - {o}));
    }
  }

  lemma StepPublishesOne(s: State, s': State, t: OpId)
    requires StepOf(s, s', t)
    ensures s'.h.published <= s.h.published + if Publishes(s.ops[t]) then {s.ops[t].o} else {}
  {
    hide AcquireStep, FlagStep, TurnStep, DeleteStep, ReapStep;
    var op := s.ops[t];
    if op.Delete? {
      DeletePublishesOne(s, s', t, op);
    } else if op.Reap? {
      ReapPublishesNone(s, s', t, op);
    } else if AcquireStep(s, s', t, op) {
      AcquirePublishesOne(s, s', t, op);
    } else if FlagStep(s, s', t, op) {
      FlagPublishesNone(s, s', t, op);
    } else {
      TurnPublishesNone(s, s', t, op);
    }
  }

  /** The session of the object was closed before anybody mapped the object. */
  predicate Abandoned(s: State, o: Object) {
    o in s.session && s.session[o] in s.closed && o !in s.h.published
  }

  lemma AbandonedStays(s: State, s': State, t: OpId, o: Object)
    requires Inv(s) && StepOf(s, s', t) && Abandoned(s, o)
    ensures Abandoned(s', o)
  {
    assert OpInv(s, t, s.ops[t]);
    hide StepOf;
    StepStartsOne(s, s', t);
    ClosedStays(s, s', t);
    StepPublishesOne(s, s', t);
  }

  // ---------------------------------------------------------------- over runs

  lemma StepAfter(run: seq<State>, i: nat) returns (t: OpId)
    requires Run(run) && i + 1 < |run|
    ensures Inv(run[i]) && DomainInv(run[i]) && StepOf(run[i], run[i + 1], t)
  {
    RunKeeps(run, i);
    assert StepAt(run, i + 1);
    t :| StepOf(run[i], run[i + 1], t);
  }

  lemma {:induction false} ClosedForever(run: seq<State>, i: nat, j: nat, x: Session)
    requires Run(run) && i <= j < |run| && x in run[i].closed
    ensures x in run[j].closed
    decreases j
  {
    hide StepOf, Inv;
    if i < j {
      ClosedForever(run, i, j - 1, x);
      var t := StepAfter(run, j - 1);
      ClosedStays(run[j - 1], run[j], t);
    }
  }

  lemma {:induction false} OwnerForever(run: seq<State>, i: nat, j: nat, x: Session)
    requires Run(run) && i <= j < |run| && x in run[i].h.owner
    ensures x in run[j].h.owner && run[j].h.owner[x] == run[i].h.owner[x]
    decreases j
  {
    hide StepOf, Inv;
    if i < j {
      OwnerForever(run, i, j - 1, x);
      var t := StepAfter(run, j - 1);
      OwnerStays(run[j - 1], run[j], t, x);
    }
  }

  lemma {:induction false} LeftBehindForever(run: seq<State>, i: nat, j: nat, o: Object, x: Session)
    requires Run(run) && i <= j < |run| && LeftBehind(run[i], o, x)
    ensures LeftBehind(run[j], o, x)
    decreases j
  {
    hide StepOf, Inv;
    if i < j {
      LeftBehindForever(run, i, j - 1, o, x);
      var t := StepAfter(run, j - 1);
      LeftBehindStays(run[j - 1], run[j], t, o, x);
    }
  }

  lemma {:induction false} AbandonedForever(run: seq<State>, i: nat, j: nat, o: Object)
    requires Run(run) && i <= j < |run| && Abandoned(run[i], o)
    ensures Abandoned(run[j], o)
    decreases j
  {
    hide StepOf, Inv, Abandoned;
    if i < j {
      AbandonedForever(run, i, j - 1, o);
      var t := StepAfter(run, j - 1);
      AbandonedStays(run[j - 1], run[j], t, o);
    }
  }

  // ---------------------------------------------------------------- mapped objects with a closed session

  /** In step k a turn on the object that dropped its conversation closes session x of the object. */
  ghost predicate DropCloses(run: seq<State>, k: nat, o: Object, x: Session) {
    && k + 1 < |run| && x !in run[k].closed && x in run[k + 1].closed
    && o in run[k].session && run[k].session[o] == x
    && exists t :: StepOf(run[k], run[k + 1], t) && IsDrop(run[k].ops[t], o)
  }

  predicate IsDrop(op: Op, o: Object) {
    op.Send? && op.at.Dropping? && op.o == o
  }

  lemma {:induction false} ClosedInSomeStep(run: seq<State>, i: nat, x: Session) returns (k: nat)
    requires Run(run) && i < |run| && x in run[i].closed
    ensures k < i && x !in run[k].closed && x in run[k + 1].closed
  {
    if x in run[i - 1].closed {
      k := ClosedInSomeStep(run, i - 1, x);
    } else {
      k := i - 1;
    }
  }

  /** A Send that closes the session of the object it started leaves the object unpublished for good. */
  lemma CloseAbandons(s: State, s': State, t: OpId)
    requires Inv(s) && StepOf(s, s', t) && s.ops[t].Send? && (s.ops[t].at.Created? || s.ops[t].at.Generated?)
    requires s.ops[t].o in s.session && s.session[s.ops[t].o] !in s.closed && s.session[s.ops[t].o] in s'.closed
    ensures Abandoned(s', s.ops[t].o)
  {
    assert OpInv(s, t, s.ops[t]);
  }

  /** Any other close leaves an object that is not mapped or has another session. */
  lemma OtherClosesUnmap(run: seq<State>, k: nat, t: OpId, i: nat, o: Object, x: Session)
    requires Run(run) && k < i < |run| && StepOf(run[k], run[k + 1], t) && CallsClose(run[k], t, x)
    requires x !in run[k].closed && x in run[k + 1].closed
    requires o in run[i].session && run[i].session[o] == x && o !in run[i].h.retired && o in run[i].h.published
    ensures IsDrop(run[k].ops[t], o) && o in run[k].session && run[k].session[o] == x
  {
    hide StepOf;
    var s, op := run[k], run[k].ops[t];
    RunKeeps(run, k);
    RunKeeps(run, i);
    assert OpInv(s, t, op) && ObjectInv(run[i], o);
    RetiredStays(run, k, i);
    if op.Reap? {
      var b :| b in op.batch && b in s.session && x == s.session[b];
      assert ObjectInv(s, b);
      OwnerForever(run, k, i, x);
    } else {
      assert ObjectInv(s, op.o);
      OwnerForever(run, k, i, x);
      if op.Send? && op.at.Replaced? {
        LeftBehindForever(run, k, i, o, x);
      } else if op.Send? && !op.at.Dropping? {
        CloseAbandons(s, run[k + 1], t);
        AbandonedForever(run, k + 1, i, o);
      }
    }
  }

  /** A mapped object has a closed session exactly if a turn on the object that dropped its conversation closed this
      session: no deletion, no reaper sweep and no replacement of a session does that to an object that is mapped
      afterwards. */
  lemma MappedIsClosedIffDropped(run: seq<State>, i: nat, id: Id)
    requires Run(run) && i < |run| && id in run[i].conversations
    ensures var o := run[i].conversations[id];
            && o in run[i].session
            && (run[i].session[o] in run[i].closed <==>
                exists k: nat :: k < i && DropCloses(run, k, o, run[i].session[o]))
  {
    RunKeeps(run, i);
    assert MappedInv(run[i], id);
    var o := run[i].conversations[id];
    var x := run[i].session[o];
    if x in run[i].closed {
      var k := ClosedInSomeStep(run, i, x);
      var t := StepAfter(run, k);
      OnlyCloseCloses(run[k], run[k + 1], t, x);
      OtherClosesUnmap(run, k, t, i, o, x);
      assert DropCloses(run, k, o, x);
    }
    if k: nat :| k < i && DropCloses(run, k, o, x) {
      ClosedForever(run, k + 1, i, x);
    }
  }

  lemma {:induction false} RestoredBefore(run: seq<State>, i: nat, o: Object)
    requires Run(run) && i < |run| && o in run[i].h.restored
    ensures exists k, t :: 0 <= k < i && t in run[k].ops && run[k].ops[t].Delete?
                           && run[k].ops[t].point.Restoring? && run[k].ops[t].o == o
  {
    if i > 0 {
      var t := RunGrows(run, i);
      if o in run[i - 1].h.restored {
        RestoredBefore(run, i - 1, o);
      } else {
        assert run[i - 1].ops[t].o == o;
      }
    }
  }

  /** And then a refused deletion put the object back. */
  lemma MappedIsOpenUnlessRestored(run: seq<State>, i: nat, id: Id)
    requires Run(run) && i < |run| && id in run[i].conversations
    requires forall k, t | 0 <= k < i && t in run[k].ops && run[k].ops[t].Delete? && run[k].ops[t].point.Restoring? ::
               run[k].ops[t].o != run[i].conversations[id]
    ensures run[i].conversations[id] in run[i].session
    ensures run[i].session[run[i].conversations[id]] !in run[i].closed
  {
    RunKeeps(run, i);
    assert MappedInv(run[i], id);
    if run[i].conversations[id] in run[i].h.restored {
      RestoredBefore(run, i, run[i].conversations[id]);
    }
  }
}
