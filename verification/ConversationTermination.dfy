/** Every operation ends after a bounded number of its own steps, whatever the others do, and a Send that finds its
    conversation idle gets its turn. */
module ConversationTermination {

  import opened Conversation
  import opened ConversationInvariant
  import opened ConversationFlags
  import opened ConversationSafety
  import opened ConversationWindow
  import opened ConversationProgress
  import opened ConversationSessions

  // ---------------------------------------------------------------- how many steps an operation has left

  /** A sweep that has not taken the lock yet; how long it will be depends on the map it finds. */
  predicate Waits(op: Op) {
    op.Reap? && op.phase.Start?
  }

  function SendLeft(at: SendPoint): nat {
    match at
    case Lookup => 10
    case Generate => 10
    case Created => 9
    case Generated => 9
    case Holding => 8
    case Flagged => 7
    case Passed => 6
    case Running => 5
    case Replaced => 4
    case Retrying => 3
    case Dropping => 2
    case Clearing => 1
  }

  /** At most so many steps of its own: a sweep looks at every mapped conversation once, unmaps it and closes it. */
  function Left(op: Op, mapped: nat): nat {
    match op
    case Send(at, _, _, _) => SendLeft(at)
    case Delete(point, _, _) => if point.Find? then 3 else if point.Taken? then 2 else 1
    case Reap(phase, _, _, batch) =>
      if phase.Sweeping? then |batch| + 1 else if phase.Checked? then 3 * mapped + |batch| + 1
      else 3 * mapped + |batch| + 2
    case Finished => 0
  }

  function LeftOf(s: State, t: OpId): nat
    requires t in s.ops
  {
    Left(s.ops[t], |s.conversations|)
  }

  // ---------------------------------------------------------------- own steps

  /** The Send is at a later point, or has finished. */
  predicate IsLater(op: Op, op': Op) {
    op.Send? && (op'.Finished? || (op'.Send? && SendLeft(op'.at) < SendLeft(op.at)))
  }

  lemma LaterHasLess(s: State, s': State, t: OpId)
    requires t in s.ops && t in s'.ops && IsLater(s.ops[t], s'.ops[t])
    ensures LeftOf(s', t) < LeftOf(s, t)
  {
  }

  lemma LookupGoesOn(s: State, s': State, t: OpId)
    requires t in s.ops && s.ops[t].Send? && AcquireStep(s, s', t, s.ops[t])
    requires s.ops[t].at.Lookup? || s.ops[t].at.Generate?
    ensures t in s'.ops && IsLater(s.ops[t], s'.ops[t])
  {
    var op := s.ops[t];
    if s' != At(s, t, Finished)
       && !(op.id in s.conversations && s' == At(s, t, op.(at := Holding, o := s.conversations[op.id]))) {
      var at := if op.at.Lookup? then Created else Generated;
      var o :| s' == At(StartObject(s, t, op.id, o), t, op.(at := at, o := o));
    }
  }

  lemma AcquireGoesOn(s: State, s': State, t: OpId)
    requires t in s.ops && s.ops[t].Send? && AcquireStep(s, s', t, s.ops[t])
    ensures t in s'.ops && IsLater(s.ops[t], s'.ops[t])
  {
    if s.ops[t].at.Lookup? || s.ops[t].at.Generate? {
      hide AcquireStep, SendLeft;
      LookupGoesOn(s, s', t);
    }
  }

  lemma FlagGoesOn(s: State, s': State, t: OpId)
    requires t in s.ops && s.ops[t].Send? && FlagStep(s, s', t, s.ops[t])
    ensures t in s'.ops && IsLater(s.ops[t], s'.ops[t])
  {
  }

  lemma TurnGoesOn(s: State, s': State, t: OpId)
    requires t in s.ops && s.ops[t].Send? && TurnStep(s, s', t, s.ops[t])
    ensures t in s'.ops && IsLater(s.ops[t], s'.ops[t])
  {
  }

  lemma DeleteUsesUp(s: State, s': State, t: OpId)
    requires t in s.ops && s.ops[t].Delete? && DeleteStep(s, s', t, s.ops[t])
    ensures t in s'.ops && LeftOf(s', t) < LeftOf(s, t)
  {
  }

  lemma ScanUsesUp(s: State, s': State, t: OpId)
    requires t in s.ops && s.ops[t].Reap? && s.ops[t].phase.Scanning? && ReapStep(s, s', t, s.ops[t])
    ensures t in s'.ops && LeftOf(s', t) < LeftOf(s, t)
  {
    var op := s.ops[t];
    if s' != At(SetLock(s, None, None), t, op.(phase := Sweeping)) {
      var id :| id in s.conversations && s' == At(SetLock(s, Some(t), Some(s.conversations[id])), t,
                                                  op.(phase := Checked, id := id, o := s.conversations[id]));
    }
  }

  lemma TakeUsesUp(s: State, s': State, t: OpId)
    requires t in s.ops && s.ops[t].Reap? && s.ops[t].phase.Checked? && ReapStep(s, s', t, s.ops[t])
    requires s.ops[t].id in s.conversations
    ensures t in s'.ops && LeftOf(s', t) < LeftOf(s, t)
  {
    var op := s.ops[t];
    assert s'.conversations == s.conversations - {op.id};
    OneLess(s.conversations, op.id);
    OneMore(op.batch, op.o);
  }

  lemma SweepUsesUp(s: State, s': State, t: OpId)
    requires t in s.ops && s.ops[t].Reap? && s.ops[t].phase.Sweeping? && ReapStep(s, s', t, s.ops[t])
    ensures t in s'.ops && LeftOf(s', t) < LeftOf(s, t)
  {
    var op := s.ops[t];
    if s' != At(s, t, Finished) {
      var b :| b in op.batch && b in s.session && s' == At(Close(s, s.session[b]), t, op.(batch := op.batch - {b}));
      assert |op.batch - {b}| == |op.batch| - 1;
    }
  }

  lemma ReapUsesUp(s: State, s': State, t: OpId)
    requires Inv(s) && t in s.ops && s.ops[t].Reap? && ReapStep(s, s', t, s.ops[t]) && !Waits(s.ops[t])
    ensures t in s'.ops && LeftOf(s', t) < LeftOf(s, t)
  {
    assert OpInv(s, t, s.ops[t]);
    hide Inv, ReapStep, LeftOf;
    match s.ops[t].phase
    case Scanning => ScanUsesUp(s, s', t);
    case Checked => TakeUsesUp(s, s', t);
    case Sweeping => SweepUsesUp(s, s', t);
  }

  lemma OneMore(batch: set<Object>, o: Object)
    ensures |batch + {o}| <= |batch| + 1
  {
    if o in batch {
      assert batch + {o} == batch;
    }
  }

  lemma OneLess(m: map<Id, Object>, id: Id)
    requires id in m
    ensures |m - {id}| == |m| - 1
  {
    assert (m - {id}).Keys == m.Keys - {id};
  }

  /** Every step of an operation uses up one of the steps it has left. */
  lemma StepUsesUp(s: State, s': State, t: OpId)
    requires Inv(s) && StepOf(s, s', t) && !Waits(s.ops[t])
    ensures t in s'.ops && LeftOf(s', t) < LeftOf(s, t)
  {
    hide AcquireStep, FlagStep, TurnStep, DeleteStep, ReapStep, Inv, LeftOf, IsLater;
    if s.ops[t].Delete? {
      DeleteUsesUp(s, s', t);
    } else if s.ops[t].Reap? {
      ReapUsesUp(s, s', t);
    } else {
      if AcquireStep(s, s', t, s.ops[t]) {
        AcquireGoesOn(s, s', t);
      } else if FlagStep(s, s', t, s.ops[t]) {
        FlagGoesOn(s, s', t);
      } else {
        TurnGoesOn(s, s', t);
      }
      LaterHasLess(s, s', t);
    }
  }

  // ---------------------------------------------------------------- steps of others

  lemma AcquireLeavesMap(s: State, s': State, t: OpId)
    requires s.lock.Some? && t in s.ops && s.ops[t].Send? && AcquireStep(s, s', t, s.ops[t])
    ensures s'.conversations == s.conversations
  {
  }

  lemma TurnLeavesMap(s: State, s': State, t: OpId)
    requires s.lock.Some? && t in s.ops && s.ops[t].Send?
    requires FlagStep(s, s', t, s.ops[t]) || TurnStep(s, s', t, s.ops[t])
    ensures s'.conversations == s.conversations
  {
  }

  lemma ReapLeavesMap(s: State, s': State, t: OpId, u: OpId)
    requires Inv(s) && s.lock == Some(u) && u != t && t in s.ops && s.ops[t].Reap? && ReapStep(s, s', t, s.ops[t])
    ensures s'.conversations == s.conversations
  {
    assert OpInv(s, t, s.ops[t]);
  }

  /** While somebody holds the lock nobody else changes the map. */
  lemma LockProtectsMap(s: State, s': State, t: OpId, u: OpId)
    requires Inv(s) && StepOf(s, s', t) && s.lock == Some(u) && t != u
    ensures s'.conversations == s.conversations
  {
    hide AcquireStep, FlagStep, TurnStep, ReapStep, Inv;
    if s.ops[t].Reap? {
      ReapLeavesMap(s, s', t, u);
    } else if s.ops[t].Send? {
      if AcquireStep(s, s', t, s.ops[t]) {
        AcquireLeavesMap(s, s', t);
      } else {
        TurnLeavesMap(s, s', t);
      }
    }
  }

  lemma OtherStepsUseUpNothing(s: State, s': State, t: OpId, u: OpId)
    requires Inv(s) && StepOf(s, s', t) && u in s.ops && u != t && !Waits(s.ops[u])
    ensures u in s'.ops && s'.ops[u] == s.ops[u] && LeftOf(s', u) == LeftOf(s, u)
  {
    assert Locks(s.ops[u]) ==> OpInv(s, u, s.ops[u]);
    hide StepOf, Inv;
    OthersWait(s, s', t, u);
    if Locks(s.ops[u]) {
      LockProtectsMap(s, s', t, u);
    }
  }

  // ---------------------------------------------------------------- over runs

  /** The operation has moved between two states. */
  predicate Moved(s: State, s': State, t: OpId) {
    t in s.ops && t in s'.ops && s.ops[t] != s'.ops[t]
  }

  /** How often the operation has moved from state i to state j of a run. */
  function OwnSteps(run: seq<State>, i: nat, j: nat, t: OpId): nat
    requires i <= j < |run|
    decreases j
  {
    if j == i then 0 else OwnSteps(run, i, j - 1, t) + if Moved(run[j - 1], run[j], t) then 1 else 0
  }

  lemma OneStep(s: State, s': State, u: OpId, t: OpId)
    requires Inv(s) && StepOf(s, s', u) && t in s.ops && !Waits(s.ops[t])
    ensures t in s'.ops && !Waits(s'.ops[t])
    ensures (if Moved(s, s', t) then 1 else 0) + LeftOf(s', t) <= LeftOf(s, t)
  {
    hide StepOf, Inv, LeftOf;
    if u == t {
      StepUsesUp(s, s', t);
      NeverWaitsAgain(s, s', t);
    } else {
      OtherStepsUseUpNothing(s, s', u, t);
    }
  }

  lemma NeverWaitsAgain(s: State, s': State, t: OpId)
    requires StepOf(s, s', t) && !Waits(s.ops[t]) && t in s'.ops
    ensures !Waits(s'.ops[t])
  {
    hide AcquireStep, FlagStep, TurnStep, DeleteStep, ReapStep;
    if s.ops[t].Reap? {
      ReaperGoesOn(s, s', t);
    } else if s.ops[t].Delete? {
      DeletionGoesOn(s, s', t);
    } else if AcquireStep(s, s', t, s.ops[t]) {
      AcquireGoesOn(s, s', t);
    } else if FlagStep(s, s', t, s.ops[t]) {
      FlagGoesOn(s, s', t);
    } else {
      TurnGoesOn(s, s', t);
    }
  }

  lemma ReaperGoesOn(s: State, s': State, t: OpId)
    requires t in s.ops && s.ops[t].Reap? && ReapStep(s, s', t, s.ops[t]) && t in s'.ops
    ensures !Waits(s'.ops[t])
  {
  }

  lemma DeletionGoesOn(s: State, s': State, t: OpId)
    requires t in s.ops && s.ops[t].Delete? && DeleteStep(s, s', t, s.ops[t]) && t in s'.ops
    ensures !Waits(s'.ops[t])
  {
  }

  lemma {:induction false} StepsAreUsedUp(run: seq<State>, i: nat, j: nat, t: OpId)
    requires Run(run) && i <= j < |run| && t in run[i].ops && !Waits(run[i].ops[t])
    ensures t in run[j].ops && !Waits(run[j].ops[t])
    ensures OwnSteps(run, i, j, t) + LeftOf(run[j], t) <= LeftOf(run[i], t)
    decreases j
  {
    hide Run, Inv, DomainInv, StepOf, Moved, LeftOf, Waits;
    if i < j {
      hide *;
      StepsAreUsedUp(run, i, j - 1, t);
      var u := StepAfter(run, j - 1);
      OneStep(run[j - 1], run[j], u, t);
      OneMoreState(run, i, j, t);
    } else {
      assert OwnSteps(run, i, i, t) == 0;
    }
  }

  lemma OneMoreState(run: seq<State>, i: nat, j: nat, t: OpId)
    requires i < j < |run|
    ensures OwnSteps(run, i, j, t) == OwnSteps(run, i, j - 1, t) + if Moved(run[j - 1], run[j], t) then 1 else 0
  {
  }

  /** In every run a Send takes at most 10 steps and a deletion at most 3; a reaper sweep that has taken the lock takes
      at most 3 for each conversation that was mapped then, and 2 more. */
  lemma {:induction false} OperationsEnd(run: seq<State>, i: nat, j: nat, t: OpId)
    requires Run(run) && i <= j < |run| && t in run[i].ops
    ensures run[i].ops[t].Send? ==> OwnSteps(run, i, j, t) <= 10
    ensures run[i].ops[t].Delete? ==> OwnSteps(run, i, j, t) <= 3
    ensures run[i].ops[t].Reap? && run[i].ops[t].phase.Scanning? && run[i].ops[t].batch == {} ==>
              OwnSteps(run, i, j, t) <= 3 * |run[i].conversations| + 2
  {
    hide Run;
    if !Waits(run[i].ops[t]) {
      StepsAreUsedUp(run, i, j, t);
    }
  }

  // ---------------------------------------------------------------- what a Send can count on

  /** From any state of any run: while nobody else moves and the lock is free, a Send whose conversation is mapped and
      idle gets its turn, on that conversation and its current session. */
  lemma IdleConversationTakesTurn(run: seq<State>, i: nat, t: OpId) returns (rest: seq<State>)
    requires Run(run) && i < |run| && run[i].lock == None && t in run[i].ops
    requires run[i].ops[t].Send? && run[i].ops[t].at.Lookup? && run[i].ops[t].id in run[i].conversations
    requires run[i].conversations[run[i].ops[t].id] !in run[i].active
    ensures |rest| == 4 && StepOf(run[i], rest[0], t)
    ensures StepOf(rest[0], rest[1], t) && StepOf(rest[1], rest[2], t) && StepOf(rest[2], rest[3], t)
    ensures var s, o := run[i], run[i].conversations[run[i].ops[t].id];
            && o in s.session && t in rest[3].ops
            && rest[3].ops[t] == Send(Running, s.ops[t].id, o, s.session[o])
            && rest[3].active == s.active + {o} && rest[3].conversations == s.conversations
            && rest[3].session == s.session
  {
    var s, op := run[i], run[i].ops[t];
    var o := s.conversations[op.id];
    RunKeeps(run, i);
    assert MappedInv(s, op.id);
    var s1 := At(s, t, op.(at := Holding, o := o));
    var s2 := At(RaiseFlag(s1, t, o), t, op.(at := Flagged, o := o));
    var s3 := At(s2, t, op.(at := Passed, o := o));
    var s4 := At(s3, t, op.(at := Running, o := o, x := s.session[o]));
    assert AcquireStep(s, s1, t, op);
    assert FlagStep(s1, s2, t, s1.ops[t]);
    assert FlagStep(s2, s3, t, s2.ops[t]);
    assert TurnStep(s3, s4, t, s3.ops[t]);
    rest := [s1, s2, s3, s4];
  }
}
