/** Nobody gets stuck: an operation that has not finished can move, or the reaper that holds the lock can. */
module ConversationProgress {

  import opened Conversation
  import opened ConversationInvariant
  import opened ConversationFlags
  import opened ConversationSafety
  import opened ConversationWindow

  // ---------------------------------------------------------------- who holds the lock

  /** A reaper sweep in its critical section. */
  predicate Locks(op: Op) {
    op.Reap? && (op.phase.Scanning? || op.phase.Checked?)
  }

  /** The lock is held by a reaper in its critical section, if at all. */
  predicate LockIsHeld(s: State) {
    s.lock.Some? ==> s.lock.value in s.ops && Locks(s.ops[s.lock.value])
  }

  lemma OthersKeepLock(s: State, s': State, t: OpId)
    requires t in s.ops && s.ops[t].Send?
    requires AcquireStep(s, s', t, s.ops[t]) || FlagStep(s, s', t, s.ops[t]) || TurnStep(s, s', t, s.ops[t])
    ensures s'.lock == s.lock
  {
  }

  lemma DeleteKeepsLock(s: State, s': State, t: OpId)
    requires t in s.ops && s.ops[t].Delete? && DeleteStep(s, s', t, s.ops[t])
    ensures s'.lock == s.lock
  {
  }

  lemma ReapKeepsLock(s: State, s': State, t: OpId)
    requires Inv(s) && t in s.ops && s.ops[t].Reap? && ReapStep(s, s', t, s.ops[t]) && LockIsHeld(s)
    ensures LockIsHeld(s')
  {
    var op := s.ops[t];
    assert OpInv(s, t, op);
    hide Inv;
    ReapMoves(s, s', t);
    if op.phase.Scanning? && s' != At(SetLock(s, None, None), t, op.(phase := Sweeping)) {
      var id :| id in s.conversations && s' == At(SetLock(s, Some(t), Some(s.conversations[id])), t,
                                                  op.(phase := Checked, id := id, o := s.conversations[id]));
    } else if op.phase.Sweeping? && s' != At(s, t, Finished) {
      var b :| b in s.session && s' == At(Close(s, s.session[b]), t, op.(batch := op.batch - {b}));
    }
  }

  lemma StepKeepsLock(s: State, s': State, t: OpId)
    requires Inv(s) && StepOf(s, s', t) && LockIsHeld(s)
    ensures LockIsHeld(s')
  {
    hide AcquireStep, FlagStep, TurnStep, DeleteStep, ReapStep, Inv;
    if s.ops[t].Delete? {
      DeleteKeepsLock(s, s', t);
      DeleteMoves(s, s', t);
    } else if s.ops[t].Reap? {
      ReapKeepsLock(s, s', t);
    } else {
      OthersKeepLock(s, s', t);
      if AcquireStep(s, s', t, s.ops[t]) {
        AcquireMoves(s, s', t);
      } else if FlagStep(s, s', t, s.ops[t]) {
        FlagMoves(s, s', t);
      } else {
        TurnMoves(s, s', t);
      }
    }
  }

  lemma {:induction false} LockInRun(run: seq<State>, i: nat)
    requires Run(run) && i < |run|
    ensures LockIsHeld(run[i])
  {
    if i > 0 {
      hide StepOf, Inv, Run, LockIsHeld;
      LockInRun(run, i - 1);
      var t := StepAfter(run, i - 1);
      StepKeepsLock(run[i - 1], run[i], t);
    }
  }

  // ---------------------------------------------------------------- everybody can move

  lemma SendMoves(s: State, t: OpId) returns (s': State)
    requires Inv(s) && t in s.ops && s.ops[t].Send? && s.lock == None
    ensures StepOf(s, s', t)
  {
    var op := s.ops[t];
    assert OpInv(s, t, op);
    s' := match op.at
    case Lookup => At(s, t, Finished)
    case Generate => At(s, t, Finished)
    case Created =>
      if op.id in s.conversations
      then At(Close(s, s.session[op.o]), t, op.(at := Holding, o := s.conversations[op.id]))
      else At(MapTo(s, op.id, op.o), t, op.(at := Holding))
    case Generated => At(MapTo(s, op.id, op.o), t, op.(at := Holding))
    case Holding => At(s, t, Finished)
    case Flagged => At(s, t, op.(at := if IsMapped(s, op.id, op.o) then Passed else Clearing))
    case Passed => At(s, t, op.(at := Clearing))
    case Running => At(s, t, op.(at := Clearing))
    case Replaced => At(Close(s, op.x), t, op.(at := Retrying, x := s.session[op.o]))
    case Retrying => At(s, t, op.(at := Clearing))
    case Dropping => At(Close(s, s.session[op.o]), t, op.(at := Clearing))
    case Clearing => At(ClearFlag(s, op.o), t, Finished);
    if op.at.Lookup? || op.at.Generate? || op.at.Created? || op.at.Generated? {
      assert AcquireStep(s, s', t, op);
    } else if op.at.Holding? || op.at.Flagged? || op.at.Clearing? {
      assert FlagStep(s, s', t, op);
    } else {
      assert TurnStep(s, s', t, op);
    }
  }

  lemma DeletionMoves(s: State, t: OpId) returns (s': State)
    requires Inv(s) && t in s.ops && s.ops[t].Delete? && s.lock == None
    ensures StepOf(s, s', t)
  {
    var op := s.ops[t];
    assert OpInv(s, t, op);
    s' := match op.point
    case Find =>
      At(Unmap(s, op.id, Held(t)), t,
         if op.id in s.conversations then op.(point := Taken, o := s.conversations[op.id]) else Finished)
    case Taken =>
      if op.o in s.active then At(s, t, op.(point := Restoring)) else At(Retire(s, op.o), t, op.(point := Closing))
    case Restoring => At(MapTo(MarkRestored(s, op.o), op.id, op.o), t, Finished)
    case Closing => At(Close(s, s.session[op.o]), t, Finished);
    assert DeleteStep(s, s', t, op);
  }

  lemma ReaperMoves(s: State, t: OpId) returns (s': State)
    requires Inv(s) && t in s.ops && s.ops[t].Reap? && (s.lock == None || Locks(s.ops[t]))
    ensures StepOf(s, s', t)
  {
    var op := s.ops[t];
    assert OpInv(s, t, op);
    match op.phase {
      case Start => s' := At(SetLock(s, Some(t), None), t, op.(phase := Scanning, batch := {}));
      case Scanning => s' := At(SetLock(s, None, None), t, op.(phase := Sweeping));
      case Checked =>
        s' := At(SetLock(Retire(Unmap(s, op.id, Held(t)), op.o), Some(t), None),
                 t, op.(phase := Scanning, batch := op.batch + {op.o}));
      case Sweeping =>
        if op.batch == {} {
          s' := At(s, t, Finished);
        } else {
          var o :| o in op.batch;
          assert o in s.session;
          s' := At(Close(s, s.session[o]), t, op.(batch := op.batch - {o}));
        }
    }
    assert ReapStep(s, s', t, op);
  }

  /** In every run an operation that has not finished can move on, at once or after the reaper that holds the lock, and
      that reaper can. */
  lemma NobodyIsStuck(run: seq<State>, i: nat, t: OpId) returns (u: OpId, s': State)
    requires Run(run) && i < |run| && t in run[i].ops && !run[i].ops[t].Finished?
    ensures StepOf(run[i], s', u) && (u == t || (run[i].lock == Some(u) && Locks(run[i].ops[u])))
  {
    var s := run[i];
    RunKeeps(run, i);
    LockInRun(run, i);
    hide StepOf, Inv, Run;
    if s.lock.Some? {
      u := s.lock.value;
      s' := ReaperMoves(s, u);
    } else {
      u := t;
      if s.ops[t].Send? {
        s' := SendMoves(s, t);
      } else if s.ops[t].Delete? {
        s' := DeletionMoves(s, t);
      } else {
        s' := ReaperMoves(s, t);
      }
    }
  }
}
