/** Operations from step to step: where turns come from, and that a set flag always belongs to somebody. */
module ConversationFlags {

  import opened Conversation
  import opened ConversationInvariant
  import opened ConversationSafety

  // ---------------------------------------------------------------- one step of one operation

  /** Only the operation itself changes, and no flag does. */
  predicate OnlyMoves(s: State, s': State, t: OpId) {
    t in s'.ops && s'.ops == s.ops[t := s'.ops[t]] && s'.active == s.active
  }

  lemma LookupMoves(s: State, s': State, t: OpId)
    requires t in s.ops && s.ops[t].Send? && AcquireStep(s, s', t, s.ops[t])
    requires s.ops[t].at.Lookup? || s.ops[t].at.Generate?
    ensures OnlyMoves(s, s', t) && !IsFlagger(s'.ops[t]) && !IsFlagger(s.ops[t])
  {
    var op := s.ops[t];
    if s' != At(s, t, Finished)
       && !(op.at.Lookup? && op.id in s.conversations &&
            s' == At(s, t, op.(at := Holding, o := s.conversations[op.id]))) {
      var at := if op.at.Lookup? then Created else Generated;
      var o :| o !in s.identity && s' == At(StartObject(s, t, op.id, o), t, op.(at := at, o := o));
    }
  }

  lemma AcquireMoves(s: State, s': State, t: OpId)
    requires t in s.ops && s.ops[t].Send? && AcquireStep(s, s', t, s.ops[t])
    ensures OnlyMoves(s, s', t) && !IsFlagger(s'.ops[t]) && !IsFlagger(s.ops[t])
  {
    if s.ops[t].at.Lookup? || s.ops[t].at.Generate? {
      LookupMoves(s, s', t);
    }
  }

  lemma FlagMoves(s: State, s': State, t: OpId)
    requires t in s.ops && s.ops[t].Send? && FlagStep(s, s', t, s.ops[t])
    ensures OnlyMoves(s.(active := s'.active), s', t)
    ensures IsTurn(s'.ops[t]) ==> s'.ops[t].o == s.ops[t].o && IsMapped(s, s.ops[t].id, s.ops[t].o)
    ensures s'.active == if IsFlagger(s.ops[t]) == IsFlagger(s'.ops[t]) then s.active
                         else if IsFlagger(s'.ops[t]) then s.active + {s.ops[t].o} else s.active - {s.ops[t].o}
    ensures IsFlagger(s'.ops[t]) ==> s'.ops[t].o == s.ops[t].o
  {
  }

  lemma TurnMoves(s: State, s': State, t: OpId)
    requires t in s.ops && s.ops[t].Send? && TurnStep(s, s', t, s.ops[t])
    ensures OnlyMoves(s, s', t) && IsTurn(s.ops[t]) && IsFlagger(s'.ops[t]) && s'.ops[t].o == s.ops[t].o
  {
  }

  lemma DeleteMoves(s: State, s': State, t: OpId)
    requires t in s.ops && s.ops[t].Delete? && DeleteStep(s, s', t, s.ops[t])
    ensures OnlyMoves(s, s', t) && !s'.ops[t].Send?
  {
  }

  lemma ReapMoves(s: State, s': State, t: OpId)
    requires t in s.ops && s.ops[t].Reap? && ReapStep(s, s', t, s.ops[t])
    ensures OnlyMoves(s, s', t) && !s'.ops[t].Send?
  {
  }

  /** A turn on an object is one that was running on it, or starts on a mapped one. */
  lemma TurnsStartMapped(s: State, s': State, t: OpId, u: OpId)
    requires StepOf(s, s', t) && u in s'.ops && IsTurn(s'.ops[u])
    ensures u in s.ops && s.ops[u].Send? && s.ops[u].o == s'.ops[u].o
    ensures IsTurn(s.ops[u]) || IsMapped(s, s.ops[u].id, s.ops[u].o)
  {
    hide AcquireStep, FlagStep, TurnStep, DeleteStep, ReapStep;
    if s.ops[t].Delete? {
      DeleteMoves(s, s', t);
    } else if s.ops[t].Reap? {
      ReapMoves(s, s', t);
    } else if AcquireStep(s, s', t, s.ops[t]) {
      AcquireMoves(s, s', t);
    } else if FlagStep(s, s', t, s.ops[t]) {
      FlagMoves(s, s', t);
    } else {
      TurnMoves(s, s', t);
    }
  }

  // ---------------------------------------------------------------- flags

  /** The operation set the flag of the object and will clear it. */
  predicate Flags(s: State, t: OpId, o: Object) {
    t in s.ops && IsFlagger(s.ops[t]) && s.ops[t].o == o
  }

  /** Every set flag belongs to an operation that will clear it. */
  ghost predicate FlagsHaveOwners(s: State) {
    forall o <- s.active :: exists t :: Flags(s, t, o)
  }

  lemma OwnersStay(s: State, s': State, t: OpId)
    requires FlagsHaveOwners(s) && OnlyMoves(s, s', t) && t in s.ops
    requires IsFlagger(s.ops[t]) ==> IsFlagger(s'.ops[t]) && s'.ops[t].o == s.ops[t].o
    ensures FlagsHaveOwners(s')
  {
    hide IsFlagger;
    forall o <- s'.active ensures exists u :: Flags(s', u, o) {
      var u :| Flags(s, u, o);
      assert Flags(s', u, o);
    }
  }

  lemma FlagKeepsOwners(s: State, s': State, t: OpId)
    requires FlagsHaveOwners(s) && t in s.ops && s.ops[t].Send? && FlagStep(s, s', t, s.ops[t])
    ensures FlagsHaveOwners(s')
  {
    FlagMoves(s, s', t);
    hide IsFlagger, FlagStep;
    forall o <- s'.active ensures exists u :: Flags(s', u, o) {
      if IsFlagger(s'.ops[t]) && s'.ops[t].o == o {
        assert Flags(s', t, o);
      } else {
        var u :| Flags(s, u, o);
        assert Flags(s', u, o);
      }
    }
  }

  lemma StepKeepsOwners(s: State, s': State, t: OpId)
    requires FlagsHaveOwners(s) && StepOf(s, s', t)
    ensures FlagsHaveOwners(s')
  {
    hide AcquireStep, FlagStep, TurnStep, DeleteStep, ReapStep, FlagsHaveOwners;
    if s.ops[t].Delete? {
      DeleteMoves(s, s', t);
      OwnersStay(s, s', t);
    } else if s.ops[t].Reap? {
      ReapMoves(s, s', t);
      OwnersStay(s, s', t);
    } else if AcquireStep(s, s', t, s.ops[t]) {
      AcquireMoves(s, s', t);
      OwnersStay(s, s', t);
    } else if FlagStep(s, s', t, s.ops[t]) {
      FlagKeepsOwners(s, s', t);
    } else {
      TurnMoves(s, s', t);
      OwnersStay(s, s', t);
    }
  }

  /** In every run exactly the objects of the operations between their compare-and-swap and their deferred clearing
      have the flag set: no flag stays behind and blocks deletion and reaping for good. */
  lemma {:induction false} ActiveIffFlagged(run: seq<State>, i: nat, o: Object)
    requires Run(run) && i < |run|
    ensures o in run[i].active <==> exists t :: Flags(run[i], t, o)
  {
    OwnersInRun(run, i);
    RunKeeps(run, i);
    if t :| Flags(run[i], t, o) {
      assert OpInv(run[i], t, run[i].ops[t]);
    }
  }

  lemma {:induction false} OwnersInRun(run: seq<State>, i: nat)
    requires Run(run) && i < |run|
    ensures FlagsHaveOwners(run[i])
  {
    if i > 0 {
      OwnersInRun(run, i - 1);
      assert StepAt(run, i);
      hide FlagsHaveOwners, StepOf;
      var t :| StepOf(run[i - 1], run[i], t);
      StepKeepsOwners(run[i - 1], run[i], t);
    }
  }
}
