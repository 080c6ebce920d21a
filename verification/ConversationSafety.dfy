/** What holds over whole runs of the conversation protocol. */
module ConversationSafety {

  import opened Conversation
  import opened ConversationInvariant

  lemma {:induction false} RunKeeps(run: seq<State>, i: nat)
    requires Run(run) && i < |run|
    ensures Inv(run[i])
  {
    if i == 0 {
      InitEstablishes(run[0]);
    } else {
      RunKeeps(run, i - 1);
      assert StepAt(run, i);
      var t :| StepOf(run[i - 1], run[i], t);
      StepKeeps(run[i - 1], run[i], t);
    }
  }

  lemma RunGrows(run: seq<State>, i: nat) returns (t: OpId)
    requires Run(run) && 0 < i < |run|
    ensures t in run[i - 1].ops && Grows(run[i - 1], run[i], run[i - 1].ops[t])
  {
    RunKeeps(run, i - 1);
    assert StepAt(run, i);
    t :| StepOf(run[i - 1], run[i], t);
    StepKeeps(run[i - 1], run[i], t);
  }

  /** The next step of operation `t` calls Close on session `x`. */
  ghost predicate CallsClose(s: State, t: OpId, x: Session) {
    && t in s.ops
    && match s.ops[t]
       case Send(at, id, o, stale) =>
         if at.Replaced? then x == stale
         else (at.Created? || at.Generated? || at.Dropping?) && o in s.session && x == s.session[o]
       case Delete(point, id, o) => point.Closing? && o in s.session && x == s.session[o]
       case Reap(phase, id, o, batch) => phase.Sweeping? && exists b <- batch :: b in s.session && x == s.session[b]
       case Finished => false
  }

  lemma SendCloses(s: State, s': State, t: OpId, x: Session)
    requires StepOf(s, s', t) && s.ops[t].Send? && x in s'.closed && x !in s.closed
    ensures CallsClose(s, t, x)
  {
    var op := s.ops[t];
    if AcquireStep(s, s', t, op) {
      assert op.at.Created? || op.at.Generated?;
    } else if TurnStep(s, s', t, op) {
      assert op.at.Replaced? || op.at.Dropping?;
    }
  }

  /** Only a call of Close closes a session. */
  lemma OnlyCloseCloses(s: State, s': State, t: OpId, x: Session)
    requires StepOf(s, s', t) && x in s'.closed && x !in s.closed
    ensures CallsClose(s, t, x)
  {
    var op := s.ops[t];
    if op.Send? {
      SendCloses(s, s', t, x);
    } else {
      assert s'.closed == s.closed + {x};
    }
  }

  /** Main safety theorem.  Whatever the interleaving, an operation that is about to close a
      session -- a deletion, a reaper sweep, a Send that lost the race to publish -- is never
      about to close the session of an object on which somebody else's turn, past its recheck,
      is still running. */
  lemma NoForeignClose(run: seq<State>, i: nat, t: OpId, u: OpId, x: Session)
    requires Run(run) && i < |run|
    requires CallsClose(run[i], t, x)
    requires u in run[i].ops && IsTurn(run[i].ops[u]) && u != t
    ensures run[i].ops[u].o in run[i].session && run[i].session[run[i].ops[u].o] != x
    ensures (run[i].ops[u].at.Running? || run[i].ops[u].at.Retrying?) ==> run[i].ops[u].x != x
  {
    RunKeeps(run, i);
    var s := run[i];
    assert OpInv(s, t, s.ops[t]) && OpInv(s, u, s.ops[u]);
    assert ObjectInv(s, s.ops[u].o);
    if s.ops[t].Reap? {
      var b :| b in s.ops[t].batch && b in s.session && x == s.session[b];
      assert ObjectInv(s, b);
    } else {
      assert ObjectInv(s, s.ops[t].o);
    }
  }

  /** At most one turn runs on an object. */
  lemma OneTurnPerObject(run: seq<State>, i: nat, t: OpId, u: OpId)
    requires Run(run) && i < |run|
    requires t in run[i].ops && u in run[i].ops && IsTurn(run[i].ops[t]) && IsTurn(run[i].ops[u])
    requires run[i].ops[t].o == run[i].ops[u].o
    ensures t == u
  {
    RunKeeps(run, i);
    assert OpInv(run[i], t, run[i].ops[t]) && OpInv(run[i], u, run[i].ops[u]);
  }

  /** The operation holds `o`: a Send that has not published it yet, a deletion that unmapped
      it, or a reaper sweep with `o` in its batch. */
  predicate Holds(op: Op, o: Object) {
    || (op.Send? && (op.at.Created? || op.at.Generated?) && op.o == o)
    || (op.Delete? && !op.point.Find? && op.o == o)
    || (op.Reap? && !op.phase.Start? && o in op.batch)
  }

  /** An object is held by at most one of the map, under one id, and the operations. */
  lemma OneHolder(run: seq<State>, i: nat, o: Object)
    requires Run(run) && i < |run|
    ensures forall t, id :: t in run[i].ops && Holds(run[i].ops[t], o) ==> !IsMapped(run[i], id, o)
    ensures forall t, u | t in run[i].ops && u in run[i].ops && Holds(run[i].ops[t], o) && Holds(run[i].ops[u], o) ::
              t == u
    ensures forall id, id' :: IsMapped(run[i], id, o) && IsMapped(run[i], id', o) ==> id == id'
  {
    RunKeeps(run, i);
    var s := run[i];
    forall t | t in s.ops && Holds(s.ops[t], o) ensures o in s.h.holder && s.h.holder[o] == Held(t) {
      assert OpInv(s, t, s.ops[t]);
    }
    forall id | IsMapped(s, id, o) ensures o in s.h.holder && s.h.holder[o] == TheMap && s.identity[o] == id {
      assert MappedInv(s, id);
    }
  }

  /** The fate of the object is sealed: a deletion saw it idle, or the reaper unmapped it. */
  predicate Doomed(op: Op, o: Object) {
    || (op.Delete? && op.point.Closing? && op.o == o)
    || (op.Reap? && !op.phase.Start? && o in op.batch)
  }

  lemma {:induction false} RetiredStays(run: seq<State>, i: nat, j: nat)
    requires Run(run) && i <= j < |run|
    ensures run[i].h.retired <= run[j].h.retired
    decreases j
  {
    if i < j {
      RetiredStays(run, i, j - 1);
      var _ := RunGrows(run, j);
    }
  }

  /** Once reaped or deleted for good, an object never re-enters the map, no turn is or ever
      will be running on it, and every Send that still holds its pointer fails the recheck. */
  lemma DoomedForever(run: seq<State>, i: nat, j: nat, t: OpId, o: Object)
    requires Run(run) && i <= j < |run|
    requires t in run[i].ops && Doomed(run[i].ops[t], o)
    ensures forall id :: !IsMapped(run[j], id, o)
    ensures forall u :: u in run[j].ops && IsTurn(run[j].ops[u]) ==> run[j].ops[u].o != o
    ensures forall u, s' | u in run[j].ops && run[j].ops[u].Send? && run[j].ops[u].at.Flagged? && run[j].ops[u].o == o
                           && StepOf(run[j], s', u) :: s'.ops[u].Send? && s'.ops[u].at.Clearing?
  {
    RunKeeps(run, i);
    assert OpInv(run[i], t, run[i].ops[t]);
    RetiredStays(run, i, j);
    RunKeeps(run, j);
    forall id ensures !IsMapped(run[j], id, o) {
      assert MappedInv(run[j], id);
    }
    forall u | u in run[j].ops && IsTurn(run[j].ops[u]) ensures run[j].ops[u].o != o {
      assert OpInv(run[j], u, run[j].ops[u]);
    }
  }
}
