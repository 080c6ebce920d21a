/** The ownership token of conversation objects: an invariant that every step of every operation keeps. */
module ConversationInvariant {

  import opened Conversation

  /** The operation is a turn that passed the recheck and has not returned. */
  predicate IsTurn(op: Op) {
    op.Send? && (op.at.Passed? || op.at.Running? || op.at.Replaced? || op.at.Retrying? || op.at.Dropping?)
  }

  /** The operation set the flag of its object and will clear it. */
  predicate IsFlagger(op: Op) {
    IsTurn(op) || (op.Send? && (op.at.Flagged? || op.at.Clearing?))
  }

  predicate Known(s: State, id: Id, o: Object) {
    o in s.identity && s.identity[o] == id && o in s.session && o in s.h.holder
  }

  /** What holds of a mapped object. */
  predicate MappedInv(s: State, id: Id) {
    id in s.conversations ==>
      var o := s.conversations[id];
      && Known(s, id, o) && s.h.holder[o] == TheMap && o in s.h.published && o !in s.h.retired
      && (s.session[o] in s.closed ==> o in s.h.restored)
  }

  /** What holds of an object: its session is its alone, and its token says whether it is mapped. */
  predicate ObjectInv(s: State, o: Object) {
    o in s.session ==>
      && o in s.identity && o in s.h.holder
      && s.session[o] < s.started
      && s.session[o] in s.h.owner && s.h.owner[s.session[o]] == o
      && (s.h.holder[o] == TheMap ==> IsMapped(s, s.identity[o], o))
  }

  /** What holds of an operation, whatever the others do. */
  predicate OpInv(s: State, t: OpId, op: Op) {
    match op
    case Send(at, id, o, x) =>
      && (at.Created? || at.Generated? ==>
            Known(s, id, o) && s.h.holder[o] == Held(t) && o !in s.h.published && o !in s.h.retired && o !in s.active
            && s.session[o] !in s.closed)
      && (at.Holding? || IsFlagger(op) ==> Known(s, id, o) && o in s.h.published)
      && (IsFlagger(op) ==> o in s.active && o in s.h.flagger && s.h.flagger[o] == t)
      && (IsTurn(op) ==> o !in s.h.retired && s.h.pending != Some(o))
      && (at.Running? || at.Retrying? ==> s.session[o] == x)
      && (at.Replaced? ==> x in s.h.owner && s.h.owner[x] == o && s.session[o] != x)
      && (at.Dropping? ==> s.h.holder[o] == TheMap ==> o in s.h.restored)
    case Delete(point, id, o) =>
      !point.Find? ==>
        && Known(s, id, o) && o in s.h.published && s.h.holder[o] == Held(t)
        && (o in s.h.retired <==> point.Closing?)
    case Reap(phase, id, o, batch) =>
      && (phase.Scanning? || phase.Checked? ==> s.lock == Some(t))
      && (phase.Scanning? ==> s.h.pending == None)
      && (phase.Checked? ==> s.h.pending == Some(o) && IsMapped(s, id, o))
      && (!phase.Start? ==>
            forall b <- batch :: b in s.h.holder && s.h.holder[b] == Held(t) && b in s.h.retired && b in s.h.published)
    case Finished => true
  }

  /** What holds of the state as a whole. */
  ghost predicate DomainInv(s: State) {
    && s.session.Keys == s.identity.Keys == s.h.holder.Keys
    && s.active + s.h.published + s.h.retired <= s.identity.Keys
    && (forall x | x in s.closed || x in s.h.owner :: x < s.started)
    && (s.lock == None ==> s.h.pending == None)
  }

  /** What holds of the shared state, whatever the operations are doing. */
  ghost predicate SharedInv(s: State) {
    && DomainInv(s)
    && (forall id <- s.conversations :: MappedInv(s, id))
    && (forall o <- s.session :: ObjectInv(s, o))
  }

  ghost predicate Inv(s: State) {
    SharedInv(s) && forall t <- s.ops :: OpInv(s, t, s.ops[t])
  }

  lemma InitEstablishes(s: State)
    requires Init(s)
    ensures Inv(s)
  {
  }

  // ---------------------------------------------------------------- building blocks keep the invariant

  /** The facts about every operation but `t` survive the change from `s` to `g`. */
  ghost predicate Undisturbed(s: State, g: State, t: OpId) {
    g.ops == s.ops && forall u <- s.ops | u != t :: OpInv(s, u, s.ops[u]) ==> OpInv(g, u, s.ops[u])
  }

  lemma DisturbedByNone(a: State, b: State, c: State, t: OpId)
    requires Undisturbed(a, b, t) && Undisturbed(b, c, t)
    ensures Undisturbed(a, c, t)
  {
    hide OpInv;
  }

  /** A step: a change of the shared state that disturbs nobody, and a new program counter. */
  lemma Advance(s: State, g: State, t: OpId, op: Op)
    requires Inv(s) && SharedInv(g) && Undisturbed(s, g, t) && OpInv(g, t, op)
    ensures Inv(At(g, t, op))
  {
    AtKeepsShared(g, t, op);
    forall u <- At(g, t, op).ops ensures OpInv(At(g, t, op), u, At(g, t, op).ops[u]) {
      AtKeepsOp(g, t, op, u, At(g, t, op).ops[u]);
    }
  }

  /** A step that only moves the program counter. */
  lemma Stay(s: State, t: OpId, op: Op)
    requires Inv(s) && OpInv(s, t, op)
    ensures Inv(At(s, t, op))
  {
    Advance(s, s, t, op);
  }

  lemma AtKeepsShared(g: State, t: OpId, op: Op)
    requires SharedInv(g)
    ensures SharedInv(At(g, t, op))
  {
    forall o <- g.session ensures ObjectInv(At(g, t, op), o) { assert ObjectInv(g, o); }
    forall id <- g.conversations ensures MappedInv(At(g, t, op), id) { assert MappedInv(g, id); }
  }

  lemma AtKeepsOp(g: State, t: OpId, op: Op, u: OpId, other: Op)
    ensures OpInv(At(g, t, op), u, other) <==> OpInv(g, u, other)
  {
  }

  lemma StartObjectDisturbsNobody(s: State, t: OpId, id: Id, o: Object)
    requires DomainInv(s) && o !in s.identity
    ensures Undisturbed(s, StartObject(s, t, id, o), t)
  {
  }

  lemma StartObjectKeeps(s: State, t: OpId, id: Id, o: Object)
    requires SharedInv(s) && o !in s.identity
    ensures SharedInv(StartObject(s, t, id, o)) && Undisturbed(s, StartObject(s, t, id, o), t)
  {
    StartObjectDisturbsNobody(s, t, id, o);
    var g := StartObject(s, t, id, o);
    forall p <- g.session ensures ObjectInv(g, p) { assert ObjectInv(s, p); }
    forall i <- g.conversations ensures MappedInv(g, i) { assert MappedInv(s, i); }
  }

  lemma MapToDisturbsNobody(s: State, id: Id, o: Object, t: OpId)
    requires s.lock == None && MappedInv(s, id) && Known(s, id, o) && s.h.holder[o] == Held(t)
    requires o in s.h.published ==> o in s.h.restored
    ensures Undisturbed(s, MapTo(s, id, o), t)
  {
  }

  lemma MapToKeeps(s: State, id: Id, o: Object, t: OpId)
    requires SharedInv(s) && s.lock == None
    requires Known(s, id, o) && s.h.holder[o] == Held(t) && o !in s.h.retired
    requires if o in s.h.published then o in s.h.restored else s.session[o] !in s.closed
    ensures SharedInv(MapTo(s, id, o)) && Undisturbed(s, MapTo(s, id, o), t)
  {
    assert MappedInv(s, id);
    MapToDisturbsNobody(s, id, o, t);
    MapToKeepsDomain(s, id, o);
    var g := MapTo(s, id, o);
    forall p <- g.session ensures ObjectInv(g, p) {
      assert ObjectInv(s, p);
      MapToKeepsObject(s, id, o, p);
    }
    forall i <- g.conversations ensures MappedInv(g, i) {
      MapToKeepsMapped(s, id, o, i);
    }
    hide ObjectInv, MappedInv, DomainInv;
  }

  lemma MapToKeepsObject(s: State, id: Id, o: Object, p: Object)
    requires ObjectInv(s, p) && MappedInv(s, id) && Known(s, id, o)
    ensures ObjectInv(MapTo(s, id, o), p)
  {
  }

  lemma MapToKeepsDomain(s: State, id: Id, o: Object)
    requires DomainInv(s) && o in s.identity && MappedInv(s, id)
    ensures DomainInv(MapTo(s, id, o))
  {
  }

  lemma MapToKeepsMapped(s: State, id: Id, o: Object, i: Id)
    requires MappedInv(s, i) && MappedInv(s, id) && Known(s, id, o) && s.h.holder[o] != TheMap && o !in s.h.retired
    requires s.session[o] in s.closed ==> o in s.h.restored
    ensures MappedInv(MapTo(s, id, o), i)
  {
  }

  lemma UnmapKeeps(s: State, id: Id, to: Holder, t: OpId)
    requires SharedInv(s) && to != TheMap && (s.lock == None || s.lock == Some(t))
    ensures SharedInv(Unmap(s, id, to)) && Undisturbed(s, Unmap(s, id, to), t)
  {
    assert MappedInv(s, id);
    UnmapDisturbsNobody(s, id, to, t);
    var g := Unmap(s, id, to);
    forall p <- g.session ensures ObjectInv(g, p) {
      assert ObjectInv(s, p);
    }
    forall i <- g.conversations ensures MappedInv(g, i) {
      UnmapKeepsMapped(s, id, to, i);
    }
    hide ObjectInv, MappedInv;
  }

  lemma UnmapKeepsMapped(s: State, id: Id, to: Holder, i: Id)
    requires MappedInv(s, i) && MappedInv(s, id)
    ensures MappedInv(Unmap(s, id, to), i)
  {
  }

  lemma UnmapDisturbsNobody(s: State, id: Id, to: Holder, t: OpId)
    requires MappedInv(s, id) && DomainInv(s) && to != TheMap && (s.lock == None || s.lock == Some(t))
    ensures Undisturbed(s, Unmap(s, id, to), t)
  {
  }

  lemma CloseKeeps(s: State, x: Session, o: Object, t: OpId)
    requires SharedInv(s) && x in s.h.owner && s.h.owner[x] == o && o in s.identity
    requires s.session[o] == x && s.h.holder[o] == TheMap ==> o in s.h.restored
    requires s.h.holder[o] == Held(t) || o in s.h.published
    ensures SharedInv(Close(s, x)) && Undisturbed(s, Close(s, x), t)
  {
  }

  lemma RetireKeeps(s: State, o: Object, t: OpId)
    requires SharedInv(s) && o in s.identity && s.h.holder[o] == Held(t)
    requires forall u <- s.ops | u != t && IsTurn(s.ops[u]) :: s.ops[u].o != o
    ensures SharedInv(Retire(s, o)) && Undisturbed(s, Retire(s, o), t)
  {
    RetireDisturbsNobody(s, o, t);
    var g := Retire(s, o);
    forall p <- g.session ensures ObjectInv(g, p) { assert ObjectInv(s, p); }
    forall i <- g.conversations ensures MappedInv(g, i) { assert MappedInv(s, i); }
  }

  lemma RetireDisturbsNobody(s: State, o: Object, t: OpId)
    requires o in s.h.holder && s.h.holder[o] == Held(t)
    requires forall u <- s.ops | u != t && IsTurn(s.ops[u]) :: s.ops[u].o != o
    ensures Undisturbed(s, Retire(s, o), t)
  {
  }

  lemma MarkRestoredKeeps(s: State, o: Object, t: OpId)
    requires SharedInv(s)
    ensures SharedInv(MarkRestored(s, o)) && Undisturbed(s, MarkRestored(s, o), t)
  {
  }

  lemma RaiseFlagKeeps(s: State, t: OpId, o: Object)
    requires SharedInv(s) && o !in s.active && o in s.identity && o in s.h.published
    ensures SharedInv(RaiseFlag(s, t, o)) && Undisturbed(s, RaiseFlag(s, t, o), t)
  {
  }

  lemma ClearFlagKeeps(s: State, t: OpId, o: Object)
    requires SharedInv(s) && o in s.h.flagger && s.h.flagger[o] == t
    ensures SharedInv(ClearFlag(s, o)) && Undisturbed(s, ClearFlag(s, o), t)
  {
  }

  lemma ReplaceSessionKeeps(s: State, t: OpId, o: Object)
    requires SharedInv(s) && o in s.h.flagger && s.h.flagger[o] == t && o in s.identity && o in s.h.published
    ensures SharedInv(ReplaceSession(s, o)) && Undisturbed(s, ReplaceSession(s, o), t)
  {
    ReplaceDisturbsNobody(s, t, o);
    var g := ReplaceSession(s, o);
    forall p <- g.session ensures ObjectInv(g, p) { assert ObjectInv(s, p) && ObjectInv(s, o); }
    forall i <- g.conversations ensures MappedInv(g, i) { assert MappedInv(s, i); }
  }

  lemma ReplaceDisturbsNobody(s: State, t: OpId, o: Object)
    requires DomainInv(s) && o in s.h.flagger && s.h.flagger[o] == t && o in s.identity && o in s.h.published
    ensures Undisturbed(s, ReplaceSession(s, o), t)
  {
  }

  lemma SetLockKeeps(s: State, t: OpId, lock: Option<OpId>, pending: Option<Object>)
    requires SharedInv(s) && (s.lock == None || s.lock == Some(t))
    requires (lock == Some(t) || lock == None) && (lock == None ==> pending == None)
    requires forall u <- s.ops | u != t && IsTurn(s.ops[u]) :: pending != Some(s.ops[u].o)
    ensures SharedInv(SetLock(s, lock, pending)) && Undisturbed(s, SetLock(s, lock, pending), t)
  {
  }

  // ---------------------------------------------------------------- every step keeps the invariant

  lemma CreateKeeps(s: State, t: OpId, o: Object, op: Op)
    requires Inv(s) && t in s.ops && o !in s.identity && op.Send? && op.o == o && (op.at.Created? || op.at.Generated?)
    ensures Inv(At(StartObject(s, t, op.id, o), t, op))
  {
    assert DomainInv(s);
    hide SharedInv, Undisturbed, MappedInv, ObjectInv;
    StartObjectKeeps(s, t, op.id, o);
    Advance(s, StartObject(s, t, op.id, o), t, op);
  }

  lemma PublishKeeps(s: State, t: OpId, op: Op)
    requires Inv(s) && t in s.ops && s.ops[t] == op && op.Send? && (op.at.Created? || op.at.Generated?) &&
             s.lock == None
    ensures Inv(At(MapTo(s, op.id, op.o), t, op.(at := Holding)))
  {
    assert OpInv(s, t, op);
    MapToKeeps(s, op.id, op.o, t);
    Advance(s, MapTo(s, op.id, op.o), t, op.(at := Holding));
  }

  lemma AbandonKeeps(s: State, t: OpId, op: Op, op': Op)
    requires Inv(s) && t in s.ops && s.ops[t] == op && op.Send? && (op.at.Created? || op.at.Generated?)
    requires OpInv(s, t, op') && !(op'.Send? && (op'.at.Created? || op'.at.Generated?))
    ensures op.o in s.session && Inv(At(Close(s, s.session[op.o]), t, op'))
  {
    assert OpInv(s, t, op) && ObjectInv(s, op.o);
    CloseKeeps(s, s.session[op.o], op.o, t);
    Advance(s, Close(s, s.session[op.o]), t, op');
  }

  lemma LookupKeeps(s: State, s': State, t: OpId)
    requires Inv(s) && t in s.ops && s.ops[t].Send? && (s.ops[t].at.Lookup? || s.ops[t].at.Generate?)
    requires AcquireStep(s, s', t, s.ops[t])
    ensures Inv(s')
  {
    var op := s.ops[t];
    match op.at
    case Lookup =>
      if s' == At(s, t, Finished) {
        Stay(s, t, Finished);
      } else if op.id in s.conversations && s' == At(s, t, op.(at := Holding, o := s.conversations[op.id])) {
        assert MappedInv(s, op.id);
        Stay(s, t, op.(at := Holding, o := s.conversations[op.id]));
      } else {
        var o :| o !in s.identity && s' == At(StartObject(s, t, op.id, o), t, op.(at := Created, o := o));
        CreateKeeps(s, t, o, op.(at := Created, o := o));
      }
    case Generate =>
      if s' == At(s, t, Finished) {
        Stay(s, t, Finished);
      } else {
        var o :| o !in s.identity && s' == At(StartObject(s, t, op.id, o), t, op.(at := Generated, o := o));
        CreateKeeps(s, t, o, op.(at := Generated, o := o));
      }
  }

  lemma AcquireKeeps(s: State, s': State, t: OpId)
    requires Inv(s) && t in s.ops && s.ops[t].Send? && AcquireStep(s, s', t, s.ops[t])
    ensures Inv(s')
  {
    var op := s.ops[t];
    match op.at
    case Lookup => LookupKeeps(s, s', t);
    case Generate => LookupKeeps(s, s', t);
    case Created =>
      if op.id in s.conversations {
        assert MappedInv(s, op.id);
        AbandonKeeps(s, t, op, op.(at := Holding, o := s.conversations[op.id]));
      } else {
        PublishKeeps(s, t, op);
      }
    case Generated =>
      if s.lock == None && s' == At(MapTo(s, op.id, op.o), t, op.(at := Holding)) {
        PublishKeeps(s, t, op);
      } else {
        AbandonKeeps(s, t, op, Finished);
      }
    case _ =>
  }

  lemma FlagKeeps(s: State, s': State, t: OpId)
    requires Inv(s) && t in s.ops && s.ops[t].Send? && FlagStep(s, s', t, s.ops[t])
    ensures Inv(s')
  {
    var op := s.ops[t];
    assert OpInv(s, t, op);
    match op.at
    case Holding =>
      if s' == At(s, t, Finished) {
        Stay(s, t, Finished);
      } else {
        RaiseFlagKeeps(s, t, op.o);
        Advance(s, RaiseFlag(s, t, op.o), t, op.(at := Flagged));
      }
    case Flagged =>
      // the recheck: a mapped object is not retired, and no reaper is about to unmap it
      assert MappedInv(s, op.id);
      Stay(s, t, op.(at := if IsMapped(s, op.id, op.o) then Passed else Clearing));
    case Clearing =>
      ClearFlagKeeps(s, t, op.o);
      Advance(s, ClearFlag(s, op.o), t, Finished);
    case _ =>
  }

  lemma DropKeeps(s: State, s': State, t: OpId)
    requires Inv(s) && t in s.ops && IsTurn(s.ops[t]) && DropStep(s, s', t, s.ops[t])
    ensures Inv(s')
  {
    var op := s.ops[t];
    assert OpInv(s, t, op) && ObjectInv(s, op.o);
    if IsMapped(s, op.id, op.o) {
      UnmapKeeps(s, op.id, Nobody, t);
      Advance(s, Unmap(s, op.id, Nobody), t, op.(at := Dropping));
    } else {
      Stay(s, t, op.(at := Dropping));
    }
  }

  lemma TurnKeeps(s: State, s': State, t: OpId)
    requires Inv(s) && t in s.ops && s.ops[t].Send? && TurnStep(s, s', t, s.ops[t])
    ensures Inv(s')
  {
    var op := s.ops[t];
    assert OpInv(s, t, op) && ObjectInv(s, op.o);
    hide SharedInv, Undisturbed, MappedInv;
    match op.at
    case Passed =>
      if DropStep(s, s', t, op) {
        DropKeeps(s, s', t);
      } else if s' == At(s, t, op.(at := Clearing)) {
        Stay(s, t, op.(at := Clearing));
      } else {
        Stay(s, t, op.(at := Running, x := s.session[op.o]));
      }
    case Running =>
      if DropStep(s, s', t, op) {
        DropKeeps(s, s', t);
      } else if s' == At(s, t, op.(at := Clearing)) {
        Stay(s, t, op.(at := Clearing));
      } else {
        ReplaceSessionKeeps(s, t, op.o);
        Advance(s, ReplaceSession(s, op.o), t, op.(at := Replaced));
      }
    case Replaced =>
      CloseKeeps(s, op.x, op.o, t);
      Advance(s, Close(s, op.x), t, op.(at := Retrying, x := s.session[op.o]));
    case Retrying =>
      if DropStep(s, s', t, op) {
        DropKeeps(s, s', t);
      } else {
        Stay(s, t, op.(at := Clearing));
      }
    case Dropping =>
      CloseKeeps(s, s.session[op.o], op.o, t);
      Advance(s, Close(s, s.session[op.o]), t, op.(at := Clearing));
    case _ =>
  }

  lemma RestoreKeeps(s: State, t: OpId, op: Op)
    requires Inv(s) && t in s.ops && s.ops[t] == op && op.Delete? && op.point.Restoring? && s.lock == None
    ensures Inv(At(MapTo(MarkRestored(s, op.o), op.id, op.o), t, Finished))
  {
    assert OpInv(s, t, op);
    MarkRestoredKeeps(s, op.o, t);
    var marked := MarkRestored(s, op.o);
    Advance(s, marked, t, op);
    MapToKeeps(marked, op.id, op.o, t);
    Advance(marked, MapTo(marked, op.id, op.o), t, Finished);
  }

  lemma DeleteKeeps(s: State, s': State, t: OpId)
    requires Inv(s) && t in s.ops && s.ops[t].Delete? && DeleteStep(s, s', t, s.ops[t])
    ensures Inv(s')
  {
    var op := s.ops[t];
    assert OpInv(s, t, op);
    match op.point
    case Find =>
      assert MappedInv(s, op.id);
      UnmapKeeps(s, op.id, Held(t), t);
      Advance(s, Unmap(s, op.id, Held(t)), t,
              if op.id in s.conversations then op.(point := Taken, o := s.conversations[op.id]) else Finished);
    case Taken =>
      if op.o in s.active {
        Stay(s, t, op.(point := Restoring));
      } else {
        // nobody has the flag, so nobody is in a turn
        assert forall u <- s.ops :: OpInv(s, u, s.ops[u]);
        RetireKeeps(s, op.o, t);
        Advance(s, Retire(s, op.o), t, op.(point := Closing));
      }
    case Restoring => RestoreKeeps(s, t, op);
    case Closing =>
      assert ObjectInv(s, op.o);
      CloseKeeps(s, s.session[op.o], op.o, t);
      Advance(s, Close(s, s.session[op.o]), t, Finished);
  }

  lemma SweepKeeps(s: State, t: OpId, op: Op, o: Object)
    requires Inv(s) && t in s.ops && s.ops[t] == op && op.Reap? && op.phase.Sweeping? && o in op.batch
    ensures o in s.session && Inv(At(Close(s, s.session[o]), t, op.(batch := op.batch - {o})))
  {
    assert OpInv(s, t, op) && ObjectInv(s, o);
    CloseKeeps(s, s.session[o], o, t);
    Advance(s, Close(s, s.session[o]), t, op.(batch := op.batch - {o}));
  }

  lemma ReapOneAdvances(s: State, t: OpId, op: Op)
    requires DomainInv(s) && op.Reap? && op.phase.Checked? && OpInv(s, t, op) && op.o in s.h.holder
    requires op.o in s.h.published
    ensures OpInv(SetLock(Retire(Unmap(s, op.id, Held(t)), op.o), Some(t), None), t,
                  op.(phase := Scanning, batch := op.batch + {op.o}))
  {
  }

  lemma ReapOneKeeps(s: State, t: OpId, op: Op)
    requires Inv(s) && t in s.ops && s.ops[t] == op && op.Reap? && op.phase.Checked?
    ensures Inv(At(SetLock(Retire(Unmap(s, op.id, Held(t)), op.o), Some(t), None), t,
                   op.(phase := Scanning, batch := op.batch + {op.o})))
  {
    assert OpInv(s, t, op) && MappedInv(s, op.id);
    assert forall u <- s.ops :: OpInv(s, u, s.ops[u]);
    hide SharedInv, Undisturbed, MappedInv, ObjectInv;
    UnmapKeeps(s, op.id, Held(t), t);
    var unmapped := Unmap(s, op.id, Held(t));
    RetireKeeps(unmapped, op.o, t);
    var retired := Retire(unmapped, op.o);
    SetLockKeeps(retired, t, Some(t), None);
    DisturbedByNone(s, unmapped, retired, t);
    DisturbedByNone(s, retired, SetLock(retired, Some(t), None), t);
    ReapOneAdvances(s, t, op);
    hide OpInv, Unmap, Retire, SetLock;
    Advance(s, SetLock(retired, Some(t), None), t, op.(phase := Scanning, batch := op.batch + {op.o}));
  }

  lemma ScanKeeps(s: State, s': State, t: OpId)
    requires Inv(s) && t in s.ops && s.ops[t].Reap? && s.ops[t].phase.Scanning? && ReapStep(s, s', t, s.ops[t])
    ensures Inv(s')
  {
    var op := s.ops[t];
    assert OpInv(s, t, op);
    if s' == At(SetLock(s, None, None), t, op.(phase := Sweeping)) {
      SetLockKeeps(s, t, None, None);
      Advance(s, SetLock(s, None, None), t, op.(phase := Sweeping));
    } else {
      var id :| id in s.conversations && s.conversations[id] !in s.active
        && s' == At(SetLock(s, Some(t), Some(s.conversations[id])), t,
                    op.(phase := Checked, id := id, o := s.conversations[id]));
      assert forall u <- s.ops :: OpInv(s, u, s.ops[u]);
      SetLockKeeps(s, t, Some(t), Some(s.conversations[id]));
      Advance(s, SetLock(s, Some(t), Some(s.conversations[id])), t,
              op.(phase := Checked, id := id, o := s.conversations[id]));
    }
  }

  lemma ReapKeeps(s: State, s': State, t: OpId)
    requires Inv(s) && t in s.ops && s.ops[t].Reap? && ReapStep(s, s', t, s.ops[t])
    ensures Inv(s')
  {
    var op := s.ops[t];
    assert OpInv(s, t, op);
    hide SharedInv, Undisturbed;
    match op.phase
    case Start =>
      SetLockKeeps(s, t, Some(t), None);
      Advance(s, SetLock(s, Some(t), None), t, op.(phase := Scanning, batch := {}));
    case Scanning => ScanKeeps(s, s', t);
    case Checked => ReapOneKeeps(s, t, op);
    case Sweeping =>
      if s' == At(s, t, Finished) {
        Stay(s, t, Finished);
      } else {
        var o :| o in op.batch && o in s.session && s' == At(Close(s, s.session[o]), t, op.(batch := op.batch - {o}));
        SweepKeeps(s, t, op, o);
      }
  }

  /** What a step of an operation at `op` may do to the history. */
  ghost predicate Grows(s: State, s': State, op: Op) {
    && s.h.retired <= s'.h.retired && s.h.published <= s'.h.published
    && forall o <- s'.h.restored :: o in s.h.restored || (op.Delete? && op.point.Restoring? && op.o == o)
  }

  lemma LookupGrows(s: State, s': State, t: OpId, op: Op)
    requires op.Send? && AcquireStep(s, s', t, op) && (op.at.Lookup? || op.at.Generate?)
    ensures Grows(s, s', op)
  {
    if s' != At(s, t, Finished)
       && !(op.id in s.conversations && s' == At(s, t, op.(at := Holding, o := s.conversations[op.id]))) {
      var o, at :| o !in s.identity && s' == At(StartObject(s, t, op.id, o), t, op.(at := at, o := o));
    }
  }

  lemma AcquireGrows(s: State, s': State, t: OpId, op: Op)
    requires op.Send? && AcquireStep(s, s', t, op)
    ensures Grows(s, s', op)
  {
    if op.at.Lookup? || op.at.Generate? {
      LookupGrows(s, s', t, op);
    }
  }

  lemma FlagGrows(s: State, s': State, t: OpId, op: Op)
    requires op.Send? && FlagStep(s, s', t, op)
    ensures Grows(s, s', op)
  {
  }

  lemma TurnGrows(s: State, s': State, t: OpId, op: Op)
    requires op.Send? && TurnStep(s, s', t, op)
    ensures Grows(s, s', op)
  {
  }

  lemma DeleteGrows(s: State, s': State, t: OpId, op: Op)
    requires op.Delete? && DeleteStep(s, s', t, op)
    ensures Grows(s, s', op)
  {
  }

  lemma ReapGrows(s: State, s': State, t: OpId, op: Op)
    requires op.Reap? && ReapStep(s, s', t, op)
    ensures Grows(s, s', op)
  {
    if op.phase.Scanning? && s' != At(SetLock(s, None, None), t, op.(phase := Sweeping)) {
      var id :| id in s.conversations && s' == At(SetLock(s, Some(t), Some(s.conversations[id])), t,
                                                  op.(phase := Checked, id := id, o := s.conversations[id]));
    } else if op.phase.Sweeping? && s' != At(s, t, Finished) {
      var o :| o in s.session && s' == At(Close(s, s.session[o]), t, op.(batch := op.batch - {o}));
    }
  }

  lemma StepKeeps(s: State, s': State, t: OpId)
    requires Inv(s) && StepOf(s, s', t)
    ensures Inv(s') && Grows(s, s', s.ops[t])
  {
    hide Inv, Grows, AcquireStep, FlagStep, TurnStep, DeleteStep, ReapStep;
    var op := s.ops[t];
    if op.Delete? {
      DeleteKeeps(s, s', t);
      DeleteGrows(s, s', t, op);
    } else if op.Reap? {
      ReapKeeps(s, s', t);
      ReapGrows(s, s', t, op);
    } else if AcquireStep(s, s', t, op) {
      AcquireKeeps(s, s', t);
      AcquireGrows(s, s', t, op);
    } else if FlagStep(s, s', t, op) {
      FlagKeeps(s, s', t);
      FlagGrows(s, s', t, op);
    } else {
      TurnKeeps(s, s', t);
      TurnGrows(s, s', t, op);
    }
  }
}
