/** The life of a chat conversation object: turns (Send), deletion, the idle reaper
    and resumption race over one map, guarded by a lock, and one atomic `active` flag per object.

    Every operation is split at the points where another goroutine can run.  A critical
    section that reads and writes only lock-protected state is one step; the reaper reads
    the unprotected `active` flags while it holds the lock, so its scan is many steps and
    `lock` records that it holds the lock in between.  The per-id start lock is left out:
    without it there are more interleavings, and everything below holds for all of them. */
module Conversation {

  type Id = string
  type Object = nat
  type Session = nat
  type OpId = nat

  datatype Option<+T> = None | Some(value: T)

  datatype SendPoint =
    | Lookup         // the request names a conversation
    | Generate       // it does not: the server drew a random id
    | Created        // resumed object started, not yet published in the map
    | Generated      // brand-new object started, not yet published in the map
    | Holding        // has the pointer
    | Flagged        // won the compare-and-swap
    | Passed         // passed the map recheck
    | Running        // its turn runs on session x
    | Replaced       // installed a fresh session, close of the stale session x pending
    | Retrying       // its turn runs again, on the fresh session x
    | Dropping       // unmapped by dropConversation, close pending
    | Clearing       // deferred active.Store(false) pending

  datatype DeletePoint =
    | Find
    | Taken          // removed from the map
    | Restoring      // saw the flag set
    | Closing        // saw the flag clear

  datatype ReapPoint =
    | Start
    | Scanning       // holds the lock
    | Checked        // holds the lock and saw the flag of o clear
    | Sweeping       // released the lock, closes its batch

  /** One operation: its program counter and local variables. */
  datatype Op =
    | Send(at: SendPoint, id: Id, o: Object, x: Session)
    | Delete(point: DeletePoint, id: Id, o: Object)
    | Reap(phase: ReapPoint, id: Id, o: Object, batch: set<Object>)
    | Finished

  /** Where the ownership token of an object is. */
  datatype Holder = TheMap | Held(t: OpId) | Nobody

  /** Bookkeeping for the proofs; no step reads it. */
  datatype History = History(
    holder: map<Object, Holder>,
    published: set<Object>,      // have been in the map
    retired: set<Object>,        // reaped, or deleted for good
    restored: set<Object>,       // put back into the map by a refused deletion
    flagger: map<Object, OpId>,  // the last winner of the compare-and-swap
    owner: map<Session, Object>, // the object a session was started for
    pending: Option<Object>      // the object the reaper is about to unmap
  )

  datatype State = State(
    conversations: map<Id, Object>,
    lock: Option<OpId>,          // an operation that holds the manager's lock between steps
    identity: map<Object, Id>,   // every object ever created, with the id it was created for
    active: set<Object>,
    session: map<Object, Session>,
    started: nat,                // sessions started so far are 0..started
    closed: set<Session>,
    ops: map<OpId, Op>,
    h: History
  )

  ghost predicate Init(s: State) {
    && s.conversations == map[] && s.lock == None && s.identity == map[] && s.active == {}
    && s.session == map[] && s.started == 0 && s.closed == {}
    && s.h == History(map[], {}, {}, {}, map[], map[], None)
    && forall t <- s.ops :: s.ops[t].Finished? || (s.ops[t].Send? && (s.ops[t].at.Lookup? || s.ops[t].at.Generate?))
                            || (s.ops[t].Delete? && s.ops[t].point.Find?) || (s.ops[t].Reap? && s.ops[t].phase.Start?)
  }

  // ---------------------------------------------------------------- building blocks of steps

  function At(s: State, t: OpId, op: Op): State {
    s.(ops := s.ops[t := op])
  }

  predicate IsMapped(s: State, id: Id, o: Object) {
    id in s.conversations && s.conversations[id] == o
  }

  /** startConversation: a new object with a new session, seen by nobody else. */
  function StartObject(s: State, t: OpId, id: Id, o: Object): State {
    s.(identity := s.identity[o := id], session := s.session[o := s.started], started := s.started + 1,
       h := s.h.(holder := s.h.holder[o := Held(t)], owner := s.h.owner[s.started := o]))
  }

  /** m.conversations[id] = o */
  function MapTo(s: State, id: Id, o: Object): State {
    var holder := if id in s.conversations then s.h.holder[s.conversations[id] := Nobody] else s.h.holder;
    s.(conversations := s.conversations[id := o],
       h := s.h.(holder := holder[o := TheMap], published := s.h.published + {o}))
  }

  /** delete(m.conversations, id); the token of the object goes to `to`. */
  function Unmap(s: State, id: Id, to: Holder): State {
    if id in s.conversations then
      s.(conversations := s.conversations - {id}, h := s.h.(holder := s.h.holder[s.conversations[id] := to]))
    else s
  }

  function Close(s: State, x: Session): State {
    s.(closed := s.closed + {x})
  }

  function Retire(s: State, o: Object): State {
    s.(h := s.h.(retired := s.h.retired + {o}))
  }

  function MarkRestored(s: State, o: Object): State {
    s.(h := s.h.(restored := s.h.restored + {o}))
  }

  /** A won compare-and-swap of the active flag. */
  function RaiseFlag(s: State, t: OpId, o: Object): State {
    s.(active := s.active + {o}, h := s.h.(flagger := s.h.flagger[o := t]))
  }

  /** active.Store(false) */
  function ClearFlag(s: State, o: Object): State {
    s.(active := s.active - {o})
  }

  /** replaceSession with a session started just now. */
  function ReplaceSession(s: State, o: Object): State {
    s.(session := s.session[o := s.started], started := s.started + 1, h := s.h.(owner := s.h.owner[s.started := o]))
  }

  /** The lock, and the object its holder found idle and is about to unmap. */
  function SetLock(s: State, lock: Option<OpId>, pending: Option<Object>): State {
    s.(lock := lock, h := s.h.(pending := pending))
  }

  // ---------------------------------------------------------------- steps

  /** conversation(): look the id up, start or resume an object, publish it. */
  ghost predicate AcquireStep(s: State, s': State, t: OpId, op: Op)
    requires op.Send?
  {
    match op.at
    case Lookup =>
      || (s.lock == None && op.id in s.conversations
          && s' == At(s, t, op.(at := Holding, o := s.conversations[op.id])))
      || (exists o :: o !in s.identity && s' == At(StartObject(s, t, op.id, o), t, op.(at := Created, o := o)))
      || s' == At(s, t, Finished)
    case Generate =>
      || (exists o :: o !in s.identity && s' == At(StartObject(s, t, op.id, o), t, op.(at := Generated, o := o)))
      || s' == At(s, t, Finished)
    case Created =>
      && s.lock == None && op.o in s.session
      && s' == if op.id in s.conversations
               then At(Close(s, s.session[op.o]), t, op.(at := Holding, o := s.conversations[op.id]))
               else At(MapTo(s, op.id, op.o), t, op.(at := Holding))
    case Generated =>
      || (s.lock == None && s' == At(MapTo(s, op.id, op.o), t, op.(at := Holding)))
      // the new conversation could not be persisted
      || (op.o in s.session && s' == At(Close(s, s.session[op.o]), t, Finished))
    case _ => false
  }

  /** Setting the flag, rechecking the map, and the deferred clearing of the flag. */
  ghost predicate FlagStep(s: State, s': State, t: OpId, op: Op)
    requires op.Send?
  {
    match op.at
    case Holding =>
      || (op.o !in s.active && s' == At(RaiseFlag(s, t, op.o), t, op.(at := Flagged)))
      || s' == At(s, t, Finished)
    case Flagged =>
      && s.lock == None
      && s' == At(s, t, op.(at := if IsMapped(s, op.id, op.o) then Passed else Clearing))
    case Clearing => s' == At(ClearFlag(s, op.o), t, Finished)
    case _ => false
  }

  /** The turn itself: it may replace its session once and may drop its conversation. */
  ghost predicate TurnStep(s: State, s': State, t: OpId, op: Op)
    requires op.Send?
  {
    match op.at
    case Passed =>
      || (op.o in s.session && s' == At(s, t, op.(at := Running, x := s.session[op.o])))
      || DropStep(s, s', t, op)
      || s' == At(s, t, op.(at := Clearing))
    case Running =>
      || s' == At(ReplaceSession(s, op.o), t, op.(at := Replaced))
      || DropStep(s, s', t, op)
      || s' == At(s, t, op.(at := Clearing))
    case Replaced =>
      op.o in s.session && s' == At(Close(s, op.x), t, op.(at := Retrying, x := s.session[op.o]))
    case Retrying =>
      || DropStep(s, s', t, op)
      || s' == At(s, t, op.(at := Clearing))
    case Dropping =>
      op.o in s.session && s' == At(Close(s, s.session[op.o]), t, op.(at := Clearing))
    case _ => false
  }

  /** The critical section of dropConversation. */
  predicate DropStep(s: State, s': State, t: OpId, op: Op)
    requires op.Send?
  {
    && s.lock == None
    && s' == At(if IsMapped(s, op.id, op.o) then Unmap(s, op.id, Nobody) else s, t, op.(at := Dropping))
  }

  /** One step of a DeleteConversation. */
  predicate DeleteStep(s: State, s': State, t: OpId, op: Op)
    requires op.Delete?
  {
    match op.point
    case Find =>
      && s.lock == None
      && s' == At(Unmap(s, op.id, Held(t)), t,
                  if op.id in s.conversations then op.(point := Taken, o := s.conversations[op.id]) else Finished)
    case Taken =>
      s' == if op.o in s.active then At(s, t, op.(point := Restoring))
            else At(Retire(s, op.o), t, op.(point := Closing))
    case Restoring =>
      && s.lock == None
      && s' == At(MapTo(MarkRestored(s, op.o), op.id, op.o), t, Finished)
    case Closing =>
      op.o in s.session && s' == At(Close(s, s.session[op.o]), t, Finished)
  }

  /** One step of a reaper sweep; which idle objects it picks is left open. */
  ghost predicate ReapStep(s: State, s': State, t: OpId, op: Op)
    requires op.Reap?
  {
    match op.phase
    case Start =>
      s.lock == None && s' == At(SetLock(s, Some(t), None), t, op.(phase := Scanning, batch := {}))
    case Scanning =>
      || (exists id :: && id in s.conversations && s.conversations[id] !in s.active
                       && s' == At(SetLock(s, Some(t), Some(s.conversations[id])), t,
                                   op.(phase := Checked, id := id, o := s.conversations[id])))
      || s' == At(SetLock(s, None, None), t, op.(phase := Sweeping))
    case Checked =>
      s' == At(SetLock(Retire(Unmap(s, op.id, Held(t)), op.o), Some(t), None),
               t, op.(phase := Scanning, batch := op.batch + {op.o}))
    case Sweeping =>
      || (exists o :: && o in op.batch && o in s.session
                      && s' == At(Close(s, s.session[o]), t, op.(batch := op.batch - {o})))
      || (op.batch == {} && s' == At(s, t, Finished))
  }

  ghost predicate StepOf(s: State, s': State, t: OpId) {
    && t in s.ops
    && var op := s.ops[t];
    || (op.Send? && (AcquireStep(s, s', t, op) || FlagStep(s, s', t, op) || TurnStep(s, s', t, op)))
    || (op.Delete? && DeleteStep(s, s', t, op))
    || (op.Reap? && ReapStep(s, s', t, op))
  }

  ghost predicate Next(s: State, s': State) {
    exists t :: StepOf(s, s', t)
  }

  ghost predicate StepAt(run: seq<State>, i: int) {
    0 < i < |run| && Next(run[i - 1], run[i])
  }

  /** A run: any interleaving of any number of operations. */
  ghost predicate Run(run: seq<State>) {
    && run != []
    && Init(run[0])
    && forall i | 0 < i < |run| :: StepAt(run, i)
  }
}
