/** Runs of the conversation protocol: a turn, a second object for one id, and a closed session in the map. */
module ConversationRuns {

  import opened Conversation
  import opened ConversationInvariant
  import opened ConversationOrphans

  lemma Extend(run: seq<State>, s: State, t: OpId)
    requires Run(run) && StepOf(run[|run| - 1], s, t)
    ensures Run(run + [s])
  {
    forall i | 0 < i < |run| ensures StepAt(run + [s], i) {
      assert StepAt(run, i);
    }
    assert StepAt(run + [s], |run|);
  }

  /** A chat that was never looked up, a deletion of it and a request for it. */
  function Ops(send: SendPoint, delete: Op): map<OpId, Op> {
    map[0 := Send(send, "c", 0, 0), 1 := delete, 2 := Send(Lookup, "c", 0, 0)]
  }

  function Start(): State {
    State(map[], None, map[], {}, map[], 0, {}, Ops(Generate, Delete(Find, "c", 0)),
          History(map[], {}, {}, {}, map[], map[], None))
  }

  /** One chat with one turn past its recheck, and a deletion about to start. */
  function OneTurn(): State {
    State(map["c" := 0], None, map[0 := "c"], {0}, map[0 := 0], 1, {}, Ops(Passed, Delete(Find, "c", 0)),
          History(map[0 := TheMap], {0}, {}, {}, map[0 := 0], map[0 := 0], None))
  }

  /** The first operation started the chat. */
  function Started(): State {
    State(map[], None, map[0 := "c"], {}, map[0 := 0], 1, {}, Ops(Generated, Delete(Find, "c", 0)),
          History(map[0 := Held(0)], {}, {}, {}, map[], map[0 := 0], None))
  }

  /** And published it. */
  function Chat(): State {
    State(map["c" := 0], None, map[0 := "c"], {}, map[0 := 0], 1, {}, Ops(Holding, Delete(Find, "c", 0)),
          History(map[0 := TheMap], {0}, {}, {}, map[], map[0 := 0], None))
  }

  lemma ChatStarts() returns (run: seq<State>)
    ensures Run(run) && run[|run| - 1] == Chat()
  {
    ChatIsStarted();
    ChatIsPublished();
    hide StepOf, Started, Chat;
    Extend([Start()], Started(), 0);
    Extend([Start()] + [Started()], Chat(), 0);
    run := [Start()] + [Started()] + [Chat()];
  }

  lemma ChatIsStarted()
    ensures StepOf(Start(), Started(), 0)
  {
    assert Started() == At(StartObject(Start(), 0, "c", 0), 0, Send(Generated, "c", 0, 0));
    assert AcquireStep(Start(), Started(), 0, Start().ops[0]);
  }

  lemma ChatIsPublished()
    ensures StepOf(Started(), Chat(), 0)
  {
    assert Chat() == At(MapTo(Started(), "c", 0), 0, Send(Holding, "c", 0, 0));
    assert AcquireStep(Started(), Chat(), 0, Started().ops[0]);
  }

  function Flag(): State {
    At(RaiseFlag(Chat(), 0, 0), 0, Send(Flagged, "c", 0, 0))
  }

  lemma TurnPasses()
    ensures StepOf(Flag(), OneTurn(), 0)
  {
    assert FlagStep(Flag(), OneTurn(), 0, Flag().ops[0]);
  }

  /** The turn of the first operation gets to run. */
  lemma OneTurnRuns() returns (run: seq<State>)
    ensures Run(run) && run[|run| - 1] == OneTurn() && IsTurn(OneTurn().ops[0])
  {
    run := ChatStarts();
    assert FlagStep(Chat(), Flag(), 0, Chat().ops[0]);
    assert StepOf(Chat(), Flag(), 0);
    TurnPasses();
    hide StepOf, Chat, Flag;
    Extend(run, Flag(), 0);
    Extend(run + [Flag()], OneTurn(), 0);
    run := run + [Flag()] + [OneTurn()];
  }

  /** The deletion removed the object and saw the flag of the turn. */
  function Window(): State {
    State(map[], None, map[0 := "c"], {0}, map[0 := 0], 1, {}, Ops(Passed, Delete(Restoring, "c", 0)),
          History(map[0 := Held(1)], {0}, {}, {}, map[0 := 0], map[0 := 0], None))
  }

  lemma WindowOpens() returns (run: seq<State>)
    ensures Run(run) && run[|run| - 1] == Window()
  {
    run := OneTurnRuns();
    var s0 := OneTurn();
    var s1 := At(Unmap(s0, "c", Held(1)), 1, Delete(Taken, "c", 0));
    assert DeleteStep(s0, s1, 1, s0.ops[1]) && DeleteStep(s1, Window(), 1, s1.ops[1]);
    Extend(run, s1, 1);
    Extend(run + [s1], Window(), 1);
    run := run + [s1] + [Window()];
  }

  /** A request finds no object for the id and starts one. */
  function SecondObject(): State {
    At(StartObject(Window(), 2, "c", 1), 2, Send(Created, "c", 1, 0))
  }

  /** It publishes it, while the deletion holds the first one. */
  function SecondChat(): State {
    At(MapTo(SecondObject(), "c", 1), 2, Send(Holding, "c", 1, 0))
  }

  lemma SecondObjectIsMapped() returns (run: seq<State>)
    ensures Run(run) && run[|run| - 1] == SecondChat()
  {
    run := WindowOpens();
    assert AcquireStep(Window(), SecondObject(), 2, Window().ops[2]);
    assert StepOf(Window(), SecondObject(), 2);
    SecondObjectIsPublished();
    hide StepOf, Window, SecondObject, SecondChat;
    Extend(run, SecondObject(), 2);
    Extend(run + [SecondObject()], SecondChat(), 2);
    run := run + [SecondObject()] + [SecondChat()];
  }

  lemma SecondObjectIsPublished()
    ensures StepOf(SecondObject(), SecondChat(), 2)
  {
    assert AcquireStep(SecondObject(), SecondChat(), 2, SecondObject().ops[2]);
  }

  function SecondFlag(): State {
    At(RaiseFlag(SecondChat(), 2, 1), 2, Send(Flagged, "c", 1, 0))
  }

  /** Two objects for one id, each with a turn of its own: the deletion holds the first, the second is mapped. */
  function Twins(): State {
    At(SecondFlag(), 2, Send(Passed, "c", 1, 0))
  }

  lemma TwinsInDetail()
    ensures var s := Twins();
            && s.identity == map[0 := "c", 1 := "c"] && s.session == map[0 := 0, 1 := 1] && s.closed == {}
            && s.h.holder == map[0 := Held(1), 1 := TheMap] && s.conversations == map["c" := 1]
            && s.ops == map[0 := Send(Passed, "c", 0, 0), 1 := Delete(Restoring, "c", 0), 2 := Send(Passed, "c", 1, 0)]
  {
    TwinOperations();
    hide At, RaiseFlag;
    TwinObjects();
  }

  lemma TwinOperations()
    ensures Twins().ops ==
            map[0 := Send(Passed, "c", 0, 0), 1 := Delete(Restoring, "c", 0), 2 := Send(Passed, "c", 1, 0)]
  {
  }

  lemma TwinObjects()
    ensures var s := Twins();
            && s.identity == map[0 := "c", 1 := "c"] && s.session == map[0 := 0, 1 := 1] && s.closed == {}
            && s.h.holder == map[0 := Held(1), 1 := TheMap] && s.conversations == map["c" := 1]
  {
  }

  /** A request wins the flag of the second object and passes the recheck, while the first turn is still running. */
  lemma SecondObjectAppears() returns (run: seq<State>)
    ensures Run(run) && run[|run| - 1] == Twins()
    ensures var s := Twins();
            && s.identity == map[0 := "c", 1 := "c"] && s.session == map[0 := 0, 1 := 1]
            && s.h.holder == map[0 := Held(1), 1 := TheMap] && IsMapped(s, "c", 1)
            && 0 in s.ops && IsTurn(s.ops[0]) && s.ops[0].o == 0 && 2 in s.ops && IsTurn(s.ops[2]) && s.ops[2].o == 1
            && 1 in s.ops && s.ops[1] == Delete(Restoring, "c", 0)
  {
    run := SecondObjectIsMapped();
    assert FlagStep(SecondChat(), SecondFlag(), 2, SecondChat().ops[2]);
    assert StepOf(SecondChat(), SecondFlag(), 2);
    SecondTurnPasses();
    TwinsInDetail();
    hide StepOf, SecondChat, SecondFlag, Twins;
    Extend(run, SecondFlag(), 2);
    Extend(run + [SecondFlag()], Twins(), 2);
    run := run + [SecondFlag()] + [Twins()];
  }

  lemma SecondTurnPasses()
    ensures StepOf(SecondFlag(), Twins(), 2)
  {
    assert FlagStep(SecondFlag(), Twins(), 2, SecondFlag().ops[2]);
  }

  function Restored(): State {
    At(MapTo(MarkRestored(Twins(), 0), "c", 0), 1, Finished)
  }

  /** Putting the first object back then takes the second one out of the map in the middle of its turn: nobody holds
      it, and neither the reaper nor a deletion will find its session. */
  lemma RestoreOrphansSecondObject() returns (run: seq<State>)
    ensures Run(run) && run[|run| - 1] == Restored()
    ensures var s := Restored();
            && IsMapped(s, "c", 0) && s.conversations.Keys == {"c"}
            && Orphan(s, 1) && 1 in s.session && s.session[1] !in s.closed
            && 2 in s.ops && IsTurn(s.ops[2]) && s.ops[2].o == 1
  {
    run := SecondObjectAppears();
    TwinsInDetail();
    assert DeleteStep(Twins(), Restored(), 1, Twins().ops[1]);
    Extend(run, Restored(), 1);
    run := run + [Restored()];
  }

  /** That turn ends. */
  function TurnEnding(): State {
    At(Restored(), 2, Send(Clearing, "c", 1, 0))
  }

  function TurnOver(): State {
    At(ClearFlag(TurnEnding(), 1), 2, Finished)
  }

  lemma TurnEnds()
    ensures StepOf(Restored(), TurnEnding(), 2)
  {
    TwinsInDetail();
    assert TurnStep(Restored(), TurnEnding(), 2, Restored().ops[2]);
  }

  lemma TurnIsOver()
    ensures StepOf(TurnEnding(), TurnOver(), 2)
  {
    hide Restored;
    assert FlagStep(TurnEnding(), TurnOver(), 2, TurnEnding().ops[2]);
  }

  lemma TurnOverLeaks()
    ensures Leaked(TurnOver(), 1, 1)
  {
    TwinsInDetail();
  }

  /** And the session of the second object leaks. */
  lemma RestoreLeaksSession() returns (run: seq<State>)
    ensures Run(run) && Leaked(run[|run| - 1], 1, 1)
  {
    run := RestoreOrphansSecondObject();
    TurnEnds();
    TurnIsOver();
    TurnOverLeaks();
    hide StepOf, Restored, TurnEnding, TurnOver, Leaked;
    Extend(run, TurnEnding(), 2);
    Extend(run + [TurnEnding()], TurnOver(), 2);
    run := run + [TurnEnding()] + [TurnOver()];
  }

  /** A deletion that meets a turn, refuses and puts the object back after the turn dropped it leaves a mapped object
      with a closed session and no operation left to repair it. */
  lemma RestoreCanMapClosedSession() returns (run: seq<State>)
    ensures Run(run)
    ensures var s := run[|run| - 1];
            && "c" in s.conversations && s.conversations["c"] in s.session &&
               s.session[s.conversations["c"]] in s.closed
            && forall t <- s.ops :: s.ops[t].Finished?
  {
    run := WindowOpens();
    var s0, send := Window(), Send(Dropping, "c", 0, 0);
    var s1 := At(s0, 0, send);
    var s2 := At(Close(s1, 0), 0, send.(at := Clearing));
    var s3 := At(MapTo(MarkRestored(s2, 0), "c", 0), 1, Finished);
    var s4 := At(ClearFlag(s3, 0), 0, Finished);
    var s5 := At(s4, 2, Finished);
    assert TurnStep(s0, s1, 0, s0.ops[0]) && TurnStep(s1, s2, 0, s1.ops[0]);
    assert DeleteStep(s2, s3, 1, s2.ops[1]) && FlagStep(s3, s4, 0, s3.ops[0]) && AcquireStep(s4, s5, 2, s4.ops[2]);
    Extend(run, s1, 0);
    Extend(run + [s1], s2, 0);
    Extend(run + [s1] + [s2], s3, 1);
    Extend(run + [s1] + [s2] + [s3], s4, 0);
    Extend(run + [s1] + [s2] + [s3] + [s4], s5, 2);
    run := run + [s1] + [s2] + [s3] + [s4] + [s5];
  }
}
