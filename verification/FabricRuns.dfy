/** States the command fabric does reach: publish calls that are lost, commands consumed before their publication is
    recorded, and commands started again after they were answered. */
module FabricRuns {
  import opened Wrappers
  import opened Tables
  import opened OutboxPublisher
  import opened CommandFabric
  import opened FabricInvariant
  import opened FabricAnswers
  import CS = CommandService
  import RC = ResultConsumer

  ghost predicate Reachable(w: World) { exists trace: seq<World> :: IsRun(trace) && trace[|trace| - 1] == w }

  lemma Start0()
    ensures Reachable(INITIAL)
  {
    assert IsRun([INITIAL]);
  }

  lemma OneMoreStep(w: World, step: Step)
    requires Reachable(w) && Enabled(w, step)
    ensures Reachable(Apply(w, step))
  {
    var trace: seq<World> :| IsRun(trace) && trace[|trace| - 1] == w;
    var next := Apply(w, step);
    var more := trace + [next];
    forall i | 0 <= i < |more| - 1 ensures Follows(more[i], more[i + 1]) {
      if i < |trace| - 1 {
        assert more[i] == trace[i] && more[i + 1] == trace[i + 1];
      } else {
        assert more[i] == w && more[i + 1] == next;
      }
    }
    assert IsRun(more) && more[|more| - 1] == next;
  }

  lemma ReachableIsConsistent(w: World)
    requires Reachable(w)
    ensures Inv(w)
  {
    var trace: seq<World> :| IsRun(trace) && trace[|trace| - 1] == w;
    EveryReachableStateIsConsistent(trace, |trace| - 1);
  }

  // ---- Starting again ----

  /** What may follow once a command can be started: it is answered, and then it is started again and stuck. */
  ghost predicate Sticks(w: World, answered: World, e: Envelope) {
    && Reachable(answered) && answered.sent == w.sent && answered.attempts == w.attempts
       && answered.db.outbox == w.db.outbox
    && e.commandId in answered.db.commands && Answered(answered.db.commands[e.commandId].status)
    && Enabled(answered, Start(e)) && Reachable(Apply(answered, Start(e)))
    && Stuck(Apply(answered, Start(e)).db, e.commandId)
  }

  lemma StartAndFinish(w: World, e: Envelope, m: RC.Message)
    requires Reachable(w) && Enabled(w, Start(e)) && IsReport(e, m)
    ensures var begun := Apply(w, Start(e));
            Enabled(begun, Finish(e, m)) && Reachable(Apply(begun, Finish(e, m)))
  {
    OneMoreStep(w, Start(e));
    OneMoreStep(Apply(w, Start(e)), Finish(e, m));
  }

  lemma AnswerAndRestart(w: World, e: Envelope, m: RC.Message)
    requires Reachable(w) && m in w.results && IsReport(e, m) && Enabled(w, Start(e)) && RC.ResultKey(e) !in w.db.inbox
    ensures Sticks(w, Apply(w, Deliver(m)), e)
  {
    var answered := Apply(w, Deliver(m));
    ReachableIsConsistent(w);
    ReportCountsIffFirst(w, m);
    RC.ConsumeOnCommands(w.db, m);
    OneMoreStep(w, Deliver(m));
    ReachableIsConsistent(answered);
    RestartAfterAnswerSticks(answered, e);
    OneMoreStep(answered, Start(e));
  }

  /** Every command that can be started in a reachable state, with its conversation open, can end this way, whatever its
      result: answered, then PROCESSING and stuck. */
  lemma EveryStartedCommandCanStick(w: World, e: Envelope, m: RC.Message)
    requires Reachable(w) && Enabled(w, Start(e)) && RC.ResultKey(e) !in w.db.inbox && IsReport(e, m)
    ensures exists answered: World :: Sticks(w, answered, e)
  {
    var begun := Apply(w, Start(e));
    var reported := Apply(begun, Finish(e, m));
    StartAndFinish(w, e, m);
    AnswerAndRestart(reported, e, m);
    assert Sticks(w, Apply(reported, Deliver(m)), e);
  }

  // ---- One command ----

  /** A command whose submission projects nothing. */
  predicate IsCommand(e: Envelope) {
    CS.Registered(e.target) && e.correlation != "" && e.commandId != "" && !CS.IsRequest(e) && !CS.IsAssignment(e)
  }

  function Stored(e: Envelope, status: CommandStatus): map<CommandId, Command> {
    map[e.commandId := Command(e, None, status, None)]
  }

  function Entry(e: Envelope, status: OutboxStatus): seq<OutboxEntry> { [OutboxEntry(e, status, 0, 0)] }

  /** The tables with this one command. */
  function Only(e: Envelope, status: CommandStatus, published: OutboxStatus): Db {
    Db(Stored(e, status), Entry(e, published), {}, map[], [])
  }

  const ROW := Row(0, 0)

  function Submitted(e: Envelope): World { World(Only(e, QUEUED, PENDING), [], None, [0], [0], {}, {}, {}, {}) }

  function Fetched(e: Envelope): World { Submitted(e).(batch := [ROW]) }

  function Sending(e: Envelope): World { Submitted(e).(calling := Some(ROW), attempts := [1], sent := {e}) }

  function Published(e: Envelope): World { World(Only(e, DISPATCHED, PUBLISHED), [], None, [1], [0], {e}, {}, {}, {}) }

  lemma SubmitFirst(e: Envelope)
    requires IsCommand(e)
    ensures Reachable(Submitted(e))
  {
    var step := Submit(e, None, "", CS.Supply(e.commandId, "", 0, "", Null));
    Start0();
    assert Enabled(INITIAL, step) && Submitted(e) == Apply(INITIAL, step);
    OneMoreStep(INITIAL, step);
  }

  lemma OneElement()
    ensures Elements([0]) == {0}
  {
    var rows: seq<nat> := [0];
    assert rows[0] in Elements(rows);
    assert forall x | x in Elements(rows) :: x == 0;
  }

  /** The only row is fetched whenever it waits, whatever else the world holds. */
  lemma FetchOnly(w: World, e: Envelope)
    requires w.db.outbox == Entry(e, PENDING) && w.batch == [] && w.calling == None
    ensures Enabled(w, Fetch(1, [0])) && Apply(w, Fetch(1, [0])) == w.(batch := [ROW])
  {
    OneElement();
    assert Pending(w.db.outbox) == {0};
    assert Enabled(w, Fetch(1, [0]));
    assert Apply(w, Fetch(1, [0])).batch == [ROW];
  }

  lemma SendOnly(w: World, e: Envelope)
    requires w.db.outbox == Entry(e, PENDING) && w.batch == [ROW] && w.calling == None && |w.attempts| == 1
    ensures Enabled(w, Send)
    ensures Apply(w, Send) ==
            w.(batch := [], calling := Some(ROW), attempts := [w.attempts[0] + 1], sent := w.sent + {e})
  {
  }

  lemma RecordOnly(w: World, e: Envelope, status: CommandStatus)
    requires w.db == Only(e, status, PENDING) && w.calling == Some(ROW)
    ensures Enabled(w, Record(Confirmed))
    ensures Apply(w, Record(Confirmed)) ==
            w.(db := Only(e, if status == QUEUED then DISPATCHED else status, PUBLISHED), calling := None)
  {
    var after := Apply(w, Record(Confirmed)).db;
    assert after.commands == Stored(e, if status == QUEUED then DISPATCHED else status);
    assert after.outbox == Entry(e, PUBLISHED);
  }

  lemma SendFirst(e: Envelope)
    requires IsCommand(e)
    ensures Reachable(Fetched(e)) && Reachable(Sending(e))
  {
    SubmitFirst(e);
    FetchOnly(Submitted(e), e);
    OneMoreStep(Submitted(e), Fetch(1, [0]));
    SendIt(e);
    OneMoreStep(Fetched(e), Send);
  }

  lemma SendIt(e: Envelope)
    ensures Enabled(Fetched(e), Send) && Apply(Fetched(e), Send) == Sending(e)
  {
    SendOnly(Fetched(e), e);
    assert {e} == {} + {e};
  }

  lemma LoseOnly(w: World)
    requires w.calling == Some(ROW) && w.batch == [] && w.lost == [0]
    ensures Enabled(w, Lose) && Apply(w, Lose) == w.(calling := None, lost := [1])
  {
  }

  lemma PublishFirst(e: Envelope)
    requires IsCommand(e)
    ensures Reachable(Published(e))
  {
    SendFirst(e);
    RecordOnly(Sending(e), e, QUEUED);
    assert Published(e) == Apply(Sending(e), Record(Confirmed));
    OneMoreStep(Sending(e), Record(Confirmed));
  }

  // ---- A lost call ----

  /** The message is with the broker, but the publisher was stopped before it could record so. */
  function LostCall(e: Envelope): World { Submitted(e).(attempts := [1], lost := [1], sent := {e}) }

  function PublishedTwice(e: Envelope): World { Published(e).(attempts := [2], lost := [1]) }

  lemma LoseFirst(e: Envelope)
    requires IsCommand(e)
    ensures Reachable(LostCall(e))
  {
    SendFirst(e);
    LoseOnly(Sending(e));
    OneMoreStep(Sending(e), Lose);
  }

  /** Every command can lose its publish call, after which its row still waits without a trace of it, and be published
      again: two calls, one of them shown. */
  lemma LostCallIsRepeated(e: Envelope)
    requires IsCommand(e)
    ensures Reachable(LostCall(e)) && Waiting(LostCall(e).db.outbox[0])
            && LostCall(e).attempts[0] == 1 && Shown(LostCall(e).db.outbox[0]) == 0
    ensures Reachable(PublishedTwice(e)) && PublishedTwice(e).db.outbox[0].status == PUBLISHED
            && PublishedTwice(e).attempts[0] == 2 && Shown(PublishedTwice(e).db.outbox[0]) == 1
  {
    LoseFirst(e);
    var w := LostCall(e);
    FetchOnly(w, e);
    OneMoreStep(w, Fetch(1, [0]));
    SendOnly(w.(batch := [ROW]), e);
    OneMoreStep(w.(batch := [ROW]), Send);
    var again := w.(calling := Some(ROW), attempts := [2]);
    assert again == Apply(w.(batch := [ROW]), Send);
    RecordOnly(again, e, QUEUED);
    assert PublishedTwice(e) == Apply(again, Record(Confirmed));
    OneMoreStep(again, Record(Confirmed));
  }

  // ---- Consumed before it is recorded ----

  function StartedEarly(e: Envelope): World { Sending(e).(db := Only(e, PROCESSING, PENDING), started := {e}) }

  function RecordedLate(e: Envelope): World { StartedEarly(e).(db := Only(e, PROCESSING, PUBLISHED), calling := None) }

  /** A command can be PROCESSING while its row still waits to be recorded; the record then leaves its status alone. */
  lemma ConsumedBeforeRecorded(e: Envelope)
    requires IsCommand(e)
    ensures Reachable(StartedEarly(e)) && Reachable(RecordedLate(e))
    ensures RecordedLate(e) == Apply(StartedEarly(e), Record(Confirmed))
  {
    SendFirst(e);
    assert Enabled(Sending(e), Start(e));
    assert Apply(Sending(e), Start(e)).db == StartedEarly(e).db;
    assert Apply(Sending(e), Start(e)) == StartedEarly(e);
    OneMoreStep(Sending(e), Start(e));
    RecordOnly(StartedEarly(e), e, PROCESSING);
    OneMoreStep(StartedEarly(e), Record(Confirmed));
  }

  // ---- Concrete commands ----

  function Example(target: string): Envelope { Envelope("c", "UPDATE_DEAL", target, "deal", "1", map[], "k") }

  function ExampleReport(target: string): RC.Message {
    RC.Message(Some(RC.RESULT), Some("c"), Some("c"), Some("k"), Some(target), Some("UPDATE_DEAL"), Some("deal"),
               Some("1"), Some("FAILED"), None, None, None, None, None, true)
  }

  lemma ExampleIsReport(target: string)
    requires CS.Registered(target)
    ensures IsCommand(Example(target)) && IsReport(Example(target), ExampleReport(target))
  {
    RegisteredIsLower(target);
  }

  lemma SentCanStick(e: Envelope, m: RC.Message)
    requires IsCommand(e) && IsReport(e, m)
    ensures exists answered: World :: Sticks(Published(e), answered, e)
  {
    PublishFirst(e);
    EveryStartedCommandCanStick(Published(e), e, m);
  }

  /** A command of the ma service that is delivered a second time after its result was recorded. */
  lemma StuckIsReachable()
    ensures exists answered: World :: Sticks(Published(Example("ma")), answered, Example("ma"))
  {
    ExampleIsReport("ma");
    SentCanStick(Example("ma"), ExampleReport("ma"));
  }

  function Recovered(e: Envelope): World { Submitted(e).(recovered := {e}) }

  lemma RecoverFirst(e: Envelope)
    requires IsCommand(e) && e.target == "administration"
    ensures Reachable(Recovered(e)) && Enabled(Recovered(e), Start(e))
  {
    SubmitFirst(e);
    assert Enabled(Submitted(e), Recover(e)) && Recovered(e) == Apply(Submitted(e), Recover(e));
    OneMoreStep(Submitted(e), Recover(e));
  }

  /** Every command that a recovery reads can stick. */
  lemma RecoveredCanStick(e: Envelope, m: RC.Message)
    requires IsCommand(e) && e.target == "administration" && IsReport(e, m)
    ensures Recovered(e).sent == {} && Recovered(e).attempts == [0]
    ensures exists answered: World :: Sticks(Recovered(e), answered, e)
  {
    RecoverFirst(e);
    EveryStartedCommandCanStick(Recovered(e), e, m);
  }

  /** A recovery starts every command it reads twice. The second start can make it stuck although it was never sent:
      nothing in its outbox row shows that it ran. */
  lemma RecoveredCommandSticks()
    ensures Recovered(Example("administration")).sent == {} && Recovered(Example("administration")).attempts == [0]
    ensures exists answered: World :: Sticks(Recovered(Example("administration")), answered, Example("administration"))
  {
    ExampleIsReport("administration");
    RecoveredCanStick(Example("administration"), ExampleReport("administration"));
  }
}
