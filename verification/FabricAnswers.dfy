/** Which commands of the fabric are ever answered: the first report of a conversation counts, a command whose
    conversation is closed never is, and neither is any retry (services/integration/result_consumer.py,
    command_service.py). */
module FabricAnswers {
  import opened Wrappers
  import opened Tables
  import opened CommandFabric
  import opened FabricInvariant
  import CS = CommandService
  import RC = ResultConsumer
  import Text
  import Runs

  // ---- Which commands are ever answered ----

  predicate Answered(status: CommandStatus) { status in {SUCCEEDED, FAILED} }

  /** Exactness: the report of a processor settles its command if and only if no report with the same service and
      correlation id has been recorded before; otherwise it changes nothing at all. */
  lemma ReportCountsIffFirst(w: World, m: RC.Message)
    requires Inv(w) && m in w.results
    ensures var c, next := m.commandUuid.value, RC.Consume(w.db, m);
            && c in w.db.commands && RC.InboxKey(m) == RC.ResultKey(w.db.commands[c].envelope)
            && (if RC.InboxKey(m) in w.db.inbox then next == w.db
                else Answered(next.commands[c].status) && RC.InboxKey(m) in next.inbox)
  {
    var c := m.commandUuid.value;
    var e := w.db.commands[c].envelope;
    assert IsReport(e, m);
    RC.AnswersHaveResultKey(m, e);
    ReportedStatus(m);
    assert m.commandId == Some(c) && c != "";
  }

  /** A command that has no answer although its conversation is closed. */
  predicate Stuck(db: Db, c: CommandId) {
    c in db.commands && !Answered(db.commands[c].status) && RC.ResultKey(db.commands[c].envelope) in db.inbox
  }

  lemma DeliveryKeepsStuck(w: World, m: RC.Message, c: CommandId)
    requires Inv(w) && Stuck(w.db, c) && (m in w.results || !RC.IsResult(m))
    ensures Stuck(RC.Consume(w.db, m), c)
  {
    var e := w.db.commands[c].envelope;
    RC.ConsumeKeepsCommand(w.db, m, e);
  }

  lemma StepKeepsStuck(w: World, step: Step, c: CommandId)
    requires Inv(w) && Enabled(w, step) && Stuck(w.db, c)
    ensures Stuck(Apply(w, step).db, c)
  {
    if step.Deliver? {
      DeliveryKeepsStuck(w, step.message, c);
    }
  }

  /** Stuck, and PROCESSING if it was so from the start. */
  ghost predicate StuckSince(w: World, c: CommandId, processing: bool) {
    Inv(w) && Stuck(w.db, c) && (processing ==> w.db.commands[c].status == PROCESSING)
  }

  lemma StuckSinceKept(a: World, b: World, c: CommandId, processing: bool)
    requires StuckSince(a, c, processing) && Follows(a, b)
    ensures StuckSince(b, c, processing)
  {
    var step :| Enabled(a, step) && b == Apply(a, step);
    StepKeepsStuck(a, step, c);
    FollowingKeepsInv(a, b);
    assert MovesOn(a.db.commands[c], b.db.commands[c]);
    StatusIsKnown(b, c);
  }

  lemma StatusIsKnown(w: World, c: CommandId)
    requires Inv(w) && c in w.db.commands
    ensures w.db.commands[c].status in {QUEUED, DISPATCHED, PROCESSING, SUCCEEDED, FAILED}
  {
  }

  /** Over any run, a command whose conversation is closed without an answer to it is never answered: this is what
      happens to a command started again after its result was recorded, which stays PROCESSING, and to a retry, which
      reuses the correlation id of the command it repeats. */
  lemma StuckForever(trace: seq<World>, i: nat, j: nat, c: CommandId)
    requires IsRun(trace) && i <= j < |trace| && Stuck(trace[i].db, c)
    ensures Stuck(trace[j].db, c)
    ensures trace[i].db.commands[c].status == PROCESSING ==> trace[j].db.commands[c].status == PROCESSING
  {
    var follows := (a: World, b: World) => Follows(a, b);
    var processing := trace[i].db.commands[c].status == PROCESSING;
    var inv := (w: World) => StuckSince(w, c, processing);
    EveryReachableStateIsConsistent(trace, i);
    forall a: World, b: World | inv(a) && follows(a, b) ensures inv(b) {
      StuckSinceKept(a, b, c, processing);
    }
    Runs.KeptByRun(trace, follows, inv, i, j);
  }

  /** Starting a command again after its result was recorded makes it stuck, whatever that result was. */
  lemma RestartAfterAnswerSticks(w: World, e: Envelope)
    requires Inv(w) && Enabled(w, Start(e)) && RC.ResultKey(e) in w.db.inbox
    ensures Stuck(Apply(w, Start(e)).db, e.commandId)
            && Apply(w, Start(e)).db.commands[e.commandId].status == PROCESSING
  {
    assert Known(w.db.commands, e);
  }

  // ---- Answers are recorded ----

  /** Every command is for a service with a processor, and an answered one has its result recorded in the inbox. */
  ghost predicate AnswersRecorded(db: Db) {
    forall c | c in db.commands :: RecordOk(db.commands[c], db.inbox)
  }

  predicate RecordOk(command: Command, inbox: set<string>) {
    CS.Registered(command.envelope.target) && (Answered(command.status) ==> RC.ResultKey(command.envelope) in inbox)
  }

  lemma DeliveryRecords(w: World, m: RC.Message)
    requires Inv(w) && AnswersRecorded(w.db) && (m in w.results || !RC.IsResult(m))
    ensures AnswersRecorded(RC.Consume(w.db, m))
  {
    var after := RC.Consume(w.db, m);
    RC.ConsumeOnCommands(w.db, m);
    forall c | c in after.commands ensures RecordOk(after.commands[c], after.inbox) {
      assert RecordOk(w.db.commands[c], w.db.inbox);
      if after.commands[c] != w.db.commands[c] {
        ReportCountsIffFirst(w, m);
      }
      InboxGrows(w.db, m);
    }
  }

  lemma InboxGrows(db: Db, m: RC.Message)
    ensures db.inbox <= RC.Consume(db, m).inbox
  {
  }

  lemma SubmissionRecords(w: World, step: Step)
    requires Inv(w) && AnswersRecorded(w.db) && Enabled(w, step) && step.Submit?
    ensures AnswersRecorded(Apply(w, step).db)
  {
    InsertShape(w, step);
  }

  lemma StepRecords(w: World, step: Step)
    requires Inv(w) && AnswersRecorded(w.db) && Enabled(w, step)
    ensures AnswersRecorded(Apply(w, step).db)
  {
    if step.Deliver? {
      DeliveryRecords(w, step.message);
    } else if step.Submit? {
      SubmissionRecords(w, step);
    }
  }

  /** Over any run: exactly the commands whose result was recorded can be SUCCEEDED or FAILED, and no command is ever
      CANCELLED. */
  lemma AnsweredIsRecorded(trace: seq<World>, i: nat)
    requires IsRun(trace) && i < |trace|
    ensures Inv(trace[i]) && AnswersRecorded(trace[i].db)
    ensures forall c | c in trace[i].db.commands :: trace[i].db.commands[c].status != CANCELLED
  {
    var follows, inv := (a: World, b: World) => Follows(a, b), (w: World) => Inv(w) && AnswersRecorded(w.db);
    InitialInv();
    forall a: World, b: World | inv(a) && follows(a, b) ensures inv(b) {
      FollowingKeepsInv(a, b);
      var step :| Enabled(a, step) && b == Apply(a, step);
      StepRecords(a, step);
    }
    Runs.KeptByRun(trace, follows, inv, 0, i);
    forall c | c in trace[i].db.commands ensures trace[i].db.commands[c].status != CANCELLED {
      StatusIsKnown(trace[i], c);
    }
  }

  // ---- Retries ----

  /** What `retry_command` submits for a stored command. */
  function RetryStep(c: Command, key: string, displayName: string, validated: Option<Fields>, s: CS.Supply): Step
    requires validated.Some?
  {
    Submit(CS.EnvelopeFor(CS.RetryRequest(c, key, displayName, validated), s), Some(key), displayName, s)
  }

  lemma RegisteredIsLower(target: string)
    requires CS.Registered(target)
    ensures Text.Lower(target) == target
  {
    assert Text.IsLower("administration") && Text.IsLower("ma");
    Text.LowerOfLower(target);
  }

  lemma RetryReusesResultKey(
    w: World, original: CommandId, key: string, displayName: string, validated: Option<Fields>, s: CS.Supply)
    requires Inv(w) && AnswersRecorded(w.db) && original in w.db.commands && validated.Some?
    ensures RC.ResultKey(RetryStep(w.db.commands[original], key, displayName, validated, s).envelope) ==
            RC.ResultKey(w.db.commands[original].envelope)
  {
    assert RecordOk(w.db.commands[original], w.db.inbox);
    RegisteredIsLower(w.db.commands[original].envelope.target);
  }

  /** A retry of a command whose result was recorded is stuck from the start. */
  lemma RetryOfRecordedSticks(w: World, step: Step)
    requires Inv(w) && step.Submit? && Enabled(w, step) && Apply(w, step) != w
    requires RC.ResultKey(step.envelope) in w.db.inbox
    ensures Stuck(Apply(w, step).db, step.envelope.commandId)
  {
    InsertShape(w, step);
  }

  /** Main result on retries: in every reachable state, every retry that the guard of `retry_command` admits (the
      original is FAILED or CANCELLED) and that is stored is never answered in any later state. */
  lemma AcceptedRetryIsNeverAnswered(
    trace: seq<World>, i: nat, j: nat, original: CommandId, key: string, displayName: string, validated: Option<Fields>,
    s: CS.Supply)
    requires IsRun(trace) && i + 1 <= j < |trace| && validated.Some?
    requires original in trace[i].db.commands && trace[i].db.commands[original].status in {FAILED, CANCELLED}
    requires var step := RetryStep(trace[i].db.commands[original], key, displayName, validated, s);
             Enabled(trace[i], step) && trace[i + 1] == Apply(trace[i], step) && trace[i + 1] != trace[i]
    ensures Stuck(trace[j].db, s.commandId)
  {
    var w := trace[i];
    AnsweredIsRecorded(trace, i);
    assert RecordOk(w.db.commands[original], w.db.inbox);
    RetryReusesResultKey(w, original, key, displayName, validated, s);
    RetryOfRecordedSticks(w, RetryStep(w.db.commands[original], key, displayName, validated, s));
    StuckForever(trace, i + 1, j, s.commandId);
  }}
