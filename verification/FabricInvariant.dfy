/** What every step of the command fabric keeps: commands and outbox agree, publish calls are accounted for, and only
    stored commands travel. */
module FabricInvariant {
  import opened Wrappers
  import opened Tables
  import opened OutboxPublisher
  import opened CommandFabric
  import CS = CommandService
  import RC = ResultConsumer
  import Text
  import Runs

  // ---- The invariant ----

  function Ids(outbox: seq<OutboxEntry>): set<CommandId> {
    set i | 0 <= i < |outbox| :: outbox[i].envelope.commandId
  }

  /** Commands and outbox entries correspond one to one and agree. */
  ghost predicate OneToOne(db: Db) {
    && db.commands.Keys == Ids(db.outbox)
    && (forall i, j | 0 <= i < j < |db.outbox| :: db.outbox[i].envelope.commandId != db.outbox[j].envelope.commandId)
    && (forall i | 0 <= i < |db.outbox| ::
          db.outbox[i].envelope.commandId in db.commands
          && db.commands[db.outbox[i].envelope.commandId].envelope == db.outbox[i].envelope)
  }

  ghost predicate UniqueKeys(commands: map<CommandId, Command>) {
    forall c, d | c in commands && d in commands && c != d && commands[c].key.Some? ::
        commands[c].key != commands[d].key
  }

  /** A queued command is not published; a dispatched one is. */
  ghost predicate StatusesCoupled(db: Db) {
    forall i | 0 <= i < |db.outbox| && db.outbox[i].envelope.commandId in db.commands ::
      var status := db.commands[db.outbox[i].envelope.commandId].status;
      && (status == QUEUED ==> db.outbox[i].status != PUBLISHED)
      && (status == DISPATCHED ==> db.outbox[i].status == PUBLISHED)
  }

  predicate InFlight(calling: Option<Row>, i: nat) { calling.Some? && calling.value.id == i }

  /** How many publish calls of a row its columns show. */
  function Shown(e: OutboxEntry): nat { e.retryCount + if e.status == PUBLISHED then 1 else 0 }

  predicate EntryOk(e: OutboxEntry, attempts: nat, lost: nat, inFlight: bool) {
    && (e.status == PENDING ==> e.retryCount < MAX_RETRIES)
    && (e.status == PUBLISHED ==> e.retryCount < MAX_RETRIES)
    && (e.status == GAVE_UP ==> e.retryCount == MAX_RETRIES)
    && attempts == Shown(e) + lost + if inFlight then 1 else 0
  }

  ghost predicate EntriesOk(outbox: seq<OutboxEntry>, attempts: seq<nat>, lost: seq<nat>, calling: Option<Row>) {
    && |attempts| == |outbox| == |lost|
    && (forall i: nat | i < |outbox| :: EntryOk(outbox[i], attempts[i], lost[i], InFlight(calling, i)))
  }

  /** The row being published and those still to be. */
  function InHand(calling: Option<Row>, batch: seq<Row>): seq<Row> {
    (if calling.Some? then [calling.value] else []) + batch
  }

  /** The rows in hand are pending and as they were read. */
  ghost predicate BatchCurrent(outbox: seq<OutboxEntry>, batch: seq<Row>) {
    && (forall i | 0 <= i < |batch| ::
          batch[i].id < |outbox| && outbox[batch[i].id].status == PENDING
          && outbox[batch[i].id].retryCount == batch[i].retryCount)
    && (forall i, j | 0 <= i < j < |batch| :: batch[i].id != batch[j].id)
  }

  predicate Known(commands: map<CommandId, Command>, e: Envelope) {
    e.commandId in commands && commands[e.commandId].envelope == e
  }

  predicate Begun(status: CommandStatus) { status in {PROCESSING, SUCCEEDED, FAILED} }

  /** Only stored commands travel or run, unaltered; a command has been begun exactly if its status says so; and every
      report is about a command that was begun. */
  ghost predicate NothingInvented(w: World) {
    TravelOk(w.db.commands, w.sent) && TravelOk(w.db.commands, w.recovered) && TravelOk(w.db.commands, w.started)
    && BegunOk(w.db.commands, w.started) && ReportsOk(w.db.commands, w.started, w.results)
  }

  ghost predicate TravelOk(commands: map<CommandId, Command>, envelopes: set<Envelope>) {
    forall e | e in envelopes :: Known(commands, e)
  }

  ghost predicate BegunOk(commands: map<CommandId, Command>, started: set<Envelope>) {
    forall c | c in commands ::
      && c != "" && commands[c].envelope.commandId == c && commands[c].envelope.correlation != ""
      && (if commands[c].envelope in started then Begun(commands[c].status)
         else commands[c].status in {QUEUED, DISPATCHED})
  }

  ghost predicate ReportsOk(commands: map<CommandId, Command>, started: set<Envelope>, results: set<RC.Message>) {
    forall m | m in results ::
      && m.commandUuid.Some? && m.commandUuid.value in commands
      && commands[m.commandUuid.value].envelope in started
      && IsReport(commands[m.commandUuid.value].envelope, m)
  }

  ghost predicate Inv(w: World) {
    && OneToOne(w.db) && UniqueKeys(w.db.commands) && StatusesCoupled(w.db)
    && EntriesOk(w.db.outbox, w.attempts, w.lost, w.calling)
    && BatchCurrent(w.db.outbox, InHand(w.calling, w.batch)) && NothingInvented(w)
  }

  /** What one step may do to a command: its contents stay, it never becomes queued again, and it becomes dispatched
      only from queued. */
  predicate MovesOn(before: Command, after: Command) {
    && after.envelope == before.envelope && after.key == before.key
    && (after.status == QUEUED ==> before.status == QUEUED)
    && (after.status == DISPATCHED ==> before.status in {QUEUED, DISPATCHED})
  }

  ghost predicate CommandsMoveOn(before: map<CommandId, Command>, after: map<CommandId, Command>) {
    forall c | c in before :: c in after && MovesOn(before[c], after[c])
  }

  // ---- Steps that only change statuses ----

  ghost predicate SameContents(a: map<CommandId, Command>, b: map<CommandId, Command>) {
    && a.Keys == b.Keys
    && (forall c | c in a :: b[c].envelope == a[c].envelope && b[c].key == a[c].key)
  }

  ghost predicate SameEnvelopes(a: seq<OutboxEntry>, b: seq<OutboxEntry>) {
    |a| == |b| && forall i | 0 <= i < |a| :: b[i].envelope == a[i].envelope
  }

  lemma StructureKept(a: Db, b: Db)
    requires OneToOne(a) && UniqueKeys(a.commands) && SameContents(a.commands, b.commands)
             && SameEnvelopes(a.outbox, b.outbox)
    ensures OneToOne(b) && UniqueKeys(b.commands)
  {
    assert forall c :: c in Ids(a.outbox) <==> exists i :: 0 <= i < |a.outbox| && a.outbox[i].envelope.commandId == c;
    assert Ids(a.outbox) == Ids(b.outbox);
  }

  lemma TravelsStillOk(a: map<CommandId, Command>, b: map<CommandId, Command>, envelopes: set<Envelope>)
    requires SameContents(a, b) && TravelOk(a, envelopes)
    ensures TravelOk(b, envelopes)
  {
  }

  lemma ReportsStillOk(
    a: map<CommandId, Command>, b: map<CommandId, Command>, started: set<Envelope>, more: set<Envelope>,
    results: set<RC.Message>)
    requires SameContents(a, b) && ReportsOk(a, started, results) && started <= more
    ensures ReportsOk(b, more, results)
  {
  }

  // ---- One lemma per kind of step ----

  lemma IdsOfOneMore(outbox: seq<OutboxEntry>, e: OutboxEntry)
    ensures Ids(outbox + [e]) == Ids(outbox) + {e.envelope.commandId}
  {
    var more := outbox + [e];
    forall c ensures c in Ids(more) <==> c in Ids(outbox) + {e.envelope.commandId} {
      if c in Ids(outbox) {
        var i :| 0 <= i < |outbox| && outbox[i].envelope.commandId == c;
        assert more[i].envelope.commandId == c;
      }
      if c == e.envelope.commandId {
        assert more[|outbox|].envelope.commandId == c;
      }
    }
  }

  lemma NewIdIsNew(db: Db, id: CommandId, i: nat)
    requires OneToOne(db) && id !in db.commands && i < |db.outbox|
    ensures db.outbox[i].envelope.commandId != id
  {
  }

  lemma AddCommand(a: Db, b: Db, command: Command, now: int)
    requires OneToOne(a) && UniqueKeys(a.commands) && StatusesCoupled(a)
    requires var e := command.envelope;
             && e.commandId !in a.commands && !CS.KeyTaken(a.commands, command.key) && command.status == QUEUED
             && b.commands == a.commands[e.commandId := command]
                && b.outbox == a.outbox + [OutboxEntry(e, PENDING, 0, now)]
    ensures OneToOne(b) && UniqueKeys(b.commands) && StatusesCoupled(b)
  {
    IdsOfOneMore(a.outbox, OutboxEntry(command.envelope, PENDING, 0, now));
    forall i | 0 <= i < |a.outbox| ensures a.outbox[i].envelope.commandId != command.envelope.commandId {
      NewIdIsNew(a, command.envelope.commandId, i);
    }
    AddKey(a.commands, command);
    AddCoupled(a, b, command, now);
  }

  lemma AddCoupled(a: Db, b: Db, command: Command, now: int)
    requires StatusesCoupled(a) && command.status == QUEUED
    requires forall i | 0 <= i < |a.outbox| :: a.outbox[i].envelope.commandId != command.envelope.commandId
    requires b.commands == a.commands[command.envelope.commandId := command]
    requires b.outbox == a.outbox + [OutboxEntry(command.envelope, PENDING, 0, now)]
    ensures StatusesCoupled(b)
  {
  }

  lemma AddKey(commands: map<CommandId, Command>, command: Command)
    requires UniqueKeys(commands) && !CS.KeyTaken(commands, command.key)
    ensures UniqueKeys(commands[command.envelope.commandId := command])
  {
  }

  lemma AddedCommandInvents(w: World, commands: map<CommandId, Command>, command: Command)
    requires NothingInvented(w) && command.envelope.commandId !in w.db.commands
    requires command.envelope.correlation != "" && command.envelope.commandId != ""
    requires command.status == QUEUED && commands == w.db.commands[command.envelope.commandId := command]
    ensures TravelOk(commands, w.sent) && TravelOk(commands, w.recovered) && TravelOk(commands, w.started)
    ensures BegunOk(commands, w.started) && ReportsOk(commands, w.started, w.results)
  {
  }

  lemma InsertShape(w: World, step: Step)
    requires Enabled(w, step) && step.Submit?
    ensures match CS.Insert(w.db, step.envelope, step.key, step.displayName, step.supply)
            case None => Apply(w, step) == w
            case Some(db) =>
              && step.envelope.commandId !in w.db.commands && !CS.KeyTaken(w.db.commands, step.key)
              && db.commands == w.db.commands[step.envelope.commandId := Command(step.envelope, step.key, QUEUED, None)]
              && db.outbox == w.db.outbox + [OutboxEntry(step.envelope, PENDING, 0, step.supply.now)]
              && Apply(w, step) == w.(db := db, attempts := w.attempts + [0], lost := w.lost + [0])
  {
  }

  lemma NewEntryOk(
    outbox: seq<OutboxEntry>, attempts: seq<nat>, lost: seq<nat>, calling: Option<Row>, batch: seq<Row>, e: Envelope,
    now: int)
    requires EntriesOk(outbox, attempts, lost, calling) && BatchCurrent(outbox, InHand(calling, batch))
    ensures EntriesOk(outbox + [OutboxEntry(e, PENDING, 0, now)], attempts + [0], lost + [0], calling)
    ensures BatchCurrent(outbox + [OutboxEntry(e, PENDING, 0, now)], InHand(calling, batch))
  {
    assert calling.Some? ==> InHand(calling, batch)[0] == calling.value;
  }

  lemma AdditionMovesOn(before: map<CommandId, Command>, command: Command)
    requires command.envelope.commandId !in before
    ensures CommandsMoveOn(before, before[command.envelope.commandId := command])
    ensures CommandsMoveOn(before, before)
  {
  }

  lemma SubmitKeepsInv(w: World, step: Step)
    requires Inv(w) && Enabled(w, step) && step.Submit?
    ensures Inv(Apply(w, step)) && CommandsMoveOn(w.db.commands, Apply(w, step).db.commands)
  {
    InsertShape(w, step);
    var next := Apply(w, step);
    if next != w {
      var command := Command(step.envelope, step.key, QUEUED, None);
      AddCommand(w.db, next.db, command, step.supply.now);
      AddedCommandInvents(w, next.db.commands, command);
      NewEntryOk(w.db.outbox, w.attempts, w.lost, w.calling, w.batch, step.envelope, step.supply.now);
      AdditionMovesOn(w.db.commands, command);
    }
  }

  lemma FetchKeepsInv(w: World, step: Step)
    requires Inv(w) && Enabled(w, step) && step.Fetch?
    ensures Inv(Apply(w, step)) && CommandsMoveOn(w.db.commands, Apply(w, step).db.commands)
  {
    assert forall i | 0 <= i < |step.rows| :: step.rows[i] in Elements(step.rows);
  }

  lemma PublishStructure(db: Db, row: Row, outcome: Outcome)
    requires OneToOne(db) && row.id < |db.outbox|
    ensures SameContents(db.commands, RecordRow(db, row, outcome).commands)
    ensures SameEnvelopes(db.outbox, RecordRow(db, row, outcome).outbox)
    ensures CommandsMoveOn(db.commands, RecordRow(db, row, outcome).commands)
  {
  }

  lemma PublishCouples(db: Db, row: Row, outcome: Outcome)
    requires OneToOne(db) && StatusesCoupled(db) && row.id < |db.outbox| && db.outbox[row.id].status == PENDING
    ensures StatusesCoupled(RecordRow(db, row, outcome))
  {
    var after := RecordRow(db, row, outcome);
    forall i | 0 <= i < |after.outbox| && after.outbox[i].envelope.commandId in after.commands
      ensures var status := after.commands[after.outbox[i].envelope.commandId].status;
              (status == QUEUED ==> after.outbox[i].status != PUBLISHED)
                  && (status == DISPATCHED ==> after.outbox[i].status == PUBLISHED)
    {
      assert i != row.id ==> db.outbox[i].envelope.commandId != db.outbox[row.id].envelope.commandId;
    }
  }

  lemma RecordCounts(
    outbox: seq<OutboxEntry>, attempts: seq<nat>, lost: seq<nat>, row: Row, batch: seq<Row>, outcome: Outcome)
    requires EntriesOk(outbox, attempts, lost, Some(row)) && BatchCurrent(outbox, [row] + batch) && row.id < |outbox|
    ensures var after := outbox[row.id := AfterAttempt(outbox[row.id], row, outcome)];
            EntriesOk(after, attempts, lost, None) && BatchCurrent(after, batch)
  {
    var all := [row] + batch;
    assert EntryOk(outbox[row.id], attempts[row.id], lost[row.id], true);
    forall i | 0 <= i < |batch| ensures batch[i] == all[i + 1] && batch[i].id != row.id {
      assert all[0].id != all[i + 1].id;
    }
  }

  lemma DispatchKeepsBegun(commands: map<CommandId, Command>, started: set<Envelope>, id: CommandId)
    requires BegunOk(commands, started)
    ensures BegunOk(Dispatch(commands, id), started)
  {
  }

  lemma CallIsCurrent(w: World)
    requires Inv(w) && w.calling.Some?
    ensures var id := w.calling.value.id;
            id < |w.db.outbox| && w.db.outbox[id].status == PENDING
                && w.db.outbox[id].retryCount == w.calling.value.retryCount
  {
    assert InHand(w.calling, w.batch)[0] == w.calling.value;
  }

  lemma SendKeepsInv(w: World, step: Step)
    requires Inv(w) && Enabled(w, step) && step.Send?
    ensures Inv(Apply(w, step)) && CommandsMoveOn(w.db.commands, Apply(w, step).db.commands)
  {
    var row := w.batch[0];
    assert [row] + w.batch[1..] == [] + w.batch;
    assert Known(w.db.commands, w.db.outbox[row.id].envelope);
  }

  lemma RecordKeepsInv(w: World, step: Step)
    requires Inv(w) && Enabled(w, step) && step.Record?
    ensures Inv(Apply(w, step)) && CommandsMoveOn(w.db.commands, Apply(w, step).db.commands)
  {
    var row, after := w.calling.value, RecordRow(w.db, w.calling.value, step.outcome);
    CallIsCurrent(w);
    PublishStructure(w.db, row, step.outcome);
    StructureKept(w.db, after);
    PublishCouples(w.db, row, step.outcome);
    RecordCounts(w.db.outbox, w.attempts, w.lost, row, w.batch, step.outcome);
    assert InHand(None, w.batch) == w.batch;
    TravelsStillOk(w.db.commands, after.commands, w.sent);
    TravelsStillOk(w.db.commands, after.commands, w.recovered);
    TravelsStillOk(w.db.commands, after.commands, w.started);
    ReportsStillOk(w.db.commands, after.commands, w.started, w.started, w.results);
    DispatchKeepsBegun(w.db.commands, w.started, w.db.outbox[row.id].envelope.commandId);
  }

  lemma LoseKeepsInv(w: World, step: Step)
    requires Inv(w) && Enabled(w, step) && step.Lose?
    ensures Inv(Apply(w, step)) && CommandsMoveOn(w.db.commands, Apply(w, step).db.commands)
  {
    CallIsCurrent(w);
  }

  lemma ProcessingStructure(db: Db, id: CommandId)
    requires OneToOne(db) && StatusesCoupled(db)
    ensures SameContents(db.commands, Processing(db.commands, id))
    ensures StatusesCoupled(db.(commands := Processing(db.commands, id)))
    ensures CommandsMoveOn(db.commands, Processing(db.commands, id))
  {
  }

  lemma StartIsRecorded(commands: map<CommandId, Command>, started: set<Envelope>, e: Envelope)
    requires BegunOk(commands, started) && Known(commands, e)
    ensures BegunOk(Processing(commands, e.commandId), started + {e})
  {
  }

  lemma StartKeepsInv(w: World, step: Step)
    requires Inv(w) && Enabled(w, step) && step.Start?
    ensures Inv(Apply(w, step)) && CommandsMoveOn(w.db.commands, Apply(w, step).db.commands)
  {
    var e := step.started;
    var commands := Processing(w.db.commands, e.commandId);
    assert Known(w.db.commands, e);
    ProcessingStructure(w.db, e.commandId);
    StructureKept(w.db, w.db.(commands := commands));
    TravelsStillOk(w.db.commands, commands, w.sent);
    TravelsStillOk(w.db.commands, commands, w.recovered);
    TravelsStillOk(w.db.commands, commands, w.started);
    ReportsStillOk(w.db.commands, commands, w.started, w.started + {e}, w.results);
    StartIsRecorded(w.db.commands, w.started, e);
  }

  lemma FinishKeepsInv(w: World, step: Step)
    requires Inv(w) && Enabled(w, step) && step.Finish?
    ensures Inv(Apply(w, step)) && CommandsMoveOn(w.db.commands, Apply(w, step).db.commands)
  {
    assert Known(w.db.commands, step.finished);
  }

  lemma ProjectKeepsInv(w: World, step: Step)
    requires Inv(w) && Enabled(w, step) && step.Project?
    ensures Inv(Apply(w, step)) && CommandsMoveOn(w.db.commands, Apply(w, step).db.commands)
  {
  }

  lemma RecoverKeepsInv(w: World, step: Step)
    requires Inv(w) && Enabled(w, step) && step.Recover?
    ensures Inv(Apply(w, step)) && CommandsMoveOn(w.db.commands, Apply(w, step).db.commands)
  {
  }

  lemma StopKeepsInv(w: World, step: Step)
    requires Inv(w) && Enabled(w, step) && step.Stop?
    ensures Inv(Apply(w, step)) && CommandsMoveOn(w.db.commands, Apply(w, step).db.commands)
  {
  }

  lemma ReportedStatus(m: RC.Message)
    requires m.result == Some("SUCCEEDED") || m.result == Some("FAILED")
    ensures StatusFromText(Text.Upper(m.result.value)) in {SUCCEEDED, FAILED}
  {
    assert Text.IsUpper("SUCCEEDED") && Text.IsUpper("FAILED");
    Text.UpperOfUpper(m.result.value);
  }

  /** `after` differs from `before` at most in commands of `begun`, which become SUCCEEDED or FAILED. */
  ghost predicate OnlyFinishes(
    before: map<CommandId, Command>, after: map<CommandId, Command>, started: set<Envelope>) {
    && SameContents(before, after)
    && (forall c | c in before ::
          after[c] == before[c] || (before[c].envelope in started && after[c].status in {SUCCEEDED, FAILED}))
  }

  lemma DeliverOnlyFinishes(w: World, m: RC.Message)
    requires ReportsOk(w.db.commands, w.started, w.results) && (m in w.results || !RC.IsResult(m))
    ensures OnlyFinishes(w.db.commands, RC.Consume(w.db, m).commands, w.started)
  {
    RC.ConsumeOnCommands(w.db, m);
    if m in w.results {
      ReportedStatus(m);
    }
  }

  lemma FinishesKeepStatuses(db: Db, after: Db, started: set<Envelope>)
    requires StatusesCoupled(db) && BegunOk(db.commands, started)
    requires OnlyFinishes(db.commands, after.commands, started) && after.outbox == db.outbox
    ensures StatusesCoupled(after) && BegunOk(after.commands, started) && CommandsMoveOn(db.commands, after.commands)
  {
  }

  lemma DeliverKeepsInv(w: World, step: Step)
    requires Inv(w) && Enabled(w, step) && step.Deliver?
    ensures Inv(Apply(w, step)) && CommandsMoveOn(w.db.commands, Apply(w, step).db.commands)
  {
    var after := RC.Consume(w.db, step.message);
    DeliverOnlyFinishes(w, step.message);
    RC.ConsumeOnCommands(w.db, step.message);
    StructureKept(w.db, after);
    FinishesKeepStatuses(w.db, after, w.started);
    TravelsStillOk(w.db.commands, after.commands, w.sent);
    TravelsStillOk(w.db.commands, after.commands, w.recovered);
    TravelsStillOk(w.db.commands, after.commands, w.started);
    ReportsStillOk(w.db.commands, after.commands, w.started, w.started, w.results);
  }

  lemma StepKeepsInv(w: World, step: Step)
    requires Inv(w) && Enabled(w, step)
    ensures Inv(Apply(w, step)) && CommandsMoveOn(w.db.commands, Apply(w, step).db.commands)
  {
    match step {
      case Submit(_, _, _, _) => SubmitKeepsInv(w, step);
      case Fetch(_, _) => FetchKeepsInv(w, step);
      case Send => SendKeepsInv(w, step);
      case Record(_) => RecordKeepsInv(w, step);
      case Lose => LoseKeepsInv(w, step);
      case Stop => StopKeepsInv(w, step);
      case Recover(_) => RecoverKeepsInv(w, step);
      case Start(_) => StartKeepsInv(w, step);
      case Deliver(_) => DeliverKeepsInv(w, step);
      case Finish(_, _) => FinishKeepsInv(w, step);
      case Project(_) => ProjectKeepsInv(w, step);
    }
  }

  // ---- Runs ----

  ghost predicate Follows(w: World, next: World) {
    exists step :: Enabled(w, step) && next == Apply(w, step)
  }

  /** A run from the empty tables: each world follows from the one before by an enabled step. */
  ghost predicate IsRun(trace: seq<World>) {
    Runs.IsRun(trace, (a: World, b: World) => Follows(a, b)) && trace[0] == INITIAL
  }

  lemma InitialInv()
    ensures Inv(INITIAL)
  {
  }

  lemma FollowingKeepsInv(w: World, next: World)
    requires Inv(w) && Follows(w, next)
    ensures Inv(next) && CommandsMoveOn(w.db.commands, next.db.commands)
  {
    var step :| Enabled(w, step) && next == Apply(w, step);
    StepKeepsInv(w, step);
  }

  /** Main result: in every state of every run from the empty tables, commands and outbox entries correspond one to one
      with at most one command per idempotency key; their statuses are coupled; the publish calls of a row are those it
      shows, those lost and the one in flight; and only stored commands are ever executed, unaltered. */
  lemma EveryReachableStateIsConsistent(trace: seq<World>, i: nat)
    requires IsRun(trace) && i < |trace|
    ensures Inv(trace[i])
  {
    var follows, inv := (a: World, b: World) => Follows(a, b), (w: World) => Inv(w);
    InitialInv();
    forall a: World, b: World | inv(a) && follows(a, b) ensures inv(b) {
      FollowingKeepsInv(a, b);
    }
    Runs.KeptByRun(trace, follows, inv, 0, i);
  }

  /** Over any run: what an outbox row shows of its publish calls, retries and publication, is all of them if and only
      if none was lost and none is in flight; and no row is published more than five times beyond its lost calls. */
  lemma RowShowsItsCallsIff(trace: seq<World>, i: nat, r: nat)
    requires IsRun(trace) && i < |trace| && r < |trace[i].db.outbox|
    ensures |trace[i].attempts| == |trace[i].lost| == |trace[i].db.outbox|
    ensures trace[i].attempts[r] == Shown(trace[i].db.outbox[r]) <==>
            trace[i].lost[r] == 0 && !InFlight(trace[i].calling, r)
    ensures trace[i].attempts[r] <= MAX_RETRIES + trace[i].lost[r]
  {
    var w := trace[i];
    EveryReachableStateIsConsistent(trace, i);
    assert EntryOk(w.db.outbox[r], w.attempts[r], w.lost[r], InFlight(w.calling, r));
    if InFlight(w.calling, r) {
      CallIsCurrent(w);
    }
  }

  lemma MovesOnTwice(a: Command, b: Command, c: Command)
    requires MovesOn(a, b) && MovesOn(b, c)
    ensures MovesOn(a, c)
  {
  }

  ghost predicate MovedOnFrom(w: World, c: CommandId, start: Command) {
    Inv(w) && c in w.db.commands && MovesOn(start, w.db.commands[c])
  }

  lemma MovedOnFromKept(a: World, b: World, c: CommandId, start: Command)
    requires MovedOnFrom(a, c, start) && Follows(a, b)
    ensures MovedOnFrom(b, c, start)
  {
    FollowingKeepsInv(a, b);
    MovesOnTwice(start, a.db.commands[c], b.db.commands[c]);
  }

  /** Over any run: a command keeps its contents and its key, never returns to QUEUED, and never returns to DISPATCHED
      once it has left it. */
  lemma CommandsNeverMoveBack(trace: seq<World>, i: nat, j: nat, c: CommandId)
    requires IsRun(trace) && i <= j < |trace| && c in trace[i].db.commands
    ensures c in trace[j].db.commands && MovesOn(trace[i].db.commands[c], trace[j].db.commands[c])
  {
    var follows := (a: World, b: World) => Follows(a, b);
    var start := trace[i].db.commands[c];
    var inv := (w: World) => MovedOnFrom(w, c, start);
    EveryReachableStateIsConsistent(trace, i);
    forall a: World, b: World | inv(a) && follows(a, b) ensures inv(b) {
      MovedOnFromKept(a, b, c, start);
    }
    Runs.KeptByRun(trace, follows, inv, i, j);
  }
}
