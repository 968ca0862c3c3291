/** The durable command fabric as a whole: submission, outbox publisher, command processors and result consumer as
    interleaved atomic steps on the tables (services/integration/command_service.py, outbox_publisher.py,
    admin_command_processor.py, ma_command_processor.py, result_consumer.py). What has been sent may be delivered any
    number of times, in any order, or never. */
module CommandFabric {
  import opened Wrappers
  import opened Tables
  import opened OutboxPublisher
  import CS = CommandService
  import RC = ResultConsumer

  /** A row as the publisher's SELECT read it. */
  datatype Row = Row(id: nat, retryCount: nat)

  /** `batch` is what the publisher still has to go through and `calling` the row whose publish call has begun and is
      not recorded yet. `attempts` counts the publish calls of each outbox row and `lost` those of them that were never
      recorded. `sent`, `recovered`, `started` and `results` are the commands handed to the broker, those read by a
      recovery, those a processor has begun, and the reports sent back. */
  datatype World = World(
    db: Db, batch: seq<Row>, calling: Option<Row>, attempts: seq<nat>, lost: seq<nat>, sent: set<Envelope>,
    recovered: set<Envelope>, started: set<Envelope>, results: set<RC.Message>)

  const INITIAL := World(Db(map[], [], {}, map[], []), [], None, [], [], {}, {}, {}, {})

  /** A publish call begins with `Send` and ends with `Record`, which writes what the call came to, or with `Lose`: the
      publisher is cancelled while it waits, the process dies, or the update of the retry counter fails. `Stop` ends a
      batch between two rows. `Project` stands for any other writer of the projection table, such as a live pull. */
  datatype Step =
    | Submit(envelope: Envelope, key: Option<string>, displayName: string, supply: CS.Supply)
    | Fetch(limit: nat, rows: seq<nat>)
    | Send
    | Record(outcome: Outcome)
    | Lose
    | Stop
    | Recover(found: Envelope)
    | Start(started: Envelope)
    | Finish(finished: Envelope, report: RC.Message)
    | Deliver(message: RC.Message)
    | Project(projections: map<RowKey, Projection>)

  /** `recover_unprocessed_commands` builds a command again from its row. */
  predicate Recoverable(db: Db, e: Envelope) {
    && e.target == "administration" && e.commandId in db.commands
    && db.commands[e.commandId].status in {QUEUED, PROCESSING} && db.commands[e.commandId].envelope == e
  }

  /** What a processor may report about a command: its own ids, and one of two results. */
  predicate IsReport(e: Envelope, m: RC.Message) {
    && RC.AnswersCommand(m, e) && RC.Parses(m) && m.commandId == Some(e.commandId)
    && m.resourceType == Some(e.resourceType) && m.resourceId == Some(e.resourceId)
    && (m.result == Some("SUCCEEDED") || m.result == Some("FAILED"))
  }

  ghost predicate Enabled(w: World, step: Step) {
    match step
    case Submit(e, key, name, s) =>
      e.correlation != "" && e.commandId != "" && s.commandId == e.commandId && CS.Registered(e.target)
    case Fetch(limit, rows) => w.batch == [] && w.calling.None? && IsBatch(rows, w.db.outbox, limit)
    case Send =>
      w.batch != [] && w.calling.None? && w.batch[0].id < |w.db.outbox| && |w.attempts| == |w.db.outbox|
    case Record(_) => w.calling.Some? && w.calling.value.id < |w.db.outbox|
    case Lose => w.calling.Some? && w.calling.value.id < |w.lost|
    case Stop => w.calling.None?
    case Recover(e) => Recoverable(w.db, e)
    case Start(e) => e in w.sent || e in w.recovered
    case Finish(e, m) => e in w.started && IsReport(e, m)
    case Deliver(m) => m in w.results || !RC.IsResult(m)
    case Project(_) => true
  }

  /** A failed attempt counts from the retry counter that was read with the row. */
  function AfterAttempt(e: OutboxEntry, row: Row, outcome: Outcome): OutboxEntry {
    Attempt(if outcome == Confirmed then e else e.(retryCount := row.retryCount), outcome)
  }

  function Processing(commands: map<CommandId, Command>, id: CommandId): map<CommandId, Command> {
    if id in commands then commands[id := commands[id].(status := PROCESSING)] else commands
  }

  /** One row of the batch: the outbox row and, on a recorded confirmation, its queued command. */
  function RecordRow(db: Db, row: Row, outcome: Outcome): Db
    requires row.id < |db.outbox|
  {
    var e := db.outbox[row.id];
    db.(outbox := db.outbox[row.id := AfterAttempt(e, row, outcome)],
        commands := if outcome == Confirmed then Dispatch(db.commands, e.envelope.commandId) else db.commands)
  }

  ghost function Apply(w: World, step: Step): World
    requires Enabled(w, step)
  {
    match step
    case Submit(e, key, name, s) =>
      (match CS.Insert(w.db, e, key, name, s)
       case None => w
       case Some(db) => w.(db := db, attempts := w.attempts + [0], lost := w.lost + [0]))
    case Fetch(_, rows) =>
      w.(batch := seq(|rows|, i requires 0 <= i < |rows| => Row(rows[i], w.db.outbox[rows[i]].retryCount)))
    case Send =>
      var row := w.batch[0];
      w.(batch := w.batch[1..],
         calling := Some(row),
         attempts := w.attempts[row.id := w.attempts[row.id] + 1],
         sent := w.sent + {w.db.outbox[row.id].envelope})
    case Record(outcome) => w.(db := RecordRow(w.db, w.calling.value, outcome), calling := None)
    case Lose =>
      var row := w.calling.value;
      w.(batch := [], calling := None, lost := w.lost[row.id := w.lost[row.id] + 1])
    case Stop => w.(batch := [])
    case Recover(e) => w.(recovered := w.recovered + {e})
    case Start(e) => w.(db := w.db.(commands := Processing(w.db.commands, e.commandId)), started := w.started + {e})
    case Finish(_, m) => w.(results := w.results + {m})
    case Deliver(m) => w.(db := RC.Consume(w.db, m))
    case Project(rows) => w.(db := w.db.(projections := rows))
  }

  // ---- The publisher's loop takes these steps ----

  /** A row of the loop is a `Send` and a `Record`; the tables then are as after `RecordRow`. */
  lemma SendThenRecord(w: World, outcome: Outcome)
    requires Enabled(w, Send)
    ensures Enabled(Apply(w, Send), Record(outcome))
    ensures var after := Apply(Apply(w, Send), Record(outcome));
            after.db == RecordRow(w.db, w.batch[0], outcome) && after.batch == w.batch[1..] && after.calling.None?
  {
  }

  function RecordRows(db: Db, rows: seq<nat>, outcomes: seq<Outcome>, k: nat): (after: Db)
    requires k <= |rows| == |outcomes| && forall i | 0 <= i < |rows| :: rows[i] < |db.outbox|
    ensures |after.outbox| == |db.outbox|
  {
    if k == 0 then db
    else RecordRow(RecordRows(db, rows, outcomes, k - 1), Row(rows[k - 1], db.outbox[rows[k - 1]].retryCount),
                    outcomes[k - 1])
  }

  /** The first k rows of a batch, published in the publisher's loop, publish k rows one after the other. */
  lemma {:induction false} BatchIsSteps(db: Db, rows: seq<nat>, outcomes: seq<Outcome>, k: nat)
    requires k <= |rows| == |outcomes| && Distinct(rows) && forall i | 0 <= i < |rows| :: rows[i] < |db.outbox|
    ensures RecordRows(db, rows, outcomes, k) ==
            db.(outbox := PublishAll(db.outbox, rows[..k], outcomes[..k]),
                commands := DispatchAll(db.commands, db.outbox, rows[..k], outcomes[..k]))
  {
    if k > 0 {
      BatchIsSteps(db, rows, outcomes, k - 1);
      OneMorePublished(db.outbox, db.commands, rows, outcomes, k - 1);
      NotYetAttempted(db.outbox, rows, outcomes, k - 1);
    }
  }
}
