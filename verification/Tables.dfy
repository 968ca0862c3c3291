/** The four cross-service tables (postgresql_db/schemas/cross_service_schema.py), their rows and the
    envelopes that travel between services. A command id is the canonical text of a UUID. */
module Tables {
  import opened Wrappers

  datatype Json =
    | Null | Bool(b: bool) | Number(r: real) | Str(s: string)
    | List(items: seq<Json>) | Object(fields: map<string, Json>)

  type Fields = map<string, Json>

  type CommandId = string

  datatype CommandStatus = QUEUED | DISPATCHED | PROCESSING | SUCCEEDED | FAILED | CANCELLED | OtherStatus(text: string)

  function StatusFromText(text: string): CommandStatus {
    if text == "QUEUED" then QUEUED
    else if text == "DISPATCHED" then DISPATCHED
    else if text == "PROCESSING" then PROCESSING
    else if text == "SUCCEEDED" then SUCCEEDED
    else if text == "FAILED" then FAILED
    else if text == "CANCELLED" then CANCELLED
    else OtherStatus(text)
  }

  datatype Failure = Failure(code: string, message: string, retryable: bool)

  /** What a command is about; written once and never updated. */
  datatype Envelope = Envelope(
    commandId: CommandId, commandType: string, target: string, resourceType: string, resourceId: string,
    payload: Fields, correlation: string)

  datatype Command = Command(envelope: Envelope, key: Option<string>, status: CommandStatus, failure: Option<Failure>)

  datatype OutboxStatus = PENDING | PUBLISHED | GAVE_UP

  /** Rows are numbered by their position. */
  datatype OutboxEntry = OutboxEntry(envelope: Envelope, status: OutboxStatus, retryCount: nat, createdAt: int)

  datatype RowKey = RowKey(service: string, resourceType: string, resourceId: string)

  datatype Projection = Projection(version: int, data: Json, sourceStatus: Option<string>, stale: bool)

  datatype Audit = Audit(action: string, source: string, entity: string, worker: string, result: string,
                         commandId: string, failure: Option<Failure>, sourceStatus: Option<string>)

  datatype Db = Db(
    commands: map<CommandId, Command>, outbox: seq<OutboxEntry>, inbox: set<string>,
    projections: map<RowKey, Projection>, audit: seq<Audit>)

  /** The tables as the services update them. */
  class Database {
    var commands: map<CommandId, Command>
    var outbox: seq<OutboxEntry>
    var inbox: set<string>
    var projections: map<RowKey, Projection>
    var audit: seq<Audit>

    function View(): Db
      reads this
    {
      Db(commands, outbox, inbox, projections, audit)
    }

    constructor ()
      ensures View() == Db(map[], [], {}, map[], [])
    {
      commands, outbox, inbox, projections, audit := map[], [], {}, map[], [];
    }
  }
}
