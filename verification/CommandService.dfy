/** Submitting and retrying commands (services/integration/command_service.py). */
module CommandService {
  import opened Wrappers
  import opened Tables
  import Text

  /** `validated` is what the command's schema makes of the payload, None when it rejects it. */
  datatype Request = Request(
    target: string, resourceType: string, resourceId: string, commandType: string, validated: Option<Fields>,
    displayName: string, key: Option<string>, correlation: Option<string>)

  /** What the database, the clock and the generator of random ids supply. `assignments` is the recomputed list of
      workflow assignments, used for that resource type only. */
  datatype Supply = Supply(commandId: CommandId, correlation: string, now: int, clock: string, assignments: Json)

  datatype Answer =
    | Queued(commandId: CommandId)
    | Existing(commandId: CommandId, status: CommandStatus)
    | NoConnector | InvalidPayload | DatabaseError | NotFound | NotRetryable

  predicate Registered(target: string) { target == "administration" || target == "ma" }

  function EnvelopeFor(r: Request, s: Supply): Envelope
    requires r.validated.Some?
  {
    Envelope(s.commandId, Text.Upper(r.commandType), Text.Lower(r.target), Text.Lower(r.resourceType), r.resourceId,
             r.validated.value, if Truthy(r.correlation) then r.correlation.value else s.correlation)
  }

  predicate KeyTaken(commands: map<CommandId, Command>, key: Option<string>) {
    key.Some? && exists c :: c in commands && commands[c].key == key
  }

  // ---- The optimistic projection ----

  function NewStatus(commandType: string): string {
    if Text.Contains(commandType, "APPROVE") then "APPROVED"
    else if Text.Contains(commandType, "REJECT") then "REJECTED"
    else "CANCELLED"
  }

  predicate IsRequest(e: Envelope) {
    e.target == "administration" && (e.resourceType == "request" || e.resourceType == "purchase_request")
  }

  predicate IsAssignment(e: Envelope) {
    e.target == "administration" && e.resourceType == "workflow_assignment"
  }

  function PurchaseRow(id: string): RowKey { RowKey("administration", "purchase_request", id) }

  function Note(e: Envelope): Json { if "note" in e.payload then e.payload["note"] else Null }

  function Overlay(e: Envelope, displayName: string): Fields {
    map["status" := Str(NewStatus(e.commandType)), "pending_sync" := Bool(true), "approval_note" := Note(e),
        "approved_by" := Str(displayName)]
  }

  /** None when the stored row is not an object, so that setting a field raises and the transaction is rolled back. */
  function Optimistic(
    projections: map<RowKey, Projection>, e: Envelope, displayName: string, s: Supply)
    : Option<map<RowKey, Projection>> {
    if IsRequest(e) then
      var key := PurchaseRow(e.resourceId);
      if key in projections then
        var row := projections[key];
        if row.data.Object? then
          Some(projections[key := row.(data := Object(row.data.fields + Overlay(e, displayName)),
                                       sourceStatus := Some(NewStatus(e.commandType)), stale := true)])
        else None
      else
        var data := Overlay(e, displayName)["id" := Str(e.resourceId)]["updated_at" := Str(s.clock)];
        Some(projections[key := Projection(1, Object(data), Some(NewStatus(e.commandType)), true)])
    else if IsAssignment(e) then
      var key := RowKey("administration", "workflow_assignment", "all");
      var version := if key in projections then projections[key].version else 1;
      Some(projections[key := Projection(version, s.assignments, Some("PENDING_SYNC"), true)])
    else Some(projections)
  }

  /** The transaction: command, outbox entry and projection together, or nothing when a unique constraint fails. */
  function Insert(db: Db, e: Envelope, key: Option<string>, displayName: string, s: Supply): Option<Db> {
    var projections := Optimistic(db.projections, e, displayName, s);
    if e.commandId in db.commands || KeyTaken(db.commands, key) || projections.None? then None
    else Some(db.(commands := db.commands[e.commandId := Command(e, key, QUEUED, None)],
                  outbox := db.outbox + [OutboxEntry(e, PENDING, 0, s.now)],
                  projections := projections.value))
  }

  method InsertCommand(
    db: Database, e: Envelope, key: Option<string>, displayName: string, s: Supply) returns (ok: bool)
    modifies db`commands, db`outbox, db`projections
    ensures ok == Insert(old(db.View()), e, key, displayName, s).Some?
    ensures db.View() == if ok then Insert(old(db.View()), e, key, displayName, s).value else old(db.View())
  {
    if e.commandId in db.commands || KeyTaken(db.commands, key) {
      return false;
    }
    var projections := db.projections;
    if IsRequest(e) {
      var rowKey := PurchaseRow(e.resourceId);
      var status := NewStatus(e.commandType);
      if rowKey in projections {
        var row := projections[rowKey];
        if !row.data.Object? {
          return false;
        }
        var data := row.data.fields + Overlay(e, displayName);
        projections := projections[rowKey := Projection(row.version, Object(data), Some(status), true)];
      } else {
        var data := Overlay(e, displayName)["id" := Str(e.resourceId)]["updated_at" := Str(s.clock)];
        projections := projections[rowKey := Projection(1, Object(data), Some(status), true)];
      }
    } else if IsAssignment(e) {
      var rowKey := RowKey("administration", "workflow_assignment", "all");
      var version := if rowKey in projections then projections[rowKey].version else 1;
      projections := projections[rowKey := Projection(version, s.assignments, Some("PENDING_SYNC"), true)];
    }
    db.commands := db.commands[e.commandId := Command(e, key, QUEUED, None)];
    db.outbox := db.outbox + [OutboxEntry(e, PENDING, 0, s.now)];
    db.projections := projections;
    ok := true;
  }

  predicate Admissible(r: Request) { Registered(Text.Lower(r.target)) && r.validated.Some? }

  /** A duplicate key answers with the existing command and changes nothing; a new one is queued with exactly one
      outbox entry. */
  method SubmitCommand(db: Database, r: Request, s: Supply) returns (answer: Answer)
    modifies db`commands, db`outbox, db`projections
    ensures answer.Queued? ==>
              && r.validated.Some? && Registered(Text.Lower(r.target)) && answer.commandId == s.commandId
              && Insert(old(db.View()), EnvelopeFor(r, s), r.key, r.displayName, s) == Some(db.View())
    ensures !answer.Queued? ==> db.View() == old(db.View())
    ensures answer.Existing? ==> answer.commandId in db.commands && db.commands[answer.commandId].key == r.key
                                 && db.commands[answer.commandId].status == answer.status
    ensures answer.NoConnector? <==> !Registered(Text.Lower(r.target))
    ensures answer.InvalidPayload? <==> Registered(Text.Lower(r.target)) && r.validated.None?
    ensures answer.Existing? <==> Admissible(r) && Truthy(r.key) && KeyTaken(old(db.commands), r.key)
    ensures answer.DatabaseError? <==>
            && Admissible(r) && !(Truthy(r.key) && KeyTaken(old(db.commands), r.key))
            && Insert(old(db.View()), EnvelopeFor(r, s), r.key, r.displayName, s).None?
    ensures !answer.NotFound? && !answer.NotRetryable?
  {
    if !Registered(Text.Lower(r.target)) {
      return NoConnector;
    }
    if r.validated.None? {
      return InvalidPayload;
    }
    if Truthy(r.key) && KeyTaken(db.commands, r.key) {
      var c :| c in db.commands && db.commands[c].key == r.key;
      return Existing(c, db.commands[c].status);
    }
    var ok := InsertCommand(db, EnvelopeFor(r, s), r.key, r.displayName, s);
    answer := if ok then Queued(s.commandId) else DatabaseError;
  }

  /** The request a retry submits: everything as it was, a new key, and the same correlation id. */
  function RetryRequest(c: Command, key: string, displayName: string, validated: Option<Fields>): Request {
    Request(c.envelope.target, c.envelope.resourceType, c.envelope.resourceId, c.envelope.commandType, validated,
            displayName, Some(key), Some(c.envelope.correlation))
  }

  method RetryCommand(
    db: Database, id: CommandId, displayName: string, random: string, validated: Option<Fields>, s: Supply)
    returns (answer: Answer)
    modifies db`commands, db`outbox, db`projections
    ensures answer.NotFound? <==> id !in old(db.commands)
    ensures answer.NotRetryable? <==> id in old(db.commands) && old(db.commands)[id].status !in {FAILED, CANCELLED}
    ensures answer.Queued? ==>
              && id in old(db.commands) && validated.Some?
              && var r := RetryRequest(old(db.commands)[id], "retry-" + id + "-" + random, displayName, validated);
              Insert(old(db.View()), EnvelopeFor(r, s), r.key, displayName, s) == Some(db.View())
    ensures answer.Queued? ==>
              && id in old(db.commands) && s.commandId in db.commands
              && db.commands[s.commandId].status == QUEUED
              && (old(db.commands)[id].envelope.correlation != "" ==>
                    db.commands[s.commandId].envelope.correlation == old(db.commands)[id].envelope.correlation)
              && db.commands[s.commandId].envelope.target == Text.Lower(old(db.commands)[id].envelope.target)
    ensures !answer.Queued? ==> db.View() == old(db.View())
    ensures id in old(db.commands) && old(db.commands)[id].status in {FAILED, CANCELLED} ==>
              var r := RetryRequest(old(db.commands)[id], "retry-" + id + "-" + random, displayName, validated);
              && (answer.NoConnector? <==> !Registered(Text.Lower(r.target)))
              && (answer.Existing? <==> Admissible(r) && KeyTaken(old(db.commands), r.key))
              && (answer.DatabaseError? <==> Admissible(r) && !KeyTaken(old(db.commands), r.key)
                                             && Insert(old(db.View()), EnvelopeFor(r, s), r.key, displayName, s).None?)
  {
    if id !in db.commands {
      return NotFound;
    }
    var c := db.commands[id];
    if c.status !in {FAILED, CANCELLED} {
      return NotRetryable;
    }
    answer := SubmitCommand(db, RetryRequest(c, "retry-" + id + "-" + random, displayName, validated), s);
  }
}
