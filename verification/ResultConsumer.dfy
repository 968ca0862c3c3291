/** Consuming command results and projection events (services/integration/result_consumer.py) and what the
    connectors do with them (services/integration/connectors/admin_connector.py, ma_connector.py). */
module ResultConsumer {
  import opened Wrappers
  import opened Tables
  import Text
  import Deduplication

  /** An incoming message: absent keys are None. `commandUuid` is what UUID() makes of `commandId`, None when it
      raises; `wellTyped` says whether the present values have the types the envelopes ask for. */
  datatype Message = Message(
    messageType: Option<string>, commandId: Option<string>, commandUuid: Option<CommandId>,
    correlationId: Option<string>, sourceService: Option<string>, commandType: Option<string>,
    resourceType: Option<string>, resourceId: Option<string>,
    result: Option<string>, sourceStatus: Option<string>, sourceVersion: Option<int>, failure: Option<Failure>,
    projectionUpdate: Option<Fields>, data: Option<Fields>, wellTyped: bool)

  const RESULT := "command_result"
  const EVENT := "projection_updated"

  function SourceOf(m: Message): string {
    Text.Lower(if Truthy(m.sourceService) then m.sourceService.value else "unknown")
  }

  function MessageId(m: Message): string {
    if Truthy(m.correlationId) then m.correlationId.value
    else if Truthy(m.commandId) then m.commandId.value
    else if m.resourceId.Some? then m.resourceId.value
    else "unknown"
  }

  function InboxKey(m: Message): string {
    SourceOf(m) + ":" + (if m.messageType.Some? then m.messageType.value else "None") + ":" + MessageId(m)
  }

  predicate IsResult(m: Message) { m.messageType == Some(RESULT) }

  predicate IsEvent(m: Message) { m.messageType == Some(EVENT) }

  /** The envelope class of the message accepts it; other message types are not parsed. */
  predicate Parses(m: Message) {
    && (IsResult(m) ==> m.wellTyped && m.commandId.Some? && m.commandType.Some? && m.sourceService.Some?
                        && m.resourceType.Some? && m.resourceId.Some? && m.result.Some?)
    && (IsEvent(m) ==> m.wellTyped && m.sourceService.Some? && m.resourceType.Some? && m.resourceId.Some?)
  }

  predicate HasConnector(source: string) { source == "administration" || source == "ma" }

  // ---- The connectors ----

  function VersionOf(m: Message): int {
    if m.sourceVersion.Some? && m.sourceVersion.value != 0 then m.sourceVersion.value else 1
  }

  function RowOf(m: Message): RowKey
    requires m.resourceType.Some? && m.resourceId.Some?
  {
    RowKey(SourceOf(m), Text.Lower(m.resourceType.value), m.resourceId.value)
  }

  /** `projection_update`, with the source status as field `status`. */
  function ResultData(m: Message): Fields {
    var base := if m.projectionUpdate.Some? then m.projectionUpdate.value else map[];
    if Truthy(m.sourceStatus) then base["status" := Str(m.sourceStatus.value)] else base
  }

  function EventData(m: Message): Fields {
    if m.data.Some? then m.data.value else map[]
  }

  /** PostgreSQL `||` on jsonb. */
  function Concat(a: Json, b: Json): Json {
    if a.Object? && b.Object? then Object(a.fields + b.fields)
    else List((if a.List? then a.items else [a]) + (if b.List? then b.items else [b]))
  }

  function Upsert(db: Db, key: RowKey, data: Json, merge: bool, version: int, status: Option<string>): Db {
    var row :=
      if key !in db.projections then Projection(version, data, status, false)
      else
        var was := db.projections[key];
        Projection(version, if merge then Concat(was.data, data) else data,
                   if status.Some? then status else was.sourceStatus, false);
    db.(projections := db.projections[key := row])
  }

  function WorkerName(source: string): string {
    if source == "administration" then "Administration Worker" else "MA Worker"
  }

  function AuditRow(m: Message): Audit
    requires IsResult(m) && Parses(m)
  {
    Audit(Text.Upper(m.commandType.value) + "_RESULT", SourceOf(m), m.resourceId.value, WorkerName(SourceOf(m)),
          Text.Upper(m.result.value), m.commandId.value, m.failure, m.sourceStatus)
  }

  function ConnectResult(db: Db, m: Message): Db
    requires IsResult(m) && Parses(m)
  {
    var data := ResultData(m);
    var db1 := if data == map[] then db else Upsert(db, RowOf(m), Object(data), true, VersionOf(m), m.sourceStatus);
    db1.(audit := db1.audit + [AuditRow(m)])
  }

  function ConnectEvent(db: Db, m: Message): Db
    requires IsEvent(m) && Parses(m)
  {
    Upsert(db, RowOf(m), Object(EventData(m)), false, VersionOf(m), m.sourceStatus)
  }

  // ---- One message ----

  function FinishCommand(db: Db, m: Message): Db
    requires IsResult(m) && Parses(m)
  {
    if m.commandId.value != "" && m.commandUuid.Some? && m.commandUuid.value in db.commands then
      var id := m.commandUuid.value;
      db.(commands := db.commands[id :=
          db.commands[id].(status := StatusFromText(Text.Upper(m.result.value)), failure := m.failure)])
    else db
  }

  /** What a message does besides being recorded in the inbox. */
  function Effect(db: Db, m: Message): Db
    requires Parses(m)
  {
    if IsResult(m) then
      var db1 := FinishCommand(db, m);
      if HasConnector(SourceOf(m)) then ConnectResult(db1, m) else db1
    else if IsEvent(m) && HasConnector(SourceOf(m)) then ConnectEvent(db, m)
    else db
  }

  function Consume(db: Db, m: Message): Db {
    if InboxKey(m) in db.inbox || !Parses(m) then db
    else
      var db1 := Effect(db, m);
      db1.(inbox := db1.inbox + {InboxKey(m)})
  }

  function ConsumeAll(db: Db, ms: seq<Message>): Db {
    if ms == [] then db else Consume(ConsumeAll(db, ms[..|ms| - 1]), ms[|ms| - 1])
  }

  /** What a message does to the command table: at most the command it names gets a new status and failure. */
  lemma ConsumeOnCommands(db: Db, m: Message)
    ensures Consume(db, m).outbox == db.outbox && Consume(db, m).commands.Keys == db.commands.Keys
    ensures forall c | c in db.commands ::
              Consume(db, m).commands[c] == db.commands[c]
              || (IsResult(m) && Parses(m) && m.commandUuid == Some(c)
                  && Consume(db, m).commands[c] ==
                     db.commands[c].(status := StatusFromText(Text.Upper(m.result.value)), failure := m.failure))
  {
  }

  // ---- Exactly once ----

  /** The tables other than the inbox. */
  function Core(db: Db): Db { db.(inbox := {}) }

  function CoreEffect(db: Db, m: Message): Db {
    if Parses(m) then Effect(db, m) else db
  }

  /** The messages that take effect: well formed, and the first of their inbox key. */
  function Accepted(inbox: set<string>, ms: seq<Message>): seq<Message> {
    Deduplication.Accepted(InboxKey, Parses, inbox, ms)
  }

  /** All messages applied without an inbox. */
  function ApplyAll(db: Db, ms: seq<Message>): Db {
    Deduplication.ApplyAll(CoreEffect, db, ms)
  }

  lemma ConsumeIsDelivery(db: Db, m: Message)
    ensures (Core(Consume(db, m)), Consume(db, m).inbox) ==
            Deduplication.Deliver(InboxKey, Parses, CoreEffect, (Core(db), db.inbox), m)
  {
  }

  lemma {:induction false} ConsumeAllIsDelivery(db: Db, ms: seq<Message>)
    ensures (Core(ConsumeAll(db, ms)), ConsumeAll(db, ms).inbox) ==
            Deduplication.DeliverAll(InboxKey, Parses, CoreEffect, (Core(db), db.inbox), ms)
  {
    if ms != [] {
      ConsumeAllIsDelivery(db, ms[..|ms| - 1]);
      ConsumeIsDelivery(ConsumeAll(db, ms[..|ms| - 1]), ms[|ms| - 1]);
    }
  }

  /** Main result: delivering any sequence of messages, with any repeats, one at a time, leaves commands, projections
      and audit rows exactly as applying only the first accepted message of each inbox key does; the inbox then holds
      the keys of the well-formed messages too. */
  lemma RepeatsHaveNoEffect(db: Db, ms: seq<Message>)
    ensures ConsumeAll(db, ms) ==
            ApplyAll(Core(db), Accepted(db.inbox, ms)).(inbox := db.inbox + Deduplication.Keys(InboxKey, Parses, ms))
  {
    ConsumeAllIsDelivery(db, ms);
    Deduplication.RepeatsHaveNoEffect(InboxKey, Parses, CoreEffect, (Core(db), db.inbox), ms);
  }

  /** Delivering again, in any order, messages that were delivered before changes nothing. */
  lemma RedeliveryChangesNothing(db: Db, ms: seq<Message>, again: seq<Message>)
    requires forall i | 0 <= i < |again| :: again[i] in ms
    ensures ConsumeAll(ConsumeAll(db, ms), again) == ConsumeAll(db, ms)
  {
    var after := ConsumeAll(db, ms);
    ConsumeAllIsDelivery(db, ms);
    ConsumeAllIsDelivery(after, again);
    Deduplication.RedeliveryChangesNothing(InboxKey, Parses, CoreEffect, (Core(db), db.inbox), ms, again);
    SameTables(ConsumeAll(after, again), after);
  }

  lemma SameTables(a: Db, b: Db)
    requires Core(a) == Core(b) && a.inbox == b.inbox
    ensures a == b
  {
  }

  // ---- Where a projected field comes from ----

  /** The message replaces row `k`. */
  predicate Replaces(m: Message, k: RowKey) {
    Parses(m) && IsEvent(m) && HasConnector(SourceOf(m)) && RowOf(m) == k
  }

  /** The message merges fields into row `k`. */
  predicate Merges(m: Message, k: RowKey) {
    Parses(m) && IsResult(m) && HasConnector(SourceOf(m)) && ResultData(m) != map[] && RowOf(m) == k
  }

  predicate Touches(m: Message, k: RowKey) { Replaces(m, k) || Merges(m, k) }

  /** The message settles what field `f` of row `k` is, including that it is absent. */
  predicate Settles(m: Message, k: RowKey, f: string) {
    Replaces(m, k) || (Merges(m, k) && f in ResultData(m))
  }

  function Lookup(fields: Fields, f: string): Option<Json> {
    if f in fields then Some(fields[f]) else None
  }

  function FieldIn(m: Message, f: string): Option<Json> {
    Lookup(if IsEvent(m) then EventData(m) else ResultData(m), f)
  }

  function Field(db: Db, k: RowKey, f: string): Option<Json> {
    if k in db.projections && db.projections[k].data.Object? then Lookup(db.projections[k].data.fields, f) else None
  }

  /** The row, if it exists, holds a JSON object. */
  predicate HoldsObject(db: Db, k: RowKey) {
    k in db.projections ==> db.projections[k].data.Object?
  }

  lemma EffectOnField(db: Db, m: Message, k: RowKey, f: string)
    requires HoldsObject(db, k)
    ensures HoldsObject(CoreEffect(db, m), k)
    ensures Field(CoreEffect(db, m), k, f) == if Settles(m, k, f) then FieldIn(m, f) else Field(db, k, f)
  {
  }

  /** Main result: after applying messages in order, a field of a row is what the last message that settles it says
      (a projection event settles every field, a result only those it carries), or what it was before. */
  lemma FieldComesFromLastSettler(db: Db, ms: seq<Message>, k: RowKey, f: string)
    requires HoldsObject(db, k)
    ensures HoldsObject(ApplyAll(db, ms), k)
    ensures Field(ApplyAll(db, ms), k, f) ==
            match Deduplication.LastSettler((m: Message) => Settles(m, k, f), ms)
            case Some(j) => FieldIn(ms[j], f)
            case None => Field(db, k, f)
  {
    var inv := (d: Db) => HoldsObject(d, k);
    var settles := (m: Message) => Settles(m, k, f);
    var value := (m: Message) => FieldIn(m, f);
    var observe := (d: Db) => Field(d, k, f);
    forall d: Db, m: Message | inv(d)
      ensures inv(CoreEffect(d, m)) && observe(CoreEffect(d, m)) == if settles(m) then value(m) else observe(d)
    {
      EffectOnField(d, m, k, f);
    }
    Deduplication.LastSettlerDecides(CoreEffect, inv, settles, value, observe, db, ms);
  }

  /** Version and staleness of a row. */
  function Stamp(db: Db, k: RowKey): Option<(int, bool)> {
    if k in db.projections then Some((db.projections[k].version, db.projections[k].stale)) else None
  }

  lemma EffectOnStamp(db: Db, m: Message, k: RowKey)
    ensures Stamp(CoreEffect(db, m), k) == if Touches(m, k) then Some((VersionOf(m), false)) else Stamp(db, k)
  {
  }

  /** A row's version is the one carried by the last message that touched it, whatever it was before: versions can go
      down. A row no message touches keeps its version and stays stale if it was. */
  lemma VersionIsLastTouchers(db: Db, ms: seq<Message>, k: RowKey)
    ensures Stamp(ApplyAll(db, ms), k) ==
            match Deduplication.LastSettler((m: Message) => Touches(m, k), ms)
            case Some(j) => Some((VersionOf(ms[j]), false))
            case None => Stamp(db, k)
  {
    var touches := (m: Message) => Touches(m, k);
    var value := (m: Message) => Some((VersionOf(m), false));
    var observe := (d: Db) => Stamp(d, k);
    forall d: Db, m: Message
      ensures observe(CoreEffect(d, m)) == if touches(m) then value(m) else observe(d)
    {
      EffectOnStamp(d, m, k);
    }
    Deduplication.LastSettlerDecides(CoreEffect, _ => true, touches, value, observe, db, ms);
  }

  /** The same for what is really delivered: the settling message is looked for among the accepted ones. */
  lemma DeliveredFieldComesFromLastAccepted(db: Db, ms: seq<Message>, k: RowKey, f: string)
    requires HoldsObject(db, k)
    ensures Field(ConsumeAll(db, ms), k, f) ==
            match Deduplication.LastSettler((m: Message) => Settles(m, k, f), Accepted(db.inbox, ms))
            case Some(j) => FieldIn(Accepted(db.inbox, ms)[j], f)
            case None => Field(db, k, f)
  {
    RepeatsHaveNoEffect(db, ms);
    FieldComesFromLastSettler(Core(db), Accepted(db.inbox, ms), k, f);
  }

  // ---- Commands whose conversation is over ----

  /** A result for the command that carries its service and its correlation id, as the processors send it. */
  predicate AnswersCommand(m: Message, e: Envelope) {
    IsResult(m) && m.commandUuid == Some(e.commandId) && SourceOf(m) == e.target
        && m.correlationId == Some(e.correlation)
  }

  /** The inbox key of every such result. */
  function ResultKey(e: Envelope): string {
    e.target + ":" + RESULT + ":" + e.correlation
  }

  lemma AnswersHaveResultKey(m: Message, e: Envelope)
    requires AnswersCommand(m, e) && e.correlation != ""
    ensures InboxKey(m) == ResultKey(e)
  {
  }

  lemma ConsumeKeepsCommand(db: Db, m: Message, e: Envelope)
    requires e.commandId in db.commands && ResultKey(e) in db.inbox && e.correlation != ""
    requires IsResult(m) && m.commandUuid == Some(e.commandId) ==> AnswersCommand(m, e)
    ensures e.commandId in Consume(db, m).commands && Consume(db, m).commands[e.commandId] == db.commands[e.commandId]
    ensures ResultKey(e) in Consume(db, m).inbox
  {
    if AnswersCommand(m, e) {
      AnswersHaveResultKey(m, e);
    }
  }

  /** Once one result with a command's service and correlation id has been recorded, no later result changes the
      command: not when it was started again afterwards, and not when it is a retry that reuses the correlation id. */
  lemma {:induction false} NoSecondAnswer(db: Db, ms: seq<Message>, e: Envelope)
    requires e.commandId in db.commands && ResultKey(e) in db.inbox && e.correlation != ""
    requires forall i | 0 <= i < |ms| && IsResult(ms[i]) && ms[i].commandUuid == Some(e.commandId) ::
             AnswersCommand(ms[i], e)
    ensures e.commandId in ConsumeAll(db, ms).commands
            && ConsumeAll(db, ms).commands[e.commandId] == db.commands[e.commandId]
    ensures ResultKey(e) in ConsumeAll(db, ms).inbox
  {
    if ms != [] {
      NoSecondAnswer(db, ms[..|ms| - 1], e);
      ConsumeKeepsCommand(ConsumeAll(db, ms[..|ms| - 1]), ms[|ms| - 1], e);
    }
  }

  // ---- The handler ----

  method UpsertProjection(db: Database, key: RowKey, data: Json, merge: bool, version: int, status: Option<string>)
    modifies db`projections
    ensures db.View() == Upsert(old(db.View()), key, data, merge, version, status)
  {
    if key !in db.projections {
      db.projections := db.projections[key := Projection(version, data, status, false)];
    } else {
      var row := db.projections[key];
      var merged := data;
      if merge {
        merged := Concat(row.data, data);
      }
      var source := row.sourceStatus;
      if status.Some? {
        source := status;
      }
      db.projections := db.projections[key := Projection(version, merged, source, false)];
    }
  }

  method HandleCommandResult(db: Database, m: Message)
    requires IsResult(m) && Parses(m)
    modifies db`projections, db`audit
    ensures db.View() == ConnectResult(old(db.View()), m)
  {
    var data := if m.projectionUpdate.Some? then m.projectionUpdate.value else map[];
    if Truthy(m.sourceStatus) {
      data := data["status" := Str(m.sourceStatus.value)];
    }
    if data != map[] {
      UpsertProjection(db, RowOf(m), Object(data), true, VersionOf(m), m.sourceStatus);
    }
    db.audit := db.audit + [AuditRow(m)];
  }

  method HandleIncomingMessage(db: Database, m: Message)
    modifies db
    ensures db.View() == Consume(old(db.View()), m)
  {
    var inboxKey := InboxKey(m);
    if inboxKey in db.inbox || !Parses(m) {
      return;
    }
    if IsResult(m) {
      if m.commandId.value != "" && m.commandUuid.Some? && m.commandUuid.value in db.commands {
        var id := m.commandUuid.value;
        var status := StatusFromText(Text.Upper(m.result.value));
        db.commands := db.commands[id := db.commands[id].(status := status, failure := m.failure)];
      }
      if HasConnector(SourceOf(m)) {
        HandleCommandResult(db, m);
      }
    } else if IsEvent(m) {
      if HasConnector(SourceOf(m)) {
        UpsertProjection(db, RowOf(m), Object(EventData(m)), false, VersionOf(m), m.sourceStatus);
      }
    }
    db.inbox := db.inbox + {inboxKey};
  }
}
