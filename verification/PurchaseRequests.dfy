/** The purchase-request read model (services/integration/admin_integration_service.py): status normalisation, the
    scoped upsert and prune of a live pull, and the offline read with its overlay of active commands. */
module PurchaseRequests {
  import opened Wrappers
  import opened Tables
  import Text
  import CS = CommandService
  import RC = ResultConsumer

  // ---- Status normalisation ----

  const WAITING := "WAITING_APPROVAL"

  function Tidy(raw: string): string { Text.ReplaceChar(Text.Upper(Text.Strip(raw)), ' ', '_') }

  function MapTidied(st: string): string {
    if st in ["WAITING_APPROVAL", "PENDING_APPROVAL", "PENDING"] then "WAITING_APPROVAL"
    else if st in ["UNDER_REVIEW"] then "UNDER_REVIEW"
    else if st in ["NEW", "INITIAL", "DRAFT", "SUBMITTED"] then "NEW"
    else if st in ["REJECTED", "CANCELLED", "DECLINED"] then "REJECTED"
    else if st in ["COMPLETED", "CLOSED", "DELIVERED", "FULFILLED", "PAID"] then "COMPLETED"
    else if st in ["APPROVED", "PURCHASED", "ORDERED", "SHIPPED",
                   "GOODS_RECEIVED", "INVOICE_RECEIVED", "SENT_TO_AP", "WAITING_PAYMENT"] then "APPROVED"
    else if st != "" then st else "NEW"
  }

  function MapStatus(raw: string): string { MapTidied(Tidy(raw)) }

  predicate IsTidy(s: string) {
    Text.Trimmed(s) && Text.IsUpper(s) && forall i | 0 <= i < |s| :: s[i] != ' '
  }

  lemma TidyTwice(s: string)
    requires IsTidy(s)
    ensures Tidy(s) == s
  {
    Text.StripOfTrimmed(s);
    Text.UpperOfUpper(s);
  }

  lemma TidyIsTidy(raw: string)
    ensures IsTidy(Tidy(raw))
  {
    Text.StripTrims(raw, _ => true);
  }

  predicate Known(st: string) {
    st in ["WAITING_APPROVAL", "UNDER_REVIEW", "NEW", "REJECTED", "COMPLETED", "APPROVED"]
  }

  lemma LongStatusesAreTidy()
    ensures IsTidy("WAITING_APPROVAL") && IsTidy("UNDER_REVIEW")
  {
  }

  lemma ShortStatusesAreTidy()
    ensures IsTidy("NEW") && IsTidy("REJECTED") && IsTidy("COMPLETED") && IsTidy("APPROVED")
  {
  }

  lemma KnownAreTidy(st: string)
    requires Known(st)
    ensures IsTidy(st)
  {
    LongStatusesAreTidy();
    ShortStatusesAreTidy();
  }

  lemma MapTidiedRange(st: string)
    ensures Known(MapTidied(st)) || MapTidied(st) == st
  {
  }

  lemma MapTidiedIsTidy(st: string)
    requires IsTidy(st)
    ensures IsTidy(MapTidied(st))
  {
    MapTidiedRange(st);
    if Known(MapTidied(st)) {
      KnownAreTidy(MapTidied(st));
    }
  }

  lemma MapTidiedTwice(st: string)
    ensures MapTidied(MapTidied(st)) == MapTidied(st)
  {
  }

  /** Mapping a mapped status changes nothing, whatever the raw status was. */
  lemma MapStatusTwice(raw: string)
    ensures MapStatus(MapStatus(raw)) == MapStatus(raw)
  {
    TidyIsTidy(raw);
    MapTidiedIsTidy(Tidy(raw));
    TidyTwice(MapStatus(raw));
    MapTidiedTwice(Tidy(raw));
  }

  // ---- A live pull ----

  /** A request as the portal sends it. `others` is what the parser makes of the keys other than id and status, None
      when a number does not convert and parsing raises. */
  datatype RawRequest = RawRequest(id: string, status: string, others: Option<Fields>)

  predicate Parseable(raws: seq<RawRequest>) { forall i | 0 <= i < |raws| :: raws[i].others.Some? }

  predicate DistinctIds(raws: seq<RawRequest>) { forall i, j | 0 <= i < j < |raws| :: raws[i].id != raws[j].id }

  function Parse(r: RawRequest): Fields
    requires r.others.Some?
  {
    r.others.value["id" := Str(r.id)]["status" := Str(MapStatus(r.status))]["raw_status" := Str(r.status)]
  }

  type Rows = map<RowKey, Projection>

  function UpsertOne(rows: Rows, r: RawRequest): Rows
    requires r.others.Some?
  {
    var key := CS.PurchaseRow(r.id);
    var version := if key in rows then rows[key].version else 1;
    rows[key := Projection(version, Object(Parse(r)), Some(MapStatus(r.status)), false)]
  }

  function UpsertAll(rows: Rows, raws: seq<RawRequest>): Rows
    requires Parseable(raws)
  {
    if raws == [] then rows else UpsertOne(UpsertAll(rows, raws[..|raws| - 1]), raws[|raws| - 1])
  }

  predicate Among(id: string, raws: seq<RawRequest>) { exists i :: 0 <= i < |raws| && raws[i].id == id }

  predicate Prunable(key: RowKey, row: Projection, scope: string, raws: seq<RawRequest>) {
    && key.service == "administration" && key.resourceType == "purchase_request"
    && row.sourceStatus == Some(scope) && !Among(key.resourceId, raws)
  }

  function Prune(rows: Rows, scope: string, raws: seq<RawRequest>): Rows {
    map k | k in rows && !Prunable(k, rows[k], scope, raws) :: rows[k]
  }

  /** How far the two statements of a pull got: each commits on its own, and the first that fails ends the pull. */
  datatype Reach = Nothing | Upserted | Pruned

  /** Nothing is stored when a request does not parse or when the upsert would touch a row twice, which PostgreSQL
      refuses. */
  function PersistUpTo(rows: Rows, raws: seq<RawRequest>, scope: Option<string>, reach: Reach): Rows {
    if !Parseable(raws) || !DistinctIds(raws) || reach.Nothing? then rows
    else
      var upserted := UpsertAll(rows, raws);
      if Truthy(scope) && reach.Pruned? then Prune(upserted, scope.value, raws) else upserted
  }

  /** A pull whose statements both succeed. */
  function Persist(rows: Rows, raws: seq<RawRequest>, scope: Option<string>): Rows {
    PersistUpTo(rows, raws, scope, Pruned)
  }

  datatype Entry = Entry(id: string, record: Fields)

  /** What a live read answers: the parsed requests that wait for approval. */
  function Live(raws: seq<RawRequest>): seq<Entry>
    requires Parseable(raws)
  {
    if raws == [] then []
    else
      var last := raws[|raws| - 1];
      Live(raws[..|raws| - 1]) + if MapStatus(last.status) == WAITING then [Entry(last.id, Parse(last))] else []
  }

  // ---- The offline read ----

  /** `d.get(f) or ""`, for texts and null */
  function TextOf(d: Fields, f: string): string { if f in d && d[f].Str? then d[f].s else "" }

  function RawOrStatus(d: Fields): string {
    if TextOf(d, "raw_status") != "" then TextOf(d, "raw_status") else TextOf(d, "status")
  }

  function MappedStatus(d: Fields): string { MapStatus(RawOrStatus(d)) }

  predicate IsActive(c: Command) {
    c.envelope.target == "administration" && c.envelope.resourceType == "request" && c.status in {QUEUED, PROCESSING}
  }

  /** The commands the overlay query returns, in any order. */
  ghost predicate IsFetch(fetched: seq<Command>, commands: map<CommandId, Command>) {
    && (forall i | 0 <= i < |fetched| :: IsActive(fetched[i]) && Stored(fetched[i], commands))
    && (forall c | c in commands && IsActive(commands[c]) :: commands[c] in fetched)
  }

  predicate Stored(c: Command, commands: map<CommandId, Command>) {
    c.envelope.commandId in commands && commands[c.envelope.commandId] == c
  }

  /** The last of the fetched commands for a request, as a dictionary built from them keeps it. */
  function Winner(fetched: seq<Command>, id: string): Option<Command> {
    if fetched == [] then None
    else if fetched[|fetched| - 1].envelope.resourceId == id then Some(fetched[|fetched| - 1])
    else Winner(fetched[..|fetched| - 1], id)
  }

  predicate HasNote(payload: Fields) {
    "note" in payload && payload["note"] != Null && payload["note"] != Str("")
  }

  function Decided(d: Fields, status: string, payload: Fields): Fields {
    var marked := d["status" := Str(status)]["pending_sync" := Bool(true)];
    if HasNote(payload) then marked["approval_note" := payload["note"]] else marked
  }

  function Shown(id: string, d: Fields, fetched: seq<Command>): Fields {
    match Winner(fetched, id)
    case Some(c) =>
      if Text.Contains(c.envelope.commandType, "APPROVE") then Decided(d, "APPROVED", c.envelope.payload)
      else if Text.Contains(c.envelope.commandType, "REJECT") then Decided(d, "REJECTED", c.envelope.payload)
      else d
    case None => d["status" := Str(MappedStatus(d))]
  }

  datatype Filter = Pending | Completed | All

  predicate Passes(filter: Filter, d: Fields) {
    match filter
    case Pending => TextOf(d, "status") == WAITING
    case Completed => TextOf(d, "status") in ["APPROVED", "COMPLETED", "REJECTED"]
    case All => true
  }

  /** The ids of the stored requests, each once, in the order the query returns them. */
  predicate IsListing(ids: seq<string>, rows: Rows) {
    && (forall i, j | 0 <= i < j < |ids| :: ids[i] != ids[j])
    && (forall i | 0 <= i < |ids| :: CS.PurchaseRow(ids[i]) in rows)
    && (forall k | k in rows && k.service == "administration" && k.resourceType == "purchase_request" ::
          k.resourceId in ids)
  }

  predicate AreObjects(ids: seq<string>, rows: Rows) {
    forall i | 0 <= i < |ids| :: CS.PurchaseRow(ids[i]) in rows && rows[CS.PurchaseRow(ids[i])].data.Object?
  }

  function ShownRow(id: string, rows: Rows, fetched: seq<Command>): Fields
    requires CS.PurchaseRow(id) in rows && rows[CS.PurchaseRow(id)].data.Object?
  {
    Shown(id, rows[CS.PurchaseRow(id)].data.fields, fetched)
  }

  function Listed(ids: seq<string>, rows: Rows, fetched: seq<Command>, filter: Filter): seq<Entry>
    requires AreObjects(ids, rows)
  {
    if ids == [] then []
    else
      var id := ids[|ids| - 1];
      var d := ShownRow(id, rows, fetched);
      Listed(ids[..|ids| - 1], rows, fetched, filter) + if Passes(filter, d) then [Entry(id, d)] else []
  }

  function Records(entries: seq<Entry>): seq<Fields> {
    seq(|entries|, i requires 0 <= i < |entries| => entries[i].record)
  }

  // ---- What is in the lists ----

  predicate LiveEntry(r: RawRequest, e: Entry)
    requires r.others.Some?
  {
    MapStatus(r.status) == WAITING && e == Entry(r.id, Parse(r))
  }

  ghost predicate LiveAmong(raws: seq<RawRequest>, e: Entry)
    requires Parseable(raws)
  {
    exists i :: 0 <= i < |raws| && LiveEntry(raws[i], e)
  }

  lemma LiveAmongOneMore(raws: seq<RawRequest>, e: Entry)
    requires Parseable(raws) && raws != []
    ensures LiveAmong(raws, e) <==> LiveAmong(raws[..|raws| - 1], e) || LiveEntry(raws[|raws| - 1], e)
  {
    var before := raws[..|raws| - 1];
    if i :| 0 <= i < |raws| && LiveEntry(raws[i], e) {
      assert i < |before| ==> LiveEntry(before[i], e);
    }
    if i :| 0 <= i < |before| && LiveEntry(before[i], e) {
      assert LiveEntry(raws[i], e);
    }
  }

  lemma {:induction false} InLive(raws: seq<RawRequest>, e: Entry)
    requires Parseable(raws)
    ensures e in Live(raws) <==> LiveAmong(raws, e)
  {
    if raws != [] {
      InLive(raws[..|raws| - 1], e);
      LiveAmongOneMore(raws, e);
    }
  }

  lemma {:induction false} InListed(ids: seq<string>, rows: Rows, fetched: seq<Command>, filter: Filter, e: Entry)
    requires AreObjects(ids, rows)
    ensures e in Listed(ids, rows, fetched, filter) <==>
            e.id in ids && e.record == ShownRow(e.id, rows, fetched) && Passes(filter, e.record)
  {
    if ids != [] {
      var before, last := ids[..|ids| - 1], ids[|ids| - 1];
      InListed(before, rows, fetched, filter, e);
      assert ids == before + [last];
    }
  }

  // ---- What a pull leaves ----

  lemma {:induction false} UpsertedRows(rows: Rows, raws: seq<RawRequest>, k: RowKey)
    requires Parseable(raws) && DistinctIds(raws)
    ensures !(k == CS.PurchaseRow(k.resourceId) && Among(k.resourceId, raws)) ==>
              (k in UpsertAll(rows, raws) <==> k in rows) && (k in rows ==> UpsertAll(rows, raws)[k] == rows[k])
    ensures forall i | 0 <= i < |raws| && k == CS.PurchaseRow(raws[i].id) ::
              k in UpsertAll(rows, raws) && UpsertAll(rows, raws)[k].data == Object(Parse(raws[i]))
              && UpsertAll(rows, raws)[k].sourceStatus == Some(MapStatus(raws[i].status))
                 && !UpsertAll(rows, raws)[k].stale
  {
    if raws != [] {
      var before, last := raws[..|raws| - 1], raws[|raws| - 1];
      UpsertedRows(rows, before, k);
      assert raws == before + [last];
      assert forall id :: Among(id, raws) <==> Among(id, before) || id == last.id;
    }
  }

  /** Shown as pending although the pull did not contain it: stored before, with another source status than the
      scope. */
  predicate Lingers(rows: Rows, raws: seq<RawRequest>, fetched: seq<Command>, e: Entry) {
    var key := CS.PurchaseRow(e.id);
    && key in rows && rows[key].data.Object? && rows[key].sourceStatus != Some(WAITING) && !Among(e.id, raws)
    && e.record == ShownRow(e.id, rows, fetched) && Passes(Pending, e.record)
  }

  predicate ShownFromPull(raws: seq<RawRequest>, fetched: seq<Command>, e: Entry)
    requires Parseable(raws)
  {
    exists i :: 0 <= i < |raws| && raws[i].id == e.id && e.record == Shown(e.id, Parse(raws[i]), fetched)
        && Passes(Pending, e.record)
  }

  lemma PulledRow(rows: Rows, raws: seq<RawRequest>, i: nat)
    requires Parseable(raws) && DistinctIds(raws) && i < |raws|
    ensures var after, key := Persist(rows, raws, Some(WAITING)), CS.PurchaseRow(raws[i].id);
            key in after && after[key].data == Object(Parse(raws[i]))
                && after[key].sourceStatus == Some(MapStatus(raws[i].status))
  {
    UpsertedRows(rows, raws, CS.PurchaseRow(raws[i].id));
  }

  lemma OtherRow(rows: Rows, raws: seq<RawRequest>, id: string)
    requires Parseable(raws) && DistinctIds(raws) && !Among(id, raws)
    ensures var after, key := Persist(rows, raws, Some(WAITING)), CS.PurchaseRow(id);
            && (key in after <==> key in rows && rows[key].sourceStatus != Some(WAITING))
            && (key in after ==> after[key] == rows[key])
  {
    UpsertedRows(rows, raws, CS.PurchaseRow(id));
  }

  /** What the offline read lists as pending right after a live pull, with any active commands: the pulled requests as
      their commands leave them, and the rows that linger. */
  lemma OfflineAfterPull(rows: Rows, raws: seq<RawRequest>, ids: seq<string>, fetched: seq<Command>, e: Entry)
    requires Parseable(raws) && DistinctIds(raws)
    requires IsListing(ids, Persist(rows, raws, Some(WAITING))) && AreObjects(ids, Persist(rows, raws, Some(WAITING)))
    ensures e in Listed(ids, Persist(rows, raws, Some(WAITING)), fetched, Pending) <==>
            ShownFromPull(raws, fetched, e) || Lingers(rows, raws, fetched, e)
  {
    var after := Persist(rows, raws, Some(WAITING));
    InListed(ids, after, fetched, Pending, e);
    assert CS.PurchaseRow(e.id) in after <==> e.id in ids;
    if Among(e.id, raws) {
      var i: nat :| i < |raws| && raws[i].id == e.id;
      PulledRow(rows, raws, i);
    } else {
      OtherRow(rows, raws, e.id);
    }
  }

  /** Without an active command the offline read shows a pulled request exactly as the live read does. */
  lemma ShownAsPulled(r: RawRequest, fetched: seq<Command>)
    requires r.others.Some? && Winner(fetched, r.id).None?
    ensures Shown(r.id, Parse(r), fetched) == Parse(r)
  {
    MapStatusTwice(r.status);
    var d := Parse(r);
    assert MappedStatus(d) == MapStatus(r.status);
    assert d["status" := d["status"]] == d;
  }

  lemma PulledAsLive(raws: seq<RawRequest>, e: Entry)
    requires Parseable(raws)
    ensures ShownFromPull(raws, [], e) <==> e in Live(raws)
  {
    InLive(raws, e);
    forall i | 0 <= i < |raws| ensures Shown(raws[i].id, Parse(raws[i]), []) == Parse(raws[i]) {
      ShownAsPulled(raws[i], []);
    }
  }

  /** Main result: after a live pull of distinct ids, and with no active commands, the offline pending list is the live
      one, record by record, if and only if no stored request that the pull did not contain still reads as waiting
      under another source status. */
  lemma OfflineAgreesWithLiveIff(rows: Rows, raws: seq<RawRequest>, ids: seq<string>)
    requires Parseable(raws) && DistinctIds(raws)
    requires IsListing(ids, Persist(rows, raws, Some(WAITING))) && AreObjects(ids, Persist(rows, raws, Some(WAITING)))
    ensures (forall e :: e in Listed(ids, Persist(rows, raws, Some(WAITING)), [], Pending) <==> e in Live(raws)) <==>
            !exists e :: Lingers(rows, raws, [], e)
  {
    forall e
      ensures e in Listed(ids, Persist(rows, raws, Some(WAITING)), [], Pending) <==>
              e in Live(raws) || Lingers(rows, raws, [], e)
      ensures e in Live(raws) ==> !Lingers(rows, raws, [], e)
    {
      OfflineAfterPull(rows, raws, ids, [], e);
      PulledAsLive(raws, e);
      InLive(raws, e);
    }
  }

  /** The row's source status is the one its own data maps to. */
  predicate Matched(row: Projection) {
    row.data.Object? && row.sourceStatus == Some(MappedStatus(row.data.fields))
  }

  /** In particular the lists agree when every stored request's source status matches its mapped status. */
  lemma MatchedRowsAgree(rows: Rows, raws: seq<RawRequest>, ids: seq<string>, e: Entry)
    requires Parseable(raws) && DistinctIds(raws)
    requires IsListing(ids, Persist(rows, raws, Some(WAITING))) && AreObjects(ids, Persist(rows, raws, Some(WAITING)))
    requires forall id: string | CS.PurchaseRow(id) in rows :: Matched(rows[CS.PurchaseRow(id)])
    ensures e in Listed(ids, Persist(rows, raws, Some(WAITING)), [], Pending) <==> e in Live(raws)
  {
    OfflineAfterPull(rows, raws, ids, [], e);
    PulledAsLive(raws, e);
  }

  /** A pull writes matching rows. */
  lemma PulledRowsMatch(rows: Rows, raws: seq<RawRequest>, i: nat)
    requires Parseable(raws) && DistinctIds(raws) && i < |raws|
    ensures CS.PurchaseRow(raws[i].id) in Persist(rows, raws, Some(WAITING))
    ensures Matched(Persist(rows, raws, Some(WAITING))[CS.PurchaseRow(raws[i].id)])
  {
    PulledRow(rows, raws, i);
    ShownAsPulled(raws[i], []);
  }

  // ---- A decision that comes back ----

  lemma NewStatusIsDecided(commandType: string)
    ensures MapStatus(CS.NewStatus(commandType)) != WAITING && CS.NewStatus(commandType) != WAITING
  {
    var st := CS.NewStatus(commandType);
    assert IsTidy(st);
    TidyTwice(st);
  }

  lemma OptimisticRow(rows: Rows, e: Envelope, displayName: string, s: CS.Supply)
    requires CS.IsRequest(e) && CS.Optimistic(rows, e, displayName, s).Some?
    ensures var key, after := CS.PurchaseRow(e.resourceId), CS.Optimistic(rows, e, displayName, s).value;
            && key in after && after[key].data.Object? && after[key].sourceStatus == Some(CS.NewStatus(e.commandType))
            && TextOf(after[key].data.fields, "status") == CS.NewStatus(e.commandType)
            && (key in rows ==> rows[key].data.Object?)
            && (key in rows ==>
               TextOf(after[key].data.fields, "raw_status") == TextOf(rows[key].data.fields, "raw_status"))
            && (key !in rows ==> TextOf(after[key].data.fields, "raw_status") == "")
  {
  }

  /** Exactness: after the optimistic update of a decision the row reads as waiting again, as soon as no command covers
      it, if and only if it was stored with a raw status that maps to waiting. */
  lemma DecisionLingersIff(rows: Rows, e: Envelope, displayName: string, s: CS.Supply, raws: seq<RawRequest>)
    requires CS.IsRequest(e) && CS.Optimistic(rows, e, displayName, s).Some? && !Among(e.resourceId, raws)
    ensures (exists x: Entry ::
            x.id == e.resourceId && Lingers(CS.Optimistic(rows, e, displayName, s).value, raws, [], x)) <==>
            CS.PurchaseRow(e.resourceId) in rows
            && TextOf(rows[CS.PurchaseRow(e.resourceId)].data.fields, "raw_status") != ""
            && MapStatus(TextOf(rows[CS.PurchaseRow(e.resourceId)].data.fields, "raw_status")) == WAITING
  {
    var key := CS.PurchaseRow(e.resourceId);
    var after := CS.Optimistic(rows, e, displayName, s).value;
    OptimisticRow(rows, e, displayName, s);
    NewStatusIsDecided(e.commandType);
    var x := Entry(e.resourceId, ShownRow(e.resourceId, after, []));
    assert Lingers(after, raws, [], x) <==> MappedStatus(after[key].data.fields) == WAITING;
  }

  /** A pull without the request keeps its row unless the prune's scope is the row's source status. */
  lemma PullKeepsRow(rows: Rows, raws: seq<RawRequest>, scope: Option<string>, reach: Reach, id: string)
    requires CS.PurchaseRow(id) in rows && !Among(id, raws)
    requires rows[CS.PurchaseRow(id)].sourceStatus != scope || !reach.Pruned? || !Truthy(scope)
    ensures CS.PurchaseRow(id) in PersistUpTo(rows, raws, scope, reach)
    ensures PersistUpTo(rows, raws, scope, reach)[CS.PurchaseRow(id)] == rows[CS.PurchaseRow(id)]
  {
    if Parseable(raws) && DistinctIds(raws) {
      UpsertedRows(rows, raws, CS.PurchaseRow(id));
    }
  }

  /** A message that does not touch a row leaves it alone. */
  lemma MessageKeepsRow(db: Db, m: RC.Message, key: RowKey)
    requires key in db.projections && !RC.Touches(m, key)
    ensures key in RC.Consume(db, m).projections && RC.Consume(db, m).projections[key] == db.projections[key]
  {
  }

  /** The result of a command for resource type `request` does not touch the row of the purchase request. */
  lemma ResultMissesRow(m: RC.Message, e: Envelope, id: string)
    requires RC.AnswersCommand(m, e) && e.resourceType == "request" && m.resourceType == Some(e.resourceType)
    ensures !RC.Touches(m, CS.PurchaseRow(id))
  {
    assert Text.IsLower("request");
    Text.LowerOfLower(e.resourceType);
  }

  /** No command for the request is active. */
  predicate NoneActive(commands: map<CommandId, Command>, id: string) {
    forall c | c in commands && IsActive(commands[c]) :: commands[c].envelope.resourceId != id
  }

  // ---- The operations ----

  lemma RecordsOfOneMore(entries: seq<Entry>, e: Entry)
    ensures Records(entries + [e]) == Records(entries) + [e.record]
    ensures Records(entries + []) == Records(entries)
  {
    assert entries + [] == entries;
  }

  lemma LiveStep(raws: seq<RawRequest>, i: nat)
    requires i < |raws| && Parseable(raws[..i]) && raws[i].others.Some?
    ensures Parseable(raws[..i + 1])
    ensures Live(raws[..i + 1]) ==
            Live(raws[..i]) + if MapStatus(raws[i].status) == WAITING then [Entry(raws[i].id, Parse(raws[i]))] else []
  {
    assert raws[..i + 1][..i] == raws[..i] && raws[..i + 1][i] == raws[i];
  }

  lemma LiveOfOneMore(raws: seq<RawRequest>, i: nat)
    requires i < |raws| && Parseable(raws[..i]) && raws[i].others.Some?
    ensures Parseable(raws[..i + 1])
    ensures Records(Live(raws[..i + 1])) ==
            Records(Live(raws[..i])) + if MapStatus(raws[i].status) == WAITING then [Parse(raws[i])] else []
  {
    LiveStep(raws, i);
    RecordsOfOneMore(Live(raws[..i]), Entry(raws[i].id, Parse(raws[i])));
  }

  lemma ListedOfOneMore(ids: seq<string>, i: nat, rows: Rows, fetched: seq<Command>, filter: Filter)
    requires i < |ids| && AreObjects(ids[..i], rows) && CS.PurchaseRow(ids[i]) in rows
             && rows[CS.PurchaseRow(ids[i])].data.Object?
    ensures AreObjects(ids[..i + 1], rows)
    ensures var d := ShownRow(ids[i], rows, fetched);
            Records(Listed(ids[..i + 1], rows, fetched, filter)) ==
            Records(Listed(ids[..i], rows, fetched, filter)) + if Passes(filter, d) then [d] else []
  {
    assert ids[..i + 1][..i] == ids[..i];
    RecordsOfOneMore(Listed(ids[..i], rows, fetched, filter), Entry(ids[i], ShownRow(ids[i], rows, fetched)));
  }

  lemma UpsertedOneMore(rows: Rows, raws: seq<RawRequest>, i: nat)
    requires i < |raws| && Parseable(raws[..i]) && raws[i].others.Some?
    ensures Parseable(raws[..i + 1]) && UpsertAll(rows, raws[..i + 1]) == UpsertOne(UpsertAll(rows, raws[..i]), raws[i])
  {
    assert raws[..i + 1][..i] == raws[..i] && raws[..i + 1][i] == raws[i];
  }

  /** `reach` is how far the database lets the pull get. */
  method PersistPurchaseRequests(db: Database, raws: seq<RawRequest>, scope: Option<string>, reach: Reach)
    modifies db`projections
    ensures db.projections == PersistUpTo(old(db.projections), raws, scope, reach)
  {
    var i := 0;
    var rows := db.projections;
    while i < |raws|
      invariant 0 <= i <= |raws| && db.projections == old(db.projections)
      invariant Parseable(raws[..i]) && rows == UpsertAll(db.projections, raws[..i])
    {
      if raws[i].others.None? {
        assert !Parseable(raws);
        return;
      }
      UpsertedOneMore(db.projections, raws, i);
      rows := UpsertOne(rows, raws[i]);
      i := i + 1;
    }
    assert raws[..i] == raws;
    if !DistinctIds(raws) || reach.Nothing? {
      return;
    }
    db.projections := rows;
    if Truthy(scope) && reach.Pruned? {
      db.projections := Prune(db.projections, scope.value, raws);
    }
  }

  method ParsedPending(raws: seq<RawRequest>) returns (pending: Option<seq<Fields>>)
    ensures pending.Some? <==> Parseable(raws)
    ensures pending.Some? ==> pending.value == Records(Live(raws))
  {
    var found: seq<Fields> := [];
    for i := 0 to |raws|
      invariant Parseable(raws[..i]) && found == Records(Live(raws[..i]))
    {
      if raws[i].others.None? {
        return None;
      }
      LiveOfOneMore(raws, i);
      var status := MapStatus(raws[i].status);
      if status == WAITING {
        found := found + [Parse(raws[i])];
      }
    }
    assert raws[..|raws|] == raws;
    pending := Some(found);
  }

  method QueuedMap(fetched: seq<Command>) returns (queued: map<string, Command>)
    ensures forall id: string :: Winner(fetched, id) == if id in queued then Some(queued[id]) else None
  {
    queued := map[];
    for i := 0 to |fetched|
      invariant forall id: string :: Winner(fetched[..i], id) == if id in queued then Some(queued[id]) else None
    {
      assert fetched[..i + 1][..i] == fetched[..i];
      queued := queued[fetched[i].envelope.resourceId := fetched[i]];
    }
    assert fetched[..|fetched|] == fetched;
  }

  method Overlaid(id: string, stored: Fields, fetched: seq<Command>, queued: map<string, Command>) returns (d: Fields)
    requires Winner(fetched, id) == if id in queued then Some(queued[id]) else None
    ensures d == Shown(id, stored, fetched)
  {
    d := stored;
    if id in queued {
      var c := queued[id].envelope;
      if Text.Contains(c.commandType, "APPROVE") {
        d := d["status" := Str("APPROVED")]["pending_sync" := Bool(true)];
        if HasNote(c.payload) {
          d := d["approval_note" := c.payload["note"]];
        }
      } else if Text.Contains(c.commandType, "REJECT") {
        d := d["status" := Str("REJECTED")]["pending_sync" := Bool(true)];
        if HasNote(c.payload) {
          d := d["approval_note" := c.payload["note"]];
        }
      }
    } else {
      d := d["status" := Str(MapStatus(RawOrStatus(d)))];
    }
  }

  method AddIfPasses(items: seq<Fields>, filter: Filter, d: Fields) returns (more: seq<Fields>)
    ensures more == items + if Passes(filter, d) then [d] else []
  {
    more := items;
    if Passes(filter, d) {
      more := more + [d];
    }
  }

  /** A stored row that is not an object makes the whole read fail, which answers an empty list. */
  method GetProjectedPurchaseRequests(
    db: Database, ids: seq<string>, fetched: seq<Command>, filter: Filter) returns (items: seq<Fields>)
    requires IsListing(ids, db.projections) && IsFetch(fetched, db.commands)
    ensures items == if AreObjects(ids, db.projections) then Records(Listed(ids, db.projections, fetched, filter))
            else []
  {
    var queued := QueuedMap(fetched);
    items := [];
    for i := 0 to |ids|
      invariant AreObjects(ids[..i], db.projections)
                && items == Records(Listed(ids[..i], db.projections, fetched, filter))
    {
      var row := db.projections[CS.PurchaseRow(ids[i])];
      if !row.data.Object? {
        return [];
      }
      ListedOfOneMore(ids, i, db.projections, fetched, filter);
      var d := Overlaid(ids[i], row.data.fields, fetched, queued);
      items := AddIfPasses(items, filter, d);
    }
    assert ids[..|ids|] == ids;
  }

  function Refreshed(rows: Rows, reply: Option<seq<RawRequest>>, reach: Reach): Rows {
    if reply.Some? then PersistUpTo(rows, reply.value, Some(WAITING), reach) else rows
  }

  /** `reply` is what the portal answered, None when it was not asked or the call raised. `ids` and `fetched` are what
      the offline queries would return. */
  method GetPendingPurchaseRequests(db: Database, reply: Option<seq<RawRequest>>, reach: Reach, ids: seq<string>,
                                    fetched: seq<Command>)
    returns (items: seq<Fields>)
    requires IsFetch(fetched, db.commands)
    requires IsListing(ids, Refreshed(db.projections, reply, reach))
    modifies db`projections
    ensures db.projections == Refreshed(old(db.projections), reply, reach)
    ensures reply.Some? && Parseable(reply.value) ==> items == Records(Live(reply.value))
    ensures reply.None? || !Parseable(reply.value) ==>
              items == if AreObjects(ids, db.projections) then Records(Listed(ids, db.projections, fetched, Pending))
                  else []
  {
    if reply.Some? {
      PersistPurchaseRequests(db, reply.value, Some(WAITING), reach);
      var pending := ParsedPending(reply.value);
      if pending.Some? {
        return pending.value;
      }
    }
    items := GetProjectedPurchaseRequests(db, ids, fetched, Pending);
  }
}
