/** Decisions on purchase requests over runs of the command fabric: what the offline list of pending requests shows of a
    request that was decided while its stored raw status was still waiting (services/integration/command_service.py,
    admin_integration_service.py). */
module DecidedRequests {
  import opened Wrappers
  import opened Tables
  import opened CommandFabric
  import opened FabricInvariant
  import opened FabricRuns
  import CS = CommandService
  import RC = ResultConsumer
  import OutboxPublisher
  import PR = PurchaseRequests
  import Runs

  function Raw(row: Projection): string
    requires row.data.Object?
  {
    PR.TextOf(row.data.fields, "raw_status")
  }

  /** The portal's own status of the stored request is waiting for approval. */
  predicate RawWaits(row: Projection) {
    row.data.Object? && Raw(row) != "" && PR.MapStatus(Raw(row)) == PR.WAITING
  }

  /** The row carries a decision, but its raw status still waits. */
  predicate DecidedRow(row: Projection) {
    RawWaits(row) && row.sourceStatus != Some(PR.WAITING) && PR.TextOf(row.data.fields, "status") != PR.WAITING
  }

  ghost predicate Holds(w: World, id: string) {
    CS.PurchaseRow(id) in w.db.projections && DecidedRow(w.db.projections[CS.PurchaseRow(id)])
  }

  predicate SameRow(before: PR.Rows, after: PR.Rows, key: RowKey) {
    key in before && key in after && after[key] == before[key]
  }

  /** The step brings no news of the request from the portal: no message about its row, and no other write to it. All
      other steps are free, further decisions on the request included. */
  ghost predicate Quiet(w: World, step: Step, id: string) {
    match step
    case Deliver(m) => !RC.Touches(m, CS.PurchaseRow(id))
    case Project(rows) => SameRow(w.db.projections, rows, CS.PurchaseRow(id))
    case _ => true
  }

  ghost predicate FollowsQuietly(w: World, next: World, id: string) {
    exists step :: Enabled(w, step) && Quiet(w, step, id) && next == Apply(w, step)
  }

  /** A live pull without the request is quiet, whether it is scoped or not and however far its statements got. */
  lemma PullIsQuiet(w: World, raws: seq<PR.RawRequest>, scope: Option<string>, reach: PR.Reach, id: string)
    requires Holds(w, id) && !PR.Among(id, raws) && scope in {None, Some(PR.WAITING)}
    ensures Quiet(w, Project(PR.PersistUpTo(w.db.projections, raws, scope, reach)), id)
  {
    PR.PullKeepsRow(w.db.projections, raws, scope, reach, id);
  }

  /** So is the report of every command for resource type `request`, also of those that decide this very request. */
  lemma RequestReportIsQuiet(w: World, m: RC.Message, id: string)
    requires Inv(w) && m in w.results
    requires m.commandUuid.Some? && m.commandUuid.value in w.db.commands
             && w.db.commands[m.commandUuid.value].envelope.resourceType == "request"
    ensures Quiet(w, Deliver(m), id)
  {
    PR.ResultMissesRow(m, w.db.commands[m.commandUuid.value].envelope, id);
  }

  /** The step is a decision on the request, made while its raw status waits, and it is stored. */
  ghost predicate DecisionAccepted(w: World, step: Step, next: World, id: string) {
    && step.Submit? && Enabled(w, step) && next == Apply(w, step) && next != w
    && CS.IsRequest(step.envelope) && step.envelope.resourceId == id
    && CS.PurchaseRow(id) in w.db.projections && RawWaits(w.db.projections[CS.PurchaseRow(id)])
  }

  ghost predicate QuietBetween(trace: seq<World>, i: nat, j: nat, id: string)
    requires i <= j < |trace|
  {
    forall k | i <= k < j :: FollowsQuietly(trace[k], trace[k + 1], id)
  }

  /** What the offline read finds in the tables, with every stored row readable. */
  ghost predicate IsOfflineRead(db: Db, ids: seq<string>, fetched: seq<Command>) {
    PR.IsListing(ids, db.projections) && PR.AreObjects(ids, db.projections) && PR.IsFetch(fetched, db.commands)
  }

  /** The offline list of pending requests has an entry for the request. */
  ghost predicate ListedPending(db: Db, ids: seq<string>, fetched: seq<Command>, id: string)
    requires PR.AreObjects(ids, db.projections)
  {
    exists x: PR.Entry :: x.id == id && x in PR.Listed(ids, db.projections, fetched, PR.Pending)
  }

  // ---- The decision stays in the row ----

  lemma OtherSubmission(rows: PR.Rows, e: Envelope, displayName: string, s: CS.Supply, id: string)
    requires CS.Optimistic(rows, e, displayName, s).Some? && !(CS.IsRequest(e) && e.resourceId == id)
    requires CS.PurchaseRow(id) in rows
    ensures SameRow(rows, CS.Optimistic(rows, e, displayName, s).value, CS.PurchaseRow(id))
  {
  }

  lemma DecisionOnRow(rows: PR.Rows, e: Envelope, displayName: string, s: CS.Supply)
    requires CS.Optimistic(rows, e, displayName, s).Some? && CS.IsRequest(e)
    requires CS.PurchaseRow(e.resourceId) in rows && RawWaits(rows[CS.PurchaseRow(e.resourceId)])
    ensures CS.PurchaseRow(e.resourceId) in CS.Optimistic(rows, e, displayName, s).value
    ensures DecidedRow(CS.Optimistic(rows, e, displayName, s).value[CS.PurchaseRow(e.resourceId)])
  {
    PR.OptimisticRow(rows, e, displayName, s);
    PR.NewStatusIsDecided(e.commandType);
  }

  lemma SubmissionHolds(w: World, step: Step, id: string)
    requires step.Submit? && Enabled(w, step) && Apply(w, step) != w
    requires CS.PurchaseRow(id) in w.db.projections && RawWaits(w.db.projections[CS.PurchaseRow(id)])
    requires Holds(w, id) || (CS.IsRequest(step.envelope) && step.envelope.resourceId == id)
    ensures Holds(Apply(w, step), id)
  {
    var rows, e := w.db.projections, step.envelope;
    if CS.IsRequest(e) && e.resourceId == id {
      DecisionOnRow(rows, e, step.displayName, step.supply);
    } else {
      OtherSubmission(rows, e, step.displayName, step.supply, id);
    }
  }

  lemma AcceptedDecisionHolds(w: World, step: Step, next: World, id: string)
    requires DecisionAccepted(w, step, next, id)
    ensures Holds(next, id)
  {
    SubmissionHolds(w, step, id);
  }

  lemma StepHolds(w: World, step: Step, id: string)
    requires Holds(w, id) && Enabled(w, step) && Quiet(w, step, id)
    ensures Holds(Apply(w, step), id)
  {
    if step.Deliver? {
      PR.MessageKeepsRow(w.db, step.message, CS.PurchaseRow(id));
    } else if step.Submit? && Apply(w, step) != w {
      SubmissionHolds(w, step, id);
    }
  }

  lemma QuietStepsHold(trace: seq<World>, i: nat, j: nat, id: string)
    requires i <= j < |trace| && Holds(trace[i], id)
    requires QuietBetween(trace, i, j, id)
    ensures Holds(trace[j], id)
  {
    var follows, inv := (a: World, b: World) => FollowsQuietly(a, b, id), (w: World) => Holds(w, id);
    var part := trace[i..j + 1];
    forall k | 0 <= k < |part| - 1 ensures follows(part[k], part[k + 1]) {
      assert part[k] == trace[i + k] && part[k + 1] == trace[i + k + 1];
      assert FollowsQuietly(trace[i + k], trace[i + k + 1], id);
    }
    forall a: World, b: World | inv(a) && follows(a, b) ensures inv(b) {
      var step :| Enabled(a, step) && Quiet(a, step, id) && b == Apply(a, step);
      StepHolds(a, step, id);
    }
    Runs.KeptByRun(part, follows, inv, 0, j - i);
  }

  lemma DecisionStays(trace: seq<World>, i: nat, j: nat, step: Step, id: string)
    requires i < j < |trace| && DecisionAccepted(trace[i], step, trace[i + 1], id) && QuietBetween(trace, i + 1, j, id)
    ensures Holds(trace[j], id)
  {
    AcceptedDecisionHolds(trace[i], step, trace[i + 1], id);
    QuietStepsHold(trace, i + 1, j, id);
  }

  // ---- What the offline list shows of it ----

  lemma {:induction false} WinnerIsFetched(fetched: seq<Command>, id: string)
    ensures PR.Winner(fetched, id).Some? ==>
              PR.Winner(fetched, id).value in fetched && PR.Winner(fetched, id).value.envelope.resourceId == id
    ensures PR.Winner(fetched, id).None? ==> forall c | c in fetched :: c.envelope.resourceId != id
  {
    if fetched != [] {
      WinnerIsFetched(fetched[..|fetched| - 1], id);
      assert fetched == fetched[..|fetched| - 1] + [fetched[|fetched| - 1]];
    }
  }

  lemma NoWinnerIff(fetched: seq<Command>, commands: map<CommandId, Command>, id: string)
    requires PR.IsFetch(fetched, commands)
    ensures PR.Winner(fetched, id).None? <==> PR.NoneActive(commands, id)
  {
    WinnerIsFetched(fetched, id);
    if PR.Winner(fetched, id).Some? {
      var i :| 0 <= i < |fetched| && fetched[i] == PR.Winner(fetched, id).value;
      assert PR.IsActive(fetched[i]) && PR.Stored(fetched[i], commands);
    }
  }

  lemma ShownWaitingIff(row: Projection, fetched: seq<Command>, id: string)
    requires DecidedRow(row)
    ensures PR.TextOf(PR.Shown(id, row.data.fields, fetched), "status") == PR.WAITING <==> PR.Winner(fetched, id).None?
  {
  }

  lemma ListedIffNoneActive(w: World, id: string, ids: seq<string>, fetched: seq<Command>)
    requires Holds(w, id) && IsOfflineRead(w.db, ids, fetched)
    ensures ListedPending(w.db, ids, fetched, id) <==> PR.NoneActive(w.db.commands, id)
  {
    var rows := w.db.projections;
    var entry := PR.Entry(id, PR.ShownRow(id, rows, fetched));
    NoWinnerIff(fetched, w.db.commands, id);
    ShownWaitingIff(rows[CS.PurchaseRow(id)], fetched, id);
    forall x: PR.Entry | x.id == id
      ensures x in PR.Listed(ids, rows, fetched, PR.Pending) <==> x == entry && PR.Passes(PR.Pending, entry.record)
    {
      PR.InListed(ids, rows, fetched, PR.Pending, x);
    }
  }

  /** Main result: once a decision on a request whose raw status waits has been accepted, then in every later state, as
      long as the portal sends no news of the request, the offline list shows it as pending if and only if no command
      of resource type `request` for it is queued or processing. Whether the decision has been carried out makes no
      difference. */
  lemma DecidedRequestReturnsIff(
    trace: seq<World>, i: nat, j: nat, step: Step, id: string, ids: seq<string>, fetched: seq<Command>)
    requires i < j < |trace| && DecisionAccepted(trace[i], step, trace[i + 1], id) && QuietBetween(trace, i + 1, j, id)
    requires IsOfflineRead(trace[j].db, ids, fetched)
    ensures ListedPending(trace[j].db, ids, fetched, id) <==> PR.NoneActive(trace[j].db.commands, id)
  {
    DecisionStays(trace, i, j, step, id);
    ListedIffNoneActive(trace[j], id, ids, fetched);
  }

  /** A decision of resource type `purchase_request` covers the request at no time: it is listed as pending right after
      its submission, unless an earlier command of the other type covers it. */
  lemma OtherTypeIsNeverCovered(
    w: World, step: Step, next: World, id: string, ids: seq<string>, fetched: seq<Command>)
    requires DecisionAccepted(w, step, next, id) && step.envelope.resourceType == "purchase_request"
    requires IsOfflineRead(next.db, ids, fetched)
    ensures ListedPending(next.db, ids, fetched, id) <==> PR.NoneActive(w.db.commands, id)
  {
    AcceptedDecisionHolds(w, step, next, id);
    ListedIffNoneActive(next, id, ids, fetched);
    InsertShape(w, step);
    assert !PR.IsActive(Command(step.envelope, step.key, QUEUED, None));
    assert forall c | c in w.db.commands :: next.db.commands[c] == w.db.commands[c];
  }

  // ---- Such a state is reached ----

  predicate IsDecision(e: Envelope) {
    e.target == "administration" && e.resourceType == "request" && e.correlation != "" && e.commandId != ""
  }

  function OneRow(id: string, row: Projection): PR.Rows { map[CS.PurchaseRow(id) := row] }

  function Pulled(id: string, row: Projection): World { INITIAL.(db := INITIAL.db.(projections := OneRow(id, row))) }

  function NoSupply(e: Envelope): CS.Supply { CS.Supply(e.commandId, "", 0, "", Null) }

  function DecidedRows(e: Envelope, row: Projection): Option<PR.Rows> {
    CS.Optimistic(OneRow(e.resourceId, row), e, "", NoSupply(e))
  }

  function WithRows(w: World, rows: PR.Rows): World { w.(db := w.db.(projections := rows)) }

  /** Pull, submit, fetch, send, record: the command is now with the broker, and nobody has carried it out. */
  function DecisionRun(e: Envelope, row: Projection): seq<World>
    requires DecidedRows(e, row).Some?
  {
    var rows := DecidedRows(e, row).value;
    [INITIAL, Pulled(e.resourceId, row), WithRows(Submitted(e), rows), WithRows(Fetched(e), rows),
     WithRows(Sending(e), rows), WithRows(Published(e), rows)]
  }

  lemma PullAndSubmit(e: Envelope, row: Projection)
    requires IsDecision(e) && DecidedRows(e, row).Some?
    ensures var trace, step := DecisionRun(e, row), Submit(e, None, "", NoSupply(e));
            && Follows(trace[0], trace[1]) && Enabled(trace[1], step) && trace[2] == Apply(trace[1], step)
               && trace[2] != trace[1]
  {
    var trace := DecisionRun(e, row);
    assert Enabled(trace[0], Project(OneRow(e.resourceId, row)))
           && trace[1] == Apply(trace[0], Project(OneRow(e.resourceId, row)));
  }

  lemma FetchQuietly(e: Envelope, rows: PR.Rows)
    ensures FollowsQuietly(WithRows(Submitted(e), rows), WithRows(Fetched(e), rows), e.resourceId)
  {
    FetchOnly(WithRows(Submitted(e), rows), e);
    assert WithRows(Fetched(e), rows) == Apply(WithRows(Submitted(e), rows), Fetch(1, [0]));
  }

  lemma SendQuietly(e: Envelope, rows: PR.Rows)
    ensures FollowsQuietly(WithRows(Fetched(e), rows), WithRows(Sending(e), rows), e.resourceId)
  {
    SendOnly(WithRows(Fetched(e), rows), e);
    assert WithRows(Sending(e), rows) == Apply(WithRows(Fetched(e), rows), Send);
  }

  lemma RecordQuietly(e: Envelope, rows: PR.Rows)
    ensures FollowsQuietly(WithRows(Sending(e), rows), WithRows(Published(e), rows), e.resourceId)
  {
    var w, step := WithRows(Sending(e), rows), Record(OutboxPublisher.Confirmed);
    assert Enabled(w, step);
    assert Apply(w, step).db == WithRows(Published(e), rows).db;
    assert Apply(w, step) == WithRows(Published(e), rows);
  }

  lemma DecisionRunReturns(e: Envelope, row: Projection)
    requires IsDecision(e) && RawWaits(row)
    ensures DecidedRows(e, row).Some?
    ensures var trace := DecisionRun(e, row);
            && Holds(trace[5], e.resourceId) && IsOfflineRead(trace[5].db, [e.resourceId], [])
            && PR.NoneActive(trace[5].db.commands, e.resourceId)
            && trace[5].db.commands == map[e.commandId := Command(e, None, DISPATCHED, None)]
  {
    var trace := DecisionRun(e, row);
    DecisionOnRow(OneRow(e.resourceId, row), e, "", NoSupply(e));
  }

  /** A run of six states with this one command, in which the offline list shows the request as pending in the end. */
  ghost predicate RunReturns(trace: seq<World>, c: Command) {
    && IsRun(trace) && |trace| == 6 && trace[5].db.commands == map[c.envelope.commandId := c]
    && IsOfflineRead(trace[5].db, [c.envelope.resourceId], [])
    && ListedPending(trace[5].db, [c.envelope.resourceId], [], c.envelope.resourceId)
  }

  /** Every decision on every request whose raw status waits can take this course. */
  lemma EveryDecisionCanReturn(e: Envelope, row: Projection)
    requires IsDecision(e) && RawWaits(row)
    ensures exists trace: seq<World> :: RunReturns(trace, Command(e, None, DISPATCHED, None))
  {
    DecisionRunReturns(e, row);
    DecisionRunIsRun(e, row);
    var trace := DecisionRun(e, row);
    ListedIffNoneActive(trace[5], e.resourceId, [e.resourceId], []);
    assert RunReturns(trace, Command(e, None, DISPATCHED, None));
  }

  lemma DecisionRunIsRun(e: Envelope, row: Projection)
    requires IsDecision(e) && DecidedRows(e, row).Some?
    ensures IsRun(DecisionRun(e, row))
  {
    var rows := DecidedRows(e, row).value;
    PullAndSubmit(e, row);
    FetchQuietly(e, rows);
    SendQuietly(e, rows);
    RecordQuietly(e, rows);
    QuietlyFollows(WithRows(Submitted(e), rows), WithRows(Fetched(e), rows), e.resourceId);
    QuietlyFollows(WithRows(Fetched(e), rows), WithRows(Sending(e), rows), e.resourceId);
    QuietlyFollows(WithRows(Sending(e), rows), WithRows(Published(e), rows), e.resourceId);
    FiveSteps(INITIAL, Pulled(e.resourceId, row), WithRows(Submitted(e), rows), WithRows(Fetched(e), rows),
              WithRows(Sending(e), rows), WithRows(Published(e), rows));
  }

  lemma FiveSteps(a: World, b: World, c: World, d: World, e: World, f: World)
    requires a == INITIAL && Follows(a, b) && Follows(b, c) && Follows(c, d) && Follows(d, e) && Follows(e, f)
    ensures IsRun([a, b, c, d, e, f])
  {
  }

  lemma QuietlyFollows(w: World, next: World, id: string)
    requires FollowsQuietly(w, next, id)
    ensures Follows(w, next)
  {
  }

  lemma WaitingMapsToWaiting()
    ensures PR.MapStatus(PR.WAITING) == PR.WAITING
  {
    PR.LongStatusesAreTidy();
    PR.TidyTwice(PR.WAITING);
  }

  /** A concrete request: pulled while it waited, approved by the CEO, and pending again as soon as the approval is with
      the broker. */
  lemma ApprovedRequestReturns()
    ensures exists trace: seq<World> ::
              RunReturns(trace, Command(Envelope("c", "APPROVE_REQUEST", "administration", "request", "7", map[], "k"),
                                        None, DISPATCHED, None))
  {
    var raw := PR.RawRequest("7", PR.WAITING, Some(map[]));
    WaitingMapsToWaiting();
    EveryDecisionCanReturn(Envelope("c", "APPROVE_REQUEST", "administration", "request", "7", map[], "k"),
                           Projection(1, Object(PR.Parse(raw)), Some(PR.WAITING), false));
  }
}
