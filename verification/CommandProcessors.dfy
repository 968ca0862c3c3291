/** What the two command processors report about a command (services/integration/admin_command_processor.py,
    ma_command_processor.py), and what those reports do to the tables. Remote services are oracles. */
module CommandProcessors {
  import opened Wrappers
  import opened Tables
  import RC = ResultConsumer
  import CF = CommandFabric
  import FI = FabricInvariant
  import PR = PurchaseRequests
  import Text

  /** What `execute_purchase_transition` does. An error is any JSON value, as the portal sends it. */
  datatype Transition = Answered(success: bool, error: Option<Json>) | Raised(message: string)

  /** What happens outside the process: whether the service came online in time, the transition's answer, the list of
      assignments fetched after the portal accepted one, and the text of an exception raised while building the
      report. */
  datatype Outside = Outside(
    online: bool, transition: Transition, refetched: Option<Json>, errorText: string, displayName: string,
    clock: string)

  datatype Verdict = Succeeded(sourceStatus: Option<string>, projection: Fields) | Failed(failure: Failure)

  function Get(payload: Fields, key: string, default: Json): Json {
    if key in payload then payload[key] else default
  }

  /** The report with the given verdict, as `model_dump` renders it. */
  function Report(e: Envelope, source: string, v: Verdict): RC.Message {
    RC.Message(
      Some(RC.RESULT), Some(e.commandId), Some(e.commandId), Some(e.correlation), Some(source),
      Some(Text.Upper(e.commandType)),
      Some(e.resourceType), Some(e.resourceId), Some(if v.Succeeded? then "SUCCEEDED" else "FAILED"),
      if v.Succeeded? then v.sourceStatus else None, None, if v.Failed? then Some(v.failure) else None,
      if v.Succeeded? then Some(v.projection) else None, None, true)
  }

  // ---- Administration ----

  predicate IsDecision(commandType: string) { commandType in ["APPROVE_REQUEST", "REJECT_REQUEST", "CANCEL_REQUEST"] }

  datatype Action = Approve | Reject | Cancel

  function ActionOf(commandType: string): Action {
    if Text.Contains(commandType, "APPROVE") then Approve
    else if Text.Contains(commandType, "REJECT") then Reject else Cancel
  }

  /** The action's word with a D appended. */
  function StatusAfter(a: Action): string {
    match a
    case Approve => "APPROVED"
    case Reject => "REJECTD"
    case Cancel => "CANCELD"
  }

  function Decision(e: Envelope, out: Outside): Verdict {
    match out.transition
    case Raised(message) => Failed(Failure("EXECUTION_ERROR", message, true))
    case Answered(true, _) =>
      var status := StatusAfter(ActionOf(Text.Upper(e.commandType)));
      Succeeded(Some(status),
                map["id" := Str(e.resourceId), "status" := Str(status), "approved_by" := Str(out.displayName),
                    "approval_note" := Get(e.payload, "note", Null), "updated_at" := Str(out.clock)])
    case Answered(false, None) => Failed(Failure("TRANSITION_FAILED", "Action failed in Administration service", false))
    case Answered(false, Some(Str(message))) => Failed(Failure("TRANSITION_FAILED", message, false))
    case Answered(false, Some(_)) => Failed(Failure("EXECUTION_ERROR", out.errorText, true))
  }

  function TimedOut(service: string): Verdict {
    Failed(Failure("SERVICE_TIMEOUT", service + " did not reconnect within timeout period.", true))
  }

  function Unsupported(commandType: string, service: string): Verdict {
    Failed(Failure("UNSUPPORTED_COMMAND", "Command " + commandType + " is not supported by " + service, false))
  }

  function Assignment(e: Envelope, out: Outside): Verdict {
    Succeeded(Some("ASSIGNED"),
              map["role_code" := Get(e.payload, "role_code", Str(e.resourceId)),
                  "members" := Get(e.payload, "members", List([])),
                  "updated_at" := Str(out.clock)])
  }

  function Removal(e: Envelope, out: Outside): Verdict {
    Succeeded(Some("REMOVED"),
              map["role_code" := Get(e.payload, "role_code", Null),
                  "removed_user_id" := Get(e.payload, "user_id", Str(e.resourceId)),
                  "updated_at" := Str(out.clock)])
  }

  predicate IsWorkflow(commandType: string) {
    commandType in ["CREATE_WORKFLOW_ASSIGNMENT", "UPDATE_WORKFLOW_ASSIGNMENT"]
  }

  /** Only a decision depends on what the portal answers; the other commands succeed whatever it does. */
  function AdminVerdict(e: Envelope, out: Outside): Verdict {
    var commandType := Text.Upper(e.commandType);
    if !out.online then TimedOut("Administration Portal")
    else if IsDecision(commandType) then Decision(e, out)
    else if commandType == "ASSIGN_APPROVER_MEMBERS" then Assignment(e, out)
    else if commandType == "REMOVE_APPROVER_MEMBER" then Removal(e, out)
    else if IsWorkflow(commandType) then Succeeded(Some("SYNCED"), e.payload)
    else Unsupported(commandType, "Administration service")
  }

  const ASSIGNMENTS := RowKey("administration", "workflow_assignment", "all")

  function Refreshed(rows: map<RowKey, Projection>, e: Envelope, out: Outside): map<RowKey, Projection> {
    if out.online && IsWorkflow(Text.Upper(e.commandType)) && out.refetched.Some? then
      var version := if ASSIGNMENTS in rows then rows[ASSIGNMENTS].version else 1;
      rows[ASSIGNMENTS := Projection(version, out.refetched.value, Some("SYNCED"), false)]
    else rows
  }

  method ProcessAdminCommand(db: Database, e: Envelope, out: Outside) returns (report: RC.Message)
    modifies db`commands, db`projections
    ensures report == Report(e, "administration", AdminVerdict(e, out))
    ensures db.commands == CF.Processing(old(db.commands), e.commandId)
    ensures db.projections == Refreshed(old(db.projections), e, out)
  {
    var commandType := Text.Upper(e.commandType);
    if e.commandId in db.commands {
      db.commands := db.commands[e.commandId := db.commands[e.commandId].(status := PROCESSING)];
    }
    var verdict: Verdict;
    if !out.online {
      verdict := TimedOut("Administration Portal");
    } else if IsDecision(commandType) {
      verdict := Decision(e, out);
    } else if commandType == "ASSIGN_APPROVER_MEMBERS" {
      verdict := Assignment(e, out);
    } else if commandType == "REMOVE_APPROVER_MEMBER" {
      verdict := Removal(e, out);
    } else if IsWorkflow(commandType) {
      if out.refetched.Some? {
        var version := 1;
        if ASSIGNMENTS in db.projections {
          version := db.projections[ASSIGNMENTS].version;
        }
        db.projections := db.projections[ASSIGNMENTS :=
            Projection(version, out.refetched.value, Some("SYNCED"), false)];
      }
      verdict := Succeeded(Some("SYNCED"), e.payload);
    } else {
      verdict := Unsupported(commandType, "Administration service");
    }
    report := Report(e, "administration", verdict);
  }

  // ---- Mergers and acquisitions ----

  function MaStage(e: Envelope, out: Outside): Verdict {
    match Get(e.payload, "stage", Str("DUE_DILIGENCE"))
    case Str(stage) =>
      Succeeded(Some(Text.Upper(stage)),
                map["deal_id" := Str(e.resourceId), "stage" := Str(Text.Upper(stage)),
                    "transition_note" := Get(e.payload, "note", Null),
                    "updated_by" := Str(out.displayName), "updated_at" := Str(out.clock)])
    case _ => Failed(Failure("EXECUTION_ERROR", out.errorText, true))
  }

  /** None when the report cannot be built, because the status among the updates is neither a text nor null: the
      processor then raises and sends nothing. */
  function MaUpdate(e: Envelope, out: Outside): Option<Verdict> {
    match Get(e.payload, "updates", Object(map[]))
    case Object(updates) =>
      var projection := map["deal_id" := Str(e.resourceId)] + updates + map["updated_at" := Str(out.clock)];
      (match Get(updates, "status", Str("ACTIVE"))
       case Str(status) => Some(Succeeded(Some(status), projection))
       case Null => Some(Succeeded(None, projection))
       case _ => None)
    case _ => Some(Failed(Failure("EXECUTION_ERROR", out.errorText, true)))
  }

  function MaLead(e: Envelope, out: Outside): Verdict {
    Succeeded(Some("ASSIGNED"),
              map["deal_id" := Str(e.resourceId), "lead_user_id" := Get(e.payload, "lead_user_id", Null),
                  "lead_name" := Get(e.payload, "lead_name", Null), "updated_at" := Str(out.clock)])
  }

  function MaVerdict(e: Envelope, out: Outside): Option<Verdict> {
    var commandType := Text.Upper(e.commandType);
    if !out.online then Some(TimedOut("M&A microservice"))
    else if commandType == "TRANSITION_DEAL_STAGE" then Some(MaStage(e, out))
    else if commandType == "UPDATE_DEAL" then MaUpdate(e, out)
    else if commandType == "ASSIGN_DEAL_LEAD" then Some(MaLead(e, out))
    else Some(Unsupported(commandType, "M&A service"))
  }

  method ProcessMaCommand(db: Database, e: Envelope, out: Outside) returns (report: Option<RC.Message>)
    modifies db`commands
    ensures report == match MaVerdict(e, out) case Some(v) => Some(Report(e, "ma", v)) case None => None
    ensures db.commands == CF.Processing(old(db.commands), e.commandId)
  {
    var commandType := Text.Upper(e.commandType);
    if e.commandId in db.commands {
      db.commands := db.commands[e.commandId := db.commands[e.commandId].(status := PROCESSING)];
    }
    var verdict: Option<Verdict>;
    if !out.online {
      verdict := Some(TimedOut("M&A microservice"));
    } else if commandType == "TRANSITION_DEAL_STAGE" {
      verdict := Some(MaStage(e, out));
    } else if commandType == "UPDATE_DEAL" {
      verdict := MaUpdate(e, out);
    } else if commandType == "ASSIGN_DEAL_LEAD" {
      verdict := Some(MaLead(e, out));
    } else {
      verdict := Some(Unsupported(commandType, "M&A service"));
    }
    report := if verdict.Some? then Some(Report(e, "ma", verdict.value)) else None;
  }

  // ---- What the reports do ----

  lemma ServiceNamesAreLower()
    ensures Text.Lower("administration") == "administration" && Text.Lower("ma") == "ma"
  {
    Text.LowerOfLower("administration");
    Text.LowerOfLower("ma");
  }

  /** Both processors send only reports the command fabric allows: about the command itself, with its correlation id,
      with one of two results, and well formed. */
  lemma ReportsAreReports(e: Envelope, v: Verdict)
    requires e.target == "administration" || e.target == "ma"
    ensures CF.IsReport(e, Report(e, e.target, v))
  {
    ServiceNamesAreLower();
  }

  /** A failure changes the command and the audit log, and no projection. */
  lemma FailureKeepsProjections(db: Db, e: Envelope, v: Verdict)
    requires v.Failed? && (e.target == "administration" || e.target == "ma")
    ensures RC.Consume(db, Report(e, e.target, v)).projections == db.projections
  {
    var m := Report(e, e.target, v);
    assert RC.ResultData(m) == map[];
  }

  function RowFor(e: Envelope): RowKey { RowKey(e.target, Text.Lower(e.resourceType), e.resourceId) }

  /** What a report with this verdict sets a field to, if anything. */
  function Sets(v: Verdict, f: string): Option<Json> {
    if v.Failed? then None
    else if f == "status" && Truthy(v.sourceStatus) then Some(Str(v.sourceStatus.value))
    else RC.Lookup(v.projection, f)
  }

  lemma ReportData(e: Envelope, v: Verdict, f: string)
    ensures RC.Lookup(RC.ResultData(Report(e, e.target, v)), f) == Sets(v, f)
  {
  }

  lemma ReportRow(e: Envelope, v: Verdict)
    requires e.target == "administration" || e.target == "ma"
    ensures var m := Report(e, e.target, v);
            RC.Parses(m) && RC.IsResult(m) && !RC.IsEvent(m) && RC.HasConnector(RC.SourceOf(m))
                && RC.RowOf(m) == RowFor(e)
  {
    ServiceNamesAreLower();
  }

  lemma ReportSettles(e: Envelope, v: Verdict, f: string)
    requires e.target == "administration" || e.target == "ma"
    ensures var m := Report(e, e.target, v);
            && RC.Parses(m) && RC.IsResult(m) && !RC.IsEvent(m)
            && RC.Settles(m, RowFor(e), f) == Sets(v, f).Some?
            && (Sets(v, f).Some? ==> RC.FieldIn(m, f) == Sets(v, f))
  {
    ReportData(e, v, f);
    ReportRow(e, v);
    assert f in RC.ResultData(Report(e, e.target, v)) ==> RC.ResultData(Report(e, e.target, v)) != map[];
  }

  /** A report that is the first of its inbox key merges exactly the fields of its verdict into the command's own row
      and keeps every other field of that row. */
  lemma ReportMergesItsFields(db: Db, e: Envelope, v: Verdict, f: string)
    requires e.target == "administration" || e.target == "ma"
    requires RC.HoldsObject(db, RowFor(e)) && RC.InboxKey(Report(e, e.target, v)) !in db.inbox
    ensures var m := Report(e, e.target, v);
            RC.Field(RC.Consume(db, m), RowFor(e), f) ==
                if Sets(v, f).Some? then Sets(v, f) else RC.Field(db, RowFor(e), f)
  {
    ReportSettles(e, v, f);
    RC.EffectOnField(db, Report(e, e.target, v), RowFor(e), f);
  }

  lemma LacksWord(s: string, needle: string, i: nat)
    requires i < |needle| && needle[i] !in s
    ensures !Text.Contains(s, needle)
  {
    if Text.Contains(s, needle) {
      Text.ContainedChars(s, needle, needle[i]);
    }
  }

  lemma ActionOfReject()
    ensures ActionOf("REJECT_REQUEST") == Reject
  {
    LacksWord("REJECT_REQUEST", "APPROVE", 4);
    assert Text.IsPrefix("REJECT", "REJECT_REQUEST");
  }

  lemma CancelIsNotApprove()
    ensures !Text.Contains("CANCEL_REQUEST", "APPROVE")
  {
    LacksWord("CANCEL_REQUEST", "APPROVE", 4);
  }

  lemma CancelIsNotReject()
    ensures !Text.Contains("CANCEL_REQUEST", "REJECT")
  {
    LacksWord("CANCEL_REQUEST", "REJECT", 2);
  }

  lemma ActionOfApprove()
    ensures ActionOf("APPROVE_REQUEST") == Approve
  {
    assert Text.IsPrefix("APPROVE", "APPROVE_REQUEST");
  }

  /** Each decision command gets its own action. */
  lemma ActionsOfDecisions()
    ensures ActionOf("APPROVE_REQUEST") == Approve && ActionOf("REJECT_REQUEST") == Reject
            && ActionOf("CANCEL_REQUEST") == Cancel
  {
    ActionOfApprove();
    ActionOfReject();
    CancelIsNotApprove();
    CancelIsNotReject();
  }

  lemma StatusIsTidy(a: Action)
    ensures PR.IsTidy(StatusAfter(a))
  {
  }

  lemma StatusMapsToItself(a: Action)
    ensures PR.MapTidied(StatusAfter(a)) == StatusAfter(a)
  {
  }

  // ---- From the portal's answer to the tables ----

  /** The world after processor and consumer have dealt with a command: Start, Finish, Deliver. */
  ghost function Handled(w: CF.World, e: Envelope, v: Verdict): CF.World {
    var m := Report(e, e.target, v);
    w.(db := RC.Consume(w.db.(commands := CF.Processing(w.db.commands, e.commandId)), m),
       started := w.started + {e}, results := w.results + {m})
  }

  ghost predicate CanBeHandled(w: CF.World, e: Envelope) {
    FI.Inv(w) && (e in w.sent || e in w.recovered) && RC.ResultKey(e) !in w.db.inbox && CF.CS.Registered(e.target)
  }

  lemma HandledInThreeSteps(w: CF.World, e: Envelope, v: Verdict)
    requires CanBeHandled(w, e)
    ensures var m := Report(e, e.target, v);
            var started := CF.Apply(w, CF.Start(e));
            && CF.Enabled(w, CF.Start(e)) && CF.Enabled(started, CF.Finish(e, m))
            && CF.Enabled(CF.Apply(started, CF.Finish(e, m)), CF.Deliver(m))
            && CF.Apply(CF.Apply(started, CF.Finish(e, m)), CF.Deliver(m)) == Handled(w, e, v)
  {
    ReportsAreReports(e, v);
  }

  lemma FirstReportCounts(db: Db, e: Envelope, v: Verdict)
    requires CF.CS.Registered(e.target) && e.correlation != "" && e.commandId != "" && RC.ResultKey(e) !in db.inbox
    requires e.commandId in db.commands && HasObject(db, e)
    ensures var m := Report(e, e.target, v);
            var after := RC.Consume(db, m);
            && RC.InboxKey(m) !in db.inbox && e.commandId in after.commands
            && after.commands[e.commandId].status == (if v.Succeeded? then SUCCEEDED else FAILED)
            && after.commands[e.commandId].failure == (if v.Failed? then Some(v.failure) else None)
  {
    var m := Report(e, e.target, v);
    ReportsAreReports(e, v);
    RC.AnswersHaveResultKey(m, e);
    FI.ReportedStatus(m);
    ReportedResult(v);
  }

  lemma ReportedResult(v: Verdict)
    ensures StatusFromText(Text.Upper(if v.Succeeded? then "SUCCEEDED" else "FAILED")) ==
            if v.Succeeded? then SUCCEEDED else FAILED
  {
    assert Text.IsUpper("SUCCEEDED") && Text.IsUpper("FAILED");
    Text.UpperOfUpper("SUCCEEDED");
    Text.UpperOfUpper("FAILED");
  }

  ghost predicate HasObject(db: Db, e: Envelope) { RC.HoldsObject(db, RowFor(e)) }

  /** A command whose conversation is open ends as its verdict says, in both processors: SUCCEEDED with exactly the
      verdict's fields merged into its row, or FAILED with its failure and no projection touched. */
  lemma HandledAsJudged(w: CF.World, e: Envelope, v: Verdict, f: string)
    requires CanBeHandled(w, e) && HasObject(w.db, e)
    ensures var after := Handled(w, e, v).db;
            && e.commandId in after.commands
            && after.commands[e.commandId].status == (if v.Succeeded? then SUCCEEDED else FAILED)
            && after.commands[e.commandId].failure == (if v.Failed? then Some(v.failure) else None)
            && (v.Failed? ==> after.projections == w.db.projections)
            && RC.Field(after, RowFor(e), f) == if Sets(v, f).Some? then Sets(v, f) else RC.Field(w.db, RowFor(e), f)
  {
    assert FI.Known(w.db.commands, e);
    var db := w.db.(commands := CF.Processing(w.db.commands, e.commandId));
    FirstReportCounts(db, e, v);
    ReportMergesItsFields(db, e, v, f);
    if v.Failed? {
      FailureKeepsProjections(db, e, v);
    }
  }

  // ---- What the answers make of a command ----

  lemma StatusIsNotEmpty(a: Action)
    ensures StatusAfter(a) != ""
  {
  }

  predicate IsSomeDecision(e: Envelope) { IsDecision(Text.Upper(e.commandType)) }

  function ActionFor(e: Envelope): Action { ActionOf(Text.Upper(e.commandType)) }

  lemma DecisionVerdict(e: Envelope, out: Outside)
    requires out.online && IsSomeDecision(e)
    ensures AdminVerdict(e, out) == Decision(e, out)
  {
  }

  predicate DecisionField(f: string) {
    f == "id" || f == "status" || f == "approved_by" || f == "approval_note" || f == "updated_at"
  }

  lemma DecisionSets(e: Envelope, out: Outside)
    requires out.transition.Answered? && out.transition.success
    ensures var v := Decision(e, out);
            && v.Succeeded? && v.sourceStatus == Some(StatusAfter(ActionFor(e)))
            && Sets(v, "status") == Some(Str(StatusAfter(ActionFor(e))))
            && Sets(v, "approved_by") == Some(Str(out.displayName))
            && Sets(v, "approval_note") == Some(Get(e.payload, "note", Null))
  {
    StatusIsNotEmpty(ActionFor(e));
  }

  lemma DecisionSetsNoOther(e: Envelope, out: Outside, f: string)
    requires out.transition.Answered? && out.transition.success && !DecisionField(f)
    ensures Sets(Decision(e, out), f) == None
  {
  }

  /** Main result on decisions the portal carried out: the command ends SUCCEEDED, its row holds the action's status,
      the decider and the note, and keeps every other field. */
  lemma CarriedOutDecision(w: CF.World, e: Envelope, out: Outside, f: string)
    requires CanBeHandled(w, e) && HasObject(w.db, e) && e.target == "administration" && out.online && IsSomeDecision(e)
    requires out.transition.Answered? && out.transition.success
    ensures var after := Handled(w, e, AdminVerdict(e, out)).db;
            && e.commandId in after.commands && after.commands[e.commandId].status == SUCCEEDED
            && RC.Field(after, RowFor(e), "status") == Some(Str(StatusAfter(ActionFor(e))))
            && RC.Field(after, RowFor(e), "approved_by") == Some(Str(out.displayName))
            && RC.Field(after, RowFor(e), "approval_note") == Some(Get(e.payload, "note", Null))
            && (!DecisionField(f) ==> RC.Field(after, RowFor(e), f) == RC.Field(w.db, RowFor(e), f))
  {
    var v := Decision(e, out);
    DecisionVerdict(e, out);
    DecisionSets(e, out);
    HandledAsJudged(w, e, v, "status");
    HandledAsJudged(w, e, v, "approved_by");
    HandledAsJudged(w, e, v, "approval_note");
    if !DecisionField(f) {
      DecisionSetsNoOther(e, out, f);
      HandledAsJudged(w, e, v, f);
    }
  }

  /** The portal refused, with a text as reason or without a reason. */
  predicate PlainlyRefused(t: Transition) {
    t.Answered? && !t.success && (t.error.Some? ==> t.error.value.Str?)
  }

  lemma FailedVerdict(e: Envelope, out: Outside)
    requires IsSomeDecision(e) && !(out.online && out.transition.Answered? && out.transition.success)
    ensures AdminVerdict(e, out).Failed?
    ensures AdminVerdict(e, out).failure.retryable <==> !(out.online && PlainlyRefused(out.transition))
  {
  }

  /** A refusal whose reason is a list, as for a request that fails the portal's validation. */
  lemma ListedReasonIsRetryable(e: Envelope, out: Outside, reasons: seq<Json>)
    requires IsSomeDecision(e) && out.online && out.transition == Answered(false, Some(List(reasons)))
    ensures AdminVerdict(e, out) == Failed(Failure("EXECUTION_ERROR", out.errorText, true))
  {
    DecisionVerdict(e, out);
  }

  /** A decision the portal refused, or that raised, or that waited in vain, ends FAILED and touches no projection; it
      is not to be tried again if and only if the portal refused it with a text as reason or without one. A refusal
      with another reason, such as a list of invalid fields, counts as an error of the processor. */
  lemma FailedDecision(w: CF.World, e: Envelope, out: Outside)
    requires CanBeHandled(w, e) && HasObject(w.db, e) && e.target == "administration" && IsSomeDecision(e)
    requires !(out.online && out.transition.Answered? && out.transition.success)
    ensures var after := Handled(w, e, AdminVerdict(e, out)).db;
            && e.commandId in after.commands && after.commands[e.commandId].status == FAILED
            && after.projections == w.db.projections && after.commands[e.commandId].failure.Some?
            && (after.commands[e.commandId].failure.value.retryable <==>
               !(out.online && PlainlyRefused(out.transition)))
  {
    FailedVerdict(e, out);
    HandledAsJudged(w, e, AdminVerdict(e, out), "status");
  }

  predicate IsLocalCommand(commandType: string) {
    commandType == "ASSIGN_APPROVER_MEMBERS" || commandType == "REMOVE_APPROVER_MEMBER" || IsWorkflow(commandType)
  }

  predicate AdminSucceeds(e: Envelope, out: Outside) {
    && out.online
    && (IsLocalCommand(Text.Upper(e.commandType))
        || (IsSomeDecision(e) && out.transition.Answered? && out.transition.success))
  }

  lemma AdminVerdictIff(e: Envelope, out: Outside)
    ensures AdminVerdict(e, out).Succeeded? <==> AdminSucceeds(e, out)
  {
  }

  lemma EndsAsJudged(w: CF.World, e: Envelope, v: Verdict)
    requires CanBeHandled(w, e) && HasObject(w.db, e)
    ensures var after := Handled(w, e, v).db;
            e.commandId in after.commands && (after.commands[e.commandId].status == SUCCEEDED <==> v.Succeeded?)
  {
    HandledAsJudged(w, e, v, "status");
  }

  /** Exactness for the administration: a command ends SUCCEEDED if and only if the service came online, the command is
      known, and, for decisions only, the portal carried it out. What the portal makes of the others is never seen. */
  lemma AdminCommandSucceedsIff(w: CF.World, e: Envelope, out: Outside)
    requires CanBeHandled(w, e) && HasObject(w.db, e) && e.target == "administration"
    ensures var after := Handled(w, e, AdminVerdict(e, out)).db;
            e.commandId in after.commands
                && (after.commands[e.commandId].status == SUCCEEDED <==> AdminSucceeds(e, out))
  {
    AdminVerdictIff(e, out);
    EndsAsJudged(w, e, AdminVerdict(e, out));
  }

  /** The row of an assignment command holds the command's own members, whatever the portal did with them. */
  lemma AssignmentRow(w: CF.World, e: Envelope, out: Outside)
    requires CanBeHandled(w, e) && HasObject(w.db, e) && e.target == "administration" && out.online
    requires Text.Upper(e.commandType) == "ASSIGN_APPROVER_MEMBERS"
    ensures var after := Handled(w, e, AdminVerdict(e, out)).db;
            && RC.Field(after, RowFor(e), "members") == Some(Get(e.payload, "members", List([])))
            && RC.Field(after, RowFor(e), "role_code") == Some(Get(e.payload, "role_code", Str(e.resourceId)))
            && RC.Field(after, RowFor(e), "status") == Some(Str("ASSIGNED"))
  {
    AssignmentSets(e, out);
    HandledAsJudged(w, e, Assignment(e, out), "members");
    HandledAsJudged(w, e, Assignment(e, out), "role_code");
    HandledAsJudged(w, e, Assignment(e, out), "status");
  }

  lemma AssignmentSets(e: Envelope, out: Outside)
    requires out.online && Text.Upper(e.commandType) == "ASSIGN_APPROVER_MEMBERS"
    ensures AdminVerdict(e, out) == Assignment(e, out)
    ensures Sets(Assignment(e, out), "members") == Some(Get(e.payload, "members", List([])))
    ensures Sets(Assignment(e, out), "role_code") == Some(Get(e.payload, "role_code", Str(e.resourceId)))
    ensures Sets(Assignment(e, out), "status") == Some(Str("ASSIGNED"))
  {
  }

  predicate MaSucceeds(e: Envelope, out: Outside) {
    var commandType := Text.Upper(e.commandType);
    && out.online
    && ((commandType == "TRANSITION_DEAL_STAGE" && Get(e.payload, "stage", Str("DUE_DILIGENCE")).Str?)
        || (commandType == "UPDATE_DEAL" && Get(e.payload, "updates", Object(map[])).Object?)
        || commandType == "ASSIGN_DEAL_LEAD")
  }

  lemma MaVerdictIff(e: Envelope, out: Outside)
    requires MaVerdict(e, out).Some?
    ensures MaVerdict(e, out).value.Succeeded? <==> MaSucceeds(e, out)
  {
  }

  /** Exactness for the ma service: a reported command ends SUCCEEDED if and only if the service came online and the
      command is a stage transition to a text, an update by an object, or an assignment of a lead. */
  lemma MaCommandSucceedsIff(w: CF.World, e: Envelope, out: Outside)
    requires CanBeHandled(w, e) && HasObject(w.db, e) && e.target == "ma" && MaVerdict(e, out).Some?
    ensures var after := Handled(w, e, MaVerdict(e, out).value).db;
            e.commandId in after.commands && (after.commands[e.commandId].status == SUCCEEDED <==> MaSucceeds(e, out))
  {
    MaVerdictIff(e, out);
    EndsAsJudged(w, e, MaVerdict(e, out).value);
  }

  /** Exactness: the ma processor sends no report at all, so that the command stays PROCESSING, if and only if an update
      carries a status that is neither a text nor null. */
  lemma MaStaysSilentIff(e: Envelope, out: Outside)
    ensures MaVerdict(e, out).None? <==>
            && out.online && Text.Upper(e.commandType) == "UPDATE_DEAL"
            && "updates" in e.payload && e.payload["updates"].Object? && "status" in e.payload["updates"].fields
            && !e.payload["updates"].fields["status"].Str? && !e.payload["updates"].fields["status"].Null?
  {
  }

  /** An update whose status is a number. */
  lemma NumericStatusIsSilent(e: Envelope, out: Outside)
    requires out.online && e.commandType == "UPDATE_DEAL"
    requires e.payload == map["updates" := Object(map["status" := Number(1.0)])]
    ensures MaVerdict(e, out) == None
  {
    assert Text.IsUpper("UPDATE_DEAL");
    Text.UpperOfUpper("UPDATE_DEAL");
    MaStaysSilentIff(e, out);
  }

  lemma UpdateSets(e: Envelope, out: Outside, updates: Fields, f: string)
    requires out.online && Text.Upper(e.commandType) == "UPDATE_DEAL" && MaVerdict(e, out).Some?
    requires Get(e.payload, "updates", Object(map[])) == Object(updates)
    ensures MaVerdict(e, out).value.Succeeded?
    ensures f in updates && f != "status" && f != "updated_at" ==> Sets(MaVerdict(e, out).value, f) == Some(updates[f])
    ensures f !in updates && f != "status" && f != "updated_at" && f != "deal_id" ==>
            Sets(MaVerdict(e, out).value, f) == None
  {
  }

  /** The row of an updated deal holds every update, even one that renames the deal's id, and keeps the other fields. */
  lemma UpdatedDealRow(w: CF.World, e: Envelope, out: Outside, updates: Fields, f: string)
    requires CanBeHandled(w, e) && HasObject(w.db, e) && e.target == "ma" && out.online
    requires Text.Upper(e.commandType) == "UPDATE_DEAL" && MaVerdict(e, out).Some?
    requires Get(e.payload, "updates", Object(map[])) == Object(updates) && f != "status" && f != "updated_at"
    ensures var after := Handled(w, e, MaVerdict(e, out).value).db;
            && (f in updates ==> RC.Field(after, RowFor(e), f) == Some(updates[f]))
            && (f !in updates && f != "deal_id" ==> RC.Field(after, RowFor(e), f) == RC.Field(w.db, RowFor(e), f))
  {
    UpdateSets(e, out, updates, f);
    HandledAsJudged(w, e, MaVerdict(e, out).value, f);
  }

  // ---- Whether a decided request is listed ----

  lemma ShownWithoutCommand(id: string, d: Fields, st: string)
    requires PR.MapStatus(st) == st && PR.TextOf(d, "status") == st
    ensures PR.TextOf(PR.Shown(id, d, []), "status") ==
            if PR.TextOf(d, "raw_status") == "" then st else PR.MapStatus(PR.TextOf(d, "raw_status"))
  {
  }

  lemma StatusMapped(a: Action)
    ensures PR.MapStatus(StatusAfter(a)) == StatusAfter(a)
  {
    StatusIsTidy(a);
    StatusMapsToItself(a);
    PR.TidyTwice(StatusAfter(a));
  }

  lemma FieldIsText(db: Db, key: RowKey, f: string)
    requires key in db.projections && db.projections[key].data.Object?
    ensures PR.TextOf(db.projections[key].data.fields, f) ==
            match RC.Field(db, key, f) case Some(Str(text)) => text case _ => ""
  {
  }

  function RawStatus(db: Db, e: Envelope): string {
    match RC.Field(db, RowFor(e), "raw_status") case Some(Str(text)) => text case _ => ""
  }

  lemma RowAfterDecision(w: CF.World, e: Envelope, out: Outside)
    requires CanBeHandled(w, e) && HasObject(w.db, e) && e.target == "administration" && out.online && IsSomeDecision(e)
    requires out.transition.Answered? && out.transition.success
    ensures var after := Handled(w, e, AdminVerdict(e, out)).db;
            && RowFor(e) in after.projections && after.projections[RowFor(e)].data.Object?
            && PR.TextOf(after.projections[RowFor(e)].data.fields, "status") == StatusAfter(ActionFor(e))
            && PR.TextOf(after.projections[RowFor(e)].data.fields, "raw_status") == RawStatus(w.db, e)
  {
    CarriedOutDecision(w, e, out, "raw_status");
    var after := Handled(w, e, AdminVerdict(e, out)).db;
    assert RC.Field(after, RowFor(e), "status").Some?;
    FieldIsText(after, RowFor(e), "status");
    FieldIsText(after, RowFor(e), "raw_status");
  }

  predicate InCompleted(st: string) { st in ["APPROVED", "COMPLETED", "REJECTED"] }

  lemma CompletedActions(a: Action)
    ensures InCompleted(StatusAfter(a)) <==> a == Approve
    ensures StatusAfter(a) != PR.WAITING
  {
  }

  /** Main result on the offline lists, which read the row if the command's resource type is `purchase_request`: after a
      decision the portal carried out, and with no command active any more, the decided row is listed by its raw status
      if it has one, as if nothing had been decided; without one it is listed as completed exactly if it was approved,
      since the statuses reported for a rejection and a cancellation are not words the read model knows. */
  lemma DecidedRowIsListedBy(w: CF.World, e: Envelope, out: Outside)
    requires CanBeHandled(w, e) && HasObject(w.db, e) && e.target == "administration" && out.online && IsSomeDecision(e)
    requires out.transition.Answered? && out.transition.success
    ensures var after := Handled(w, e, AdminVerdict(e, out)).db;
            var raw := RawStatus(w.db, e);
            && RowFor(e) in after.projections && after.projections[RowFor(e)].data.Object?
            && var shown := PR.Shown(e.resourceId, after.projections[RowFor(e)].data.fields, []);
            && (PR.Passes(PR.Completed, shown) <==>
               if raw == "" then ActionFor(e) == Approve else InCompleted(PR.MapStatus(raw)))
            && (PR.Passes(PR.Pending, shown) <==> raw != "" && PR.MapStatus(raw) == PR.WAITING)
  {
    RowAfterDecision(w, e, out);
    StatusMapped(ActionFor(e));
    CompletedActions(ActionFor(e));
    var row := Handled(w, e, AdminVerdict(e, out)).db.projections[RowFor(e)];
    ShownWithoutCommand(e.resourceId, row.data.fields, StatusAfter(ActionFor(e)));
  }
}
