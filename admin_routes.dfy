// The state-changing admin handlers of backend/routes/admin.js: the
// allocation-engine run (:188-290) with its audit row, the course and
// internship status updates (:77-91, :146-158) and the internship create
// and list handlers (:96-139).

module AdminRoutes {
  import opened Common
  import opened Json
  import opened Database
  import opened EngineCandidates
  import opened EngineScoring
  import opened EngineSort
  import opened EngineGreedy
  import opened EnginePlan
  import opened InternshipRoutes

  // ---------------------------------------------------------------------
  // The allocation-engine run
  // ---------------------------------------------------------------------

  /** The database calls of a run, any of which may throw. */
  datatype Step = AuditInsert | ClearAllocations | ReadTables | SaveAllocations | AuditUpdate

  /** Which call throws during the run, with the error's message. */
  datatype Fault = NoFault | FailAt(step: Step, message: string)

  predicate Fails(fault: Fault, step: Step) {
    fault.FailAt? && fault.step == step
  }

  /** `req.user?.name || "System"` */
  function AdminName(user: Option<string>): string {
    if Truthy(user) then user.value else "System"
  }

  function ErrorLine(fault: Fault): string
    requires fault.FailAt?
  {
    "ERROR: " + fault.message
  }

  function FoundLine(n: nat): string {
    "Found " + NatToString(n) + " matches. Scoring..."
  }

  function SavingLine(n: nat): string {
    "Saving " + NatToString(n) + " allocations"
  }

  function Summary(n: nat): string {
    "Placed " + NatToString(n) + " students."
  }

  /** `UPDATE audit_logs SET status = 'Completed', details = ? WHERE id = ?` */
  function CompleteRun(rows: seq<AuditRow>, runId: int, summary: string): (r: seq<AuditRow>)
    ensures |r| == |rows|
  {
    seq(|rows|, i requires 0 <= i < |rows| =>
      if rows[i].id == runId then rows[i].(status := "Completed", details := Some(summary)) else rows[i])
  }

  /** The allocations and audit tables after a run, and the lines it logs. */
  datatype RunResult = RunResult(allocations: seq<AllocationRow>, auditLogs: seq<AuditRow>, log: seq<string>)

  /** One run of the engine over the tables as they were when it started;
      `runId` is the id the audit insert returns. */
  function EngineRun(allocations: seq<AllocationRow>, auditLogs: seq<AuditRow>, runId: int,
                     profiles: seq<ProfileRow>, prefs: seq<PrefRow>, internships: seq<InternshipRow>,
                     body: EngineBody, admin: string, ai: nat -> AiReply, fault: Fault): RunResult
  {
    var started := ["Run started by " + admin];
    if Fails(fault, AuditInsert) then RunResult(allocations, auditLogs, started + [ErrorLine(fault)])
    else
      var running := auditLogs + [AuditRow(runId, admin, "Running", None)];
      var cleared := started + ["Clearing previous allocations..."];
      if Fails(fault, ClearAllocations) then RunResult(allocations, running, cleared + [ErrorLine(fault)])
      else RunAfterClear(running, runId, cleared, profiles, prefs, internships, body, ai, fault)
  }

  /** The rest of a run once the old allocations are deleted: `running` is
      the audit table with the new row, `cleared` the log so far. */
  function RunAfterClear(running: seq<AuditRow>, runId: int, cleared: seq<string>,
                         profiles: seq<ProfileRow>, prefs: seq<PrefRow>, internships: seq<InternshipRow>,
                         body: EngineBody, ai: nat -> AiReply, fault: Fault): RunResult
  {
    if Fails(fault, ReadTables) then RunResult([], running, cleared + [ErrorLine(fault)])
    else
      var n := |PotentialMatches(profiles, prefs, internships)|;
      var rows := PlannedAllocations(profiles, prefs, internships, WeightsOf(body), ai);
      var worked := cleared + ["Building matches..."] + [FoundLine(n)] + ProgressLines(n, n) +
                    ["Sorting..."] + ["Allocating..."];
      SaveAndComplete(running, runId, worked, rows, fault)
  }

  /** The end of a run once the allocations `rows` are chosen: insert them
      (when there are any), then mark the audit row completed. */
  function SaveAndComplete(running: seq<AuditRow>, runId: int, worked: seq<string>, rows: seq<AllocationRow>,
                           fault: Fault): RunResult
  {
    var saved := if rows == [] then worked else worked + [SavingLine(|rows|)];
    if rows != [] && Fails(fault, SaveAllocations) then RunResult([], running, saved + [ErrorLine(fault)])
    else if Fails(fault, AuditUpdate) then RunResult(rows, running, saved + [ErrorLine(fault)])
    else RunResult(rows, CompleteRun(running, runId, Summary(|rows|)), saved + [Summary(|rows|)])
  }

  /** The run got past every database call. */
  predicate Completes(fault: Fault, profiles: seq<ProfileRow>, prefs: seq<PrefRow>, internships: seq<InternshipRow>,
                      body: EngineBody, ai: nat -> AiReply) {
    fault.NoFault? ||
    (Fails(fault, SaveAllocations) && PlannedAllocations(profiles, prefs, internships, WeightsOf(body), ai) == [])
  }

  /** The audit row: a throwing insert leaves the table alone; otherwise one
      row with the fresh id is appended, and it reads "Completed" with
      "Placed N students." (N the number of allocations stored) exactly when
      the run completes, and stays "Running" with no details after any
      failure: no path marks it "Failed". */
  lemma RunAuditRow(allocations: seq<AllocationRow>, auditLogs: seq<AuditRow>, runId: int,
                    profiles: seq<ProfileRow>, prefs: seq<PrefRow>, internships: seq<InternshipRow>,
                    body: EngineBody, admin: string, ai: nat -> AiReply, fault: Fault)
    requires forall i :: 0 <= i < |auditLogs| ==> auditLogs[i].id < runId
    ensures var r := EngineRun(allocations, auditLogs, runId, profiles, prefs, internships, body, admin, ai, fault);
      if Fails(fault, AuditInsert) then r.auditLogs == auditLogs
      else if Completes(fault, profiles, prefs, internships, body, ai) then
        r.auditLogs == auditLogs + [AuditRow(runId, admin, "Completed", Some(Summary(|r.allocations|)))]
      else r.auditLogs == auditLogs + [AuditRow(runId, admin, "Running", None)]
  {
    var r := EngineRun(allocations, auditLogs, runId, profiles, prefs, internships, body, admin, ai, fault);
    if !Fails(fault, AuditInsert) && Completes(fault, profiles, prefs, internships, body, ai) {
      var running := auditLogs + [AuditRow(runId, admin, "Running", None)];
      var done := CompleteRun(running, runId, Summary(|r.allocations|));
      assert done == auditLogs + [AuditRow(runId, admin, "Completed", Some(Summary(|r.allocations|)))] by {
        forall i | 0 <= i < |auditLogs|
          ensures done[i] == auditLogs[i]
        {
          assert running[i] == auditLogs[i];
        }
      }
    }
  }

  /** What the allocations table holds after a run: untouched when the audit
      insert or the delete throws; empty when a later call throws before the
      insert of the new rows, since there is no transaction; otherwise the
      planned allocations. */
  lemma RunAllocations(allocations: seq<AllocationRow>, auditLogs: seq<AuditRow>, runId: int,
                       profiles: seq<ProfileRow>, prefs: seq<PrefRow>, internships: seq<InternshipRow>,
                       body: EngineBody, admin: string, ai: nat -> AiReply, fault: Fault)
    ensures var r := EngineRun(allocations, auditLogs, runId, profiles, prefs, internships, body, admin, ai, fault);
      var plan := PlannedAllocations(profiles, prefs, internships, WeightsOf(body), ai);
      (Fails(fault, AuditInsert) || Fails(fault, ClearAllocations) ==> r.allocations == allocations) &&
      (Fails(fault, ReadTables) || (Fails(fault, SaveAllocations) && plan != []) ==> r.allocations == []) &&
      (fault.NoFault? || Fails(fault, AuditUpdate) || (Fails(fault, SaveAllocations) && plan == []) ==>
         r.allocations == plan)
  {
  }

  /** The log opens with who started the run, and closes with the summary
      when the run completes and with one "ERROR: " line otherwise. */
  lemma RunLog(allocations: seq<AllocationRow>, auditLogs: seq<AuditRow>, runId: int,
               profiles: seq<ProfileRow>, prefs: seq<PrefRow>, internships: seq<InternshipRow>,
               body: EngineBody, admin: string, ai: nat -> AiReply, fault: Fault)
    ensures var r := EngineRun(allocations, auditLogs, runId, profiles, prefs, internships, body, admin, ai, fault);
      |r.log| >= 2 && r.log[0] == "Run started by " + admin &&
      (Completes(fault, profiles, prefs, internships, body, ai) ==> r.log[|r.log| - 1] == Summary(|r.allocations|)) &&
      (!Completes(fault, profiles, prefs, internships, body, ai) ==> r.log[|r.log| - 1] == "ERROR: " + fault.message)
  {
    if !Fails(fault, AuditInsert) && !Fails(fault, ClearAllocations) {
      var running := auditLogs + [AuditRow(runId, admin, "Running", None)];
      var cleared := ["Run started by " + admin] + ["Clearing previous allocations..."];
      RunAfterClearLog(running, runId, cleared, profiles, prefs, internships, body, ai, fault);
      assert EngineRun(allocations, auditLogs, runId, profiles, prefs, internships, body, admin, ai, fault) ==
             RunAfterClear(running, runId, cleared, profiles, prefs, internships, body, ai, fault);
    }
  }

  /** The rest of a run keeps the lines logged so far in front and ends on
      the summary or on one error line. */
  lemma RunAfterClearLog(running: seq<AuditRow>, runId: int, cleared: seq<string>,
                         profiles: seq<ProfileRow>, prefs: seq<PrefRow>, internships: seq<InternshipRow>,
                         body: EngineBody, ai: nat -> AiReply, fault: Fault)
    requires cleared != [] && !Fails(fault, AuditInsert) && !Fails(fault, ClearAllocations)
    ensures var r := RunAfterClear(running, runId, cleared, profiles, prefs, internships, body, ai, fault);
      |r.log| > |cleared| && r.log[0] == cleared[0] &&
      (Completes(fault, profiles, prefs, internships, body, ai) ==> r.log[|r.log| - 1] == Summary(|r.allocations|)) &&
      (!Completes(fault, profiles, prefs, internships, body, ai) ==> r.log[|r.log| - 1] == "ERROR: " + fault.message)
  {
    if !Fails(fault, ReadTables) {
      var n := |PotentialMatches(profiles, prefs, internships)|;
      var rows := PlannedAllocations(profiles, prefs, internships, WeightsOf(body), ai);
      var worked := cleared + ["Building matches..."] + [FoundLine(n)] + ProgressLines(n, n) +
                    ["Sorting..."] + ["Allocating..."];
      assert worked[0] == cleared[0];
      SaveAndCompleteLog(running, runId, worked, rows, fault);
    }
  }

  /** The end of a run keeps the lines logged so far in front and ends on
      the summary or on one error line. */
  lemma SaveAndCompleteLog(running: seq<AuditRow>, runId: int, worked: seq<string>, rows: seq<AllocationRow>,
                           fault: Fault)
    requires worked != []
    requires fault.NoFault? || Fails(fault, SaveAllocations) || Fails(fault, AuditUpdate)
    ensures var r := SaveAndComplete(running, runId, worked, rows, fault);
      |r.log| > |worked| && r.log[0] == worked[0] &&
      (fault.NoFault? || (Fails(fault, SaveAllocations) && rows == []) ==> r.log[|r.log| - 1] == Summary(|r.allocations|)) &&
      (!(fault.NoFault? || (Fails(fault, SaveAllocations) && rows == [])) ==> r.log[|r.log| - 1] == "ERROR: " + fault.message)
  {
  }

  /** Whatever happens, no student holds two allocations afterwards. */
  lemma RunKeepsAllocationsValid(allocations: seq<AllocationRow>, auditLogs: seq<AuditRow>, runId: int,
                                 profiles: seq<ProfileRow>, prefs: seq<PrefRow>, internships: seq<InternshipRow>,
                                 body: EngineBody, admin: string, ai: nat -> AiReply, fault: Fault)
    requires forall i, j :: 0 <= i < j < |allocations| ==> allocations[i].studentId != allocations[j].studentId
    ensures var r := EngineRun(allocations, auditLogs, runId, profiles, prefs, internships, body, admin, ai, fault).allocations;
      forall i, j :: 0 <= i < j < |r| ==> r[i].studentId != r[j].studentId
  {
    PlanOneToOne(profiles, prefs, internships, WeightsOf(body), ai);
  }

  /** The lines 212-268 of a run: read the tables, build, score, sort and
      assign, logging as it goes. */
  method BuildAndAssign(log0: seq<string>, profiles: seq<ProfileRow>, prefs: seq<PrefRow>, allInternships: seq<InternshipRow>,
                        w: Weights, ai: nat -> AiReply)
    returns (log: seq<string>, finalAllocations: seq<AllocationRow>)
    ensures var n := |PotentialMatches(profiles, prefs, allInternships)|;
      log == log0 + ["Building matches..."] + [FoundLine(n)] + ProgressLines(n, n) + ["Sorting..."] + ["Allocating..."]
    ensures finalAllocations == PlannedAllocations(profiles, prefs, allInternships, w, ai)
  {
    var internships := ActiveOnly(allInternships);

    log := log0 + ["Building matches..."];
    var potential := BuildCandidates(profiles, prefs, internships);
    log := log + [FoundLine(|potential|)];

    var scored, progress := ScoreCandidates(potential, w, ai);
    log := log + progress;

    log := log + ["Sorting..."];
    var sorted := new Scored[|scored|](i requires 0 <= i < |scored| => scored[i]);
    assert sorted[..] == scored;
    SortByTotal(sorted);

    log := log + ["Allocating..."];
    finalAllocations := AssignGreedy(sorted);
  }

  /** POST /allocation-engine/run. */
  method RunAllocationEngine(db: Db, body: EngineBody, user: Option<string>, ai: nat -> AiReply, fault: Fault)
    returns (log: seq<string>)
    requires db.AuditValid() && db.AllocationsValid()
    modifies db`allocations, db`auditLogs, db`nextAuditId
    ensures RunResult(db.allocations, db.auditLogs, log) ==
      EngineRun(old(db.allocations), old(db.auditLogs), old(db.nextAuditId), db.profiles, db.preferences, db.internships,
                body, AdminName(user), ai, fault)
    ensures db.nextAuditId == old(db.nextAuditId) + (if Fails(fault, AuditInsert) then 0 else 1)
    ensures db.AuditValid() && db.AllocationsValid()
  {
    var adminUser := AdminName(user);
    log := ["Run started by " + adminUser];
    if Fails(fault, AuditInsert) {
      log := log + [ErrorLine(fault)];
      return;
    }
    var runId := db.nextAuditId;
    db.auditLogs := db.auditLogs + [AuditRow(runId, adminUser, "Running", None)];
    db.nextAuditId := db.nextAuditId + 1;

    log := log + ["Clearing previous allocations..."];
    if Fails(fault, ClearAllocations) {
      log := log + [ErrorLine(fault)];
      return;
    }
    db.allocations := [];
    log := RunAfterClearing(db, log, runId, body, ai, fault);
  }

  /** The handler from its read of the tables to its last audit update. */
  method RunAfterClearing(db: Db, log0: seq<string>, runId: int, body: EngineBody, ai: nat -> AiReply, fault: Fault)
    returns (log: seq<string>)
    requires db.AuditValid() && db.allocations == []
    modifies db`allocations, db`auditLogs
    ensures RunResult(db.allocations, db.auditLogs, log) ==
      RunAfterClear(old(db.auditLogs), runId, log0, db.profiles, db.preferences, db.internships, body, ai, fault)
    ensures db.AuditValid() && db.AllocationsValid()
  {
    log := log0;
    if Fails(fault, ReadTables) {
      log := log + [ErrorLine(fault)];
      return;
    }
    var finalAllocations;
    log, finalAllocations := BuildAndAssign(log, db.profiles, db.preferences, db.internships, WeightsOf(body), ai);
    PlanOneToOne(db.profiles, db.preferences, db.internships, WeightsOf(body), ai);
    log := SaveAndCompleteRun(db, log, runId, finalAllocations, fault);
  }

  /** The handler from the insert of the new allocations to its last audit
      update. */
  method SaveAndCompleteRun(db: Db, worked: seq<string>, runId: int, finalAllocations: seq<AllocationRow>, fault: Fault)
    returns (log: seq<string>)
    requires db.AuditValid() && db.allocations == []
    requires forall i, j :: 0 <= i < j < |finalAllocations| ==> finalAllocations[i].studentId != finalAllocations[j].studentId
    modifies db`allocations, db`auditLogs
    ensures RunResult(db.allocations, db.auditLogs, log) == SaveAndComplete(old(db.auditLogs), runId, worked, finalAllocations, fault)
    ensures db.AuditValid() && db.AllocationsValid()
  {
    log := worked;
    if |finalAllocations| > 0 {
      log := log + [SavingLine(|finalAllocations|)];
      if Fails(fault, SaveAllocations) {
        log := log + [ErrorLine(fault)];
        return;
      }
      db.allocations := db.allocations + finalAllocations;
      assert db.allocations == finalAllocations;
    }

    var summary := Summary(|finalAllocations|);
    if Fails(fault, AuditUpdate) {
      log := log + [ErrorLine(fault)];
      return;
    }
    db.auditLogs := CompleteRun(db.auditLogs, runId, summary);
    log := log + [summary];
  }

  // ---------------------------------------------------------------------
  // Status updates
  // ---------------------------------------------------------------------

  /** `['Active', 'Inactive', 'Blocked'].includes(status)` */
  predicate CourseStatusAccepted(status: Option<string>) {
    status.Some? && status.value in {"Active", "Inactive", "Blocked"}
  }

  /** PUT /courses/:id/status: 400 with no change for any other status;
      otherwise the course with that id takes it. */
  method UpdateCourseStatus(db: Db, id: int, status: Option<string>) returns (code: int)
    modifies db`courses
    ensures code == (if CourseStatusAccepted(status) then 200 else 400)
    ensures db.courses == if CourseStatusAccepted(status) then SetCourseStatus(old(db.courses), id, status.value)
                          else old(db.courses)
  {
    if !CourseStatusAccepted(status) {
      return 400;
    }
    db.courses := SetCourseStatus(db.courses, id, status.value);
    code := 200;
  }

  /** PUT /internships/:id/status: the same check and update as the
      internships router's. */
  method UpdateInternshipStatus(db: Db, id: int, status: Option<string>) returns (code: int)
    requires db.InternshipsValid()
    modifies db`internships
    ensures db.InternshipsValid()
    ensures code == (if StatusAccepted(status) then 200 else 400)
    ensures db.internships == if StatusAccepted(status) then SetInternshipStatus(old(db.internships), id, status.value)
                              else old(db.internships)
  {
    if !StatusAccepted(status) {
      return 400;
    }
    db.internships := SetInternshipStatus(db.internships, id, status.value);
    code := 200;
  }

  // ---------------------------------------------------------------------
  // Internships
  // ---------------------------------------------------------------------

  /** `skills ?? []` */
  function SkillsOrNullish(skills: Option<JsonVal>): JsonVal {
    if skills.None? || skills.value.JNull? then JStrs([]) else skills.value
  }

  /** The row POST /internships inserts: status "Active", and the column
      defaults for type and experience level, which the body cannot set. */
  function AdminNewInternship(b: InternshipBody, id: int): InternshipRow
    requires HasRequiredFields(b)
  {
    InternshipRow(id, b.title.value, b.organization.value, OrElse(b.location, ""), b.description.value,
                  Some(Stringify(SkillsOrNullish(b.skills))), "Active", "On-site", "Entry-level")
  }

  /** POST /internships: 400 and no insert without a title, organization
      and description; otherwise the row is appended under the next id. */
  method AdminCreateInternship(db: Db, b: InternshipBody) returns (code: int)
    requires db.InternshipsValid()
    modifies db`internships, db`nextInternshipId
    ensures db.InternshipsValid()
    ensures code == (if HasRequiredFields(b) then 201 else 400)
    ensures code == 400 ==> db.internships == old(db.internships) && db.nextInternshipId == old(db.nextInternshipId)
    ensures code == 201 ==> db.internships == old(db.internships) + [AdminNewInternship(b, old(db.nextInternshipId))] &&
                            db.nextInternshipId == old(db.nextInternshipId) + 1
  {
    if !Truthy(b.title) || !Truthy(b.organization) || !Truthy(b.description) {
      return 400;
    }
    db.internships := db.internships + [AdminNewInternship(b, db.nextInternshipId)];
    db.nextInternshipId := db.nextInternshipId + 1;
    code := 201;
  }

  /** GET /internships: `JSON.parse(i.skills)`, [] when that throws; a NULL
      column parses to null. */
  function AdminSkillsView(r: InternshipRow): JsonVal {
    match r.skills
    case None => JNull
    case Some(t) =>
      match ParseJson(t)
      case None => JStrs([])
      case Some(v) => v
  }

  /** Listing an internship created here gives back the skills it was
      created with, or [] when they were absent or null. */
  lemma AdminCreateThenList(b: InternshipBody, id: int)
    requires HasRequiredFields(b)
    ensures AdminSkillsView(AdminNewInternship(b, id)) == SkillsOrNullish(b.skills)
    ensures b.skills.None? ==> AdminSkillsView(AdminNewInternship(b, id)) == JStrs([])
  {
    JsonRoundTrip(SkillsOrNullish(b.skills));
  }

  /** The two create handlers store different skills for a falsy non-null
      value: `??` keeps an empty text where `||` replaces it with []. */
  lemma CreateHandlersDisagreeOnEmptyText(b: InternshipBody, id: int)
    requires HasRequiredFields(b) && b.skills == Some(JStr(""))
    ensures AdminNewInternship(b, id).skills == Some("\"\"")
    ensures NewInternship(b, id).skills == Some("[]")
  {
    assert SkillsOrNullish(b.skills) == JStr("");
    assert EscapeAll("") == [];
    assert Quote("") == ['"'] + [] + ['"'] == "\"\"";
  }
}
