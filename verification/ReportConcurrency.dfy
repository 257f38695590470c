/** Report commands planned on earlier rows. */
module ReportConcurrency {
  import opened Common
  import opened ContentTables
  import opened ContentArm
  import opened ContentCommands
  import opened ContentOrder
  import opened CommandPreservation
  import opened ContentConcurrency

  /** A report target whose rows are all armed is the target now. */
  lemma StaleReportTarget(s: Db, db: Db, op: Operation, id: Id, remediation: map<Id, Version>)
    requires Follows(s, db) && LoadReportTarget(s, id).Some?
    requires Arm(db, op, ReportManifest(id, LoadReportTarget(s, id).value, remediation)).None?
    ensures LoadReportTarget(db, id) == LoadReportTarget(s, id)
  {
    hide Arm, LogFollows, CatalogFollows;
    var t := LoadReportTarget(s, id).value;
    var m := ReportManifest(id, t, remediation);
    ArmedReport(db, op, m, id);
    ArmedQuestion(db, op, m, t.report.questionId);
    ArmedVersion(db, op, m, t.report.versionId);
    assert ReportFollows(s.reports[id], db.reports[id]);
    SameQuestionRow(s, db, t.report.questionId);
    SameVersionRow(s, db, t.report.versionId, t.version);
  }

  lemma StaleTriage(s: Db, db: Db, actor: Id, id: Id, expected: nat)
    requires Follows(s, db)
    requires CommitTriage(db, actor, id, expected, LoadReportTarget(s, id)).Ok?
    ensures LoadReportTarget(db, id) == LoadReportTarget(s, id)
  {
    hide Follows, Arm, LoadReportTarget;
    var t := LoadReportTarget(s, id).value;
    StaleReportTarget(s, db, Operation(actor, ReportTriage, {actor} + TriageUsers(t)), id, map[]);
  }

  function VersionRow(db: Db, id: Option<Id>): Option<Version> {
    if id.Some? && id.value in db.versions then Some(db.versions[id.value]) else None
  }

  lemma ResolveArmed(db: Db, actor: Id, id: Id, request: ResolveRequest, outer: set<Id>,
                     target: Option<ReportTarget>, row: Option<Version>, now: Time)
    requires CommitResolve(db, actor, id, request, outer, target, row, now).Ok?
    ensures target.Some?
    ensures Arm(db, Operation(actor, ReportResolution, {actor} + outer),
                ReportManifest(id, target.value, RemediationRow(target.value, request.remediation, row))).None?
  {
    hide Arm;
  }

  /** The remediation row is armed with the report, so it is the row now. */
  lemma StaleRemediation(s: Db, r: Db, db: Db, actor: Id, id: Id, request: ResolveRequest, outer: set<Id>, now: Time)
    requires Follows(r, db) && request.remediation.Some?
    requires CommitResolve(db, actor, id, request, outer, LoadReportTarget(s, id), VersionRow(r, request.remediation),
                           now).Ok?
    ensures VersionRow(db, request.remediation) == VersionRow(r, request.remediation)
  {
    hide CommitResolve, Arm, Follows, LoadReportTarget;
    var target, row := LoadReportTarget(s, id), VersionRow(r, request.remediation);
    ResolveArmed(db, actor, id, request, outer, target, row, now);
    ResolveFacts(db, actor, id, request, outer, target, row, now);
    ResolveNamesAnother(db, actor, id, request, outer, target, row, now);
    var m := ReportManifest(id, target.value, RemediationRow(target.value, request.remediation, row));
    ArmedVersion(db, Operation(actor, ReportResolution, {actor} + outer), m, request.remediation.value);
    SameVersionRow(r, db, request.remediation.value, row.value);
  }

  lemma ResolveNamesAnother(db: Db, actor: Id, id: Id, request: ResolveRequest, outer: set<Id>,
                            target: Option<ReportTarget>, row: Option<Version>, now: Time)
    requires CommitResolve(db, actor, id, request, outer, target, row, now).Ok?
    requires request.remediation.Some?
    ensures target.Some? && request.remediation.value != target.value.report.versionId
  {
    hide Arm;
  }

  /**
    * The rows of a resolution are read inside its transaction but before their
    * locks; arming makes them the rows at commit.
    */
  lemma StaleResolve(s: Db, r: Db, db: Db, actor: Id, id: Id, request: ResolveRequest, outer: set<Id>, now: Time)
    requires Follows(s, db) && Follows(r, db)
    requires CommitResolve(db, actor, id, request, outer, LoadReportTarget(s, id), VersionRow(r, request.remediation),
                           now).Ok?
    ensures LoadReportTarget(db, id) == LoadReportTarget(s, id)
    ensures request.remediation.Some? ==> VersionRow(db, request.remediation) == VersionRow(r, request.remediation)
  {
    hide CommitResolve, Arm, Follows, LoadReportTarget;
    var target, row := LoadReportTarget(s, id), VersionRow(r, request.remediation);
    ResolveArmed(db, actor, id, request, outer, target, row, now);
    StaleReportTarget(s, db, Operation(actor, ReportResolution, {actor} + outer), id,
                      RemediationRow(target.value, request.remediation, row));
    if request.remediation.Some? {
      StaleRemediation(s, r, db, actor, id, request, outer, now);
    }
  }
}
