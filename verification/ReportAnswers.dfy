/** What triage and resolution answer on current rows, with and without a version that remedies the report. */
module ReportAnswers {
  import opened Common
  import opened ContentTables
  import opened ContentArm
  import opened ContentCommands
  import opened ContentInvariant
  import opened ContentPreservation
  import opened ReportConcurrency
  import opened AnswerGuards
  import opened LifecycleAnswers

  lemma ReportIsThere(db: Db, id: Id)
    requires Inv(db)
    ensures LoadReportTarget(db, id).Some? <==> id in db.reports
    ensures id in db.reports ==>
              var r := db.reports[id];
              && r.questionId in db.questions && r.versionId in db.versions
              && db.versions[r.versionId].questionId == r.questionId
              && LoadReportTarget(db, id).value == ReportTarget(r, db.questions[r.questionId], db.versions[r.versionId])
              && ReportLive(db.users.Keys, db.erased, r)
  {
    hide ReportLive, AggregatesOk, VersionsShaped, QuestionsShaped, CandidatesLive, ReviewsLegal, ReplaysOk,
         ContentUnique;
    if id in db.reports {
      assert ReportOk(db.versions, db.reports[id]);
    }
  }

  // ----- the users of a report

  function AssigneeUser(r: Report): set<Id> {
    if r.assignee.Some? then OptionSet(r.assignee.value.userId) else {}
  }

  lemma DerivedReportParts(db: Db, op: Operation, m: Manifest)
    requires TargetsMatch(db, m) && op.command in {ReportTriage, ReportResolution}
    ensures DerivedUsers(db, op, m)
         == {op.actor} + QuestionCreators(db, m.questions.Keys) + VersionCreators(db, m.versions.Keys)
            + Reporters(db, m.reports.Keys) + Assignees(db, m.reports.Keys)
  {
    hide DerivedUsers, QuestionCreators, VersionCreators, Approvers, Reporters, Assignees, TargetsMatch;
    DerivedAll(db, op, m);
    NoApprover(db, op.command, m.versions.Keys);
  }

  lemma OneReport(db: Db, id: Id)
    requires id in db.reports
    ensures Reporters(db, {id}) == OptionSet(db.reports[id].reporter.userId)
    ensures Assignees(db, {id}) == AssigneeUser(db.reports[id])
  {
  }

  /** The users named by the rows of a report and of the version that remedies it, read before the transaction. */
  function OuterUsers(t: ReportTarget, remediation: map<Id, Version>): set<Id> {
    TriageUsers(t) + CreatorUsers(remediation)
  }

  /** The rows of a report as they are stored, and at most one more version of its question. */
  ghost predicate ReportRows(db: Db, id: Id, t: ReportTarget, remediation: map<Id, Version>) {
    && id in db.reports && t.report == db.reports[id]
    && t.report.questionId in db.questions && t.question == db.questions[t.report.questionId]
    && t.report.versionId in db.versions && t.version == db.versions[t.report.versionId]
    && t.version.questionId == t.report.questionId
    && remediation.Keys <= db.versions.Keys && |remediation| <= 1 && t.report.versionId !in remediation
    && (forall v | v in remediation ::
          remediation[v] == db.versions[v] && remediation[v].questionId == t.report.questionId)
  }

  lemma ReportCreators(db: Db, id: Id, t: ReportTarget, remediation: map<Id, Version>)
    requires ReportRows(db, id, t, remediation)
    ensures VersionCreators(db, {t.report.versionId} + remediation.Keys)
         == OptionSet(t.version.creator.userId) + CreatorUsers(remediation)
  {
  }

  lemma ReportUsers(db: Db, op: Operation, id: Id, t: ReportTarget, remediation: map<Id, Version>, m: Manifest)
    requires ReportRows(db, id, t, remediation) && TargetsMatch(db, m)
    requires op.command in {ReportTriage, ReportResolution} && m.reports.Keys == {id}
    requires m.questions.Keys == {t.report.questionId} && m.versions.Keys == {t.report.versionId} + remediation.Keys
    ensures DerivedUsers(db, op, m) == {op.actor} + OuterUsers(t, remediation)
  {
    hide DerivedUsers, TargetsMatch, QuestionCreators, VersionCreators, Reporters, Assignees, OptionSet, CreatorUsers;
    DerivedReportParts(db, op, m);
    OneQuestionCreator(db, t.report.questionId);
    ReportCreators(db, id, t, remediation);
    OneReport(db, id);
  }

  lemma ReportManifestKeys(command: Command, id: Id, t: ReportTarget, remediation: map<Id, Version>)
    requires (command == ReportTriage && remediation == map[]) || (command == ReportResolution && |remediation| <= 1)
    requires t.report.versionId !in remediation
    ensures var m := ReportManifest(id, t, remediation);
            && ShapeOk(command, m) && m.tags == {} && m.reports.Keys == {id}
            && m.questions.Keys == {t.report.questionId} && m.versions.Keys == {t.report.versionId} + remediation.Keys
  {
    var m := ReportManifest(id, t, remediation);
    assert m.questions.Keys == {t.report.questionId} && m.reports.Keys == {id};
    assert m.versions.Keys == {t.report.versionId} + remediation.Keys;
    assert |m.questions| == |m.questions.Keys| && |m.versions| == |m.versions.Keys| && |m.reports| == |m.reports.Keys|
           && |remediation| == |remediation.Keys|;
  }

  lemma ReportManifestCurrent(db: Db, id: Id, t: ReportTarget, remediation: map<Id, Version>)
    requires ReportRows(db, id, t, remediation)
    ensures Current(db, ReportManifest(id, t, remediation))
  {
  }

  lemma ReportRules(db: Db, command: Command, id: Id, m: Manifest)
    requires TargetsMatch(db, m) && id in db.reports && m.reports.Keys == {id}
    requires command in {ReportTriage, ReportResolution}
    ensures AggregateRulesOk(db, command, m) <==>
              db.reports[id].status == if command == ReportTriage then Open else Triaged
  {
    hide TargetsMatch;
    assert id in m.reports;
  }

  lemma ReportIsSmall(db: Db, id: Id, t: ReportTarget, remediation: map<Id, Version>)
    requires ReportRows(db, id, t, remediation)
    ensures |remediation| <= 1 && t.report.versionId !in remediation && id in db.reports && t.report == db.reports[id]
  {
  }

  lemma ReportArms(db: Db, op: Operation, id: Id, t: ReportTarget, remediation: map<Id, Version>)
    requires ReportRows(db, id, t, remediation)
    requires (op.command == ReportTriage && remediation == map[]) || op.command == ReportResolution
    requires op.referenced == {op.actor} + OuterUsers(t, remediation)
    ensures Arm(db, op, ReportManifest(id, t, remediation))
         == if t.report.status == if op.command == ReportTriage then Open else Triaged then None
            else Some(RuleViolation)
  {
    hide Arm, ReportRows, ReportManifest, OuterUsers, ShapeOk, AggregateRulesOk, DerivedUsers, TargetsMatch, Current;
    var m := ReportManifest(id, t, remediation);
    ReportIsSmall(db, id, t, remediation);
    ReportManifestKeys(op.command, id, t, remediation);
    ReportManifestCurrent(db, id, t, remediation);
    ArmAnswers(db, op, m);
    ReportRules(db, op.command, id, m);
    ReportUsers(db, op, id, t, remediation, m);
  }

  lemma ReportNamesLive(db: Db, id: Id, t: ReportTarget, remediation: map<Id, Version>)
    requires Inv(db) && ReportRows(db, id, t, remediation)
    ensures OptionSet(t.question.creator.userId) <= db.users.Keys
    ensures OptionSet(t.version.creator.userId) <= db.users.Keys
    ensures OptionSet(t.report.reporter.userId) <= db.users.Keys && AssigneeUser(t.report) <= db.users.Keys
    ensures CreatorUsers(remediation) <= db.users.Keys && |CreatorUsers(remediation)| <= 1
  {
    hide Inv, CreatorUsers, VersionShape, QuestionShape, QuestionOk, LoadReportTarget;
    ReportIsThere(db, id);
    HomeOf(db, t.report.versionId);
    CreatorsLive(db, remediation);
    CreatorsBounded(remediation);
  }

  lemma ReportNames(db: Db, actor: Id, id: Id, t: ReportTarget, remediation: map<Id, Version>)
    requires Inv(db) && ReportRows(db, id, t, remediation)
    ensures FewLive(db, actor, {actor} + OuterUsers(t, remediation))
  {
    hide Inv, CreatorUsers, ReportRows, FewLive;
    ReportNamesLive(db, id, t, remediation);
    var a, b := OptionSet(t.question.creator.userId), OptionSet(t.version.creator.userId);
    var c, d := OptionSet(t.report.reporter.userId), AssigneeUser(t.report);
    assert |a| <= 1 && |b| <= 1 && |c| <= 1 && |d| <= 1;
    FewOfReport(db, actor, a, b, c, d, CreatorUsers(remediation));
  }

  lemma FewOfReport(db: Db, actor: Id, a: set<Id>, b: set<Id>, c: set<Id>, d: set<Id>, e: set<Id>)
    requires a <= db.users.Keys && b <= db.users.Keys && c <= db.users.Keys && d <= db.users.Keys && e <= db.users.Keys
    requires |a| <= 1 && |b| <= 1 && |c| <= 1 && |d| <= 1 && |e| <= 1
    ensures FewLive(db, actor, {actor} + (a + b + c + d + e))
  {
  }

  // ----- triage

  ghost predicate ReportWritten(db: Db, after: Db, id: Id, row: Report, audit: Audit) {
    && after == db.(reports := after.reports, audits := db.audits + [audit])
    && after.reports.Keys == db.reports.Keys
    && id in after.reports && after.reports[id] == row
    && forall r | r in db.reports && r != id :: after.reports[r] == db.reports[r]
  }

  lemma TriageSteps(db: Db, actor: Id, id: Id, t: ReportTarget)
    requires id in db.reports && t.report == db.reports[id] && t.report.status == Open
    requires var op := Operation(actor, ReportTriage, {actor} + TriageUsers(t));
             Begin(db, op).None? && Arm(db, op, ReportManifest(id, t, map[])).None?
    ensures var r := CommitTriage(db, actor, id, t.report.rowVersion, Some(t));
            && r.Ok?
            && ReportWritten(db, r.value, id,
                             t.report.(status := Triaged, assignee := Actor(actor),
                                       rowVersion := t.report.rowVersion + 1),
                             Audit(ReportTriage, Some(id), Actor(actor), Some(t.report.rowVersion),
                                   Some(t.report.rowVersion + 1), [Assignee, ReportStatusField]))
  {
    hide Arm, Begin, ReportManifest, TriageUsers;
  }

  /**
    * Every answer of a triage on current rows: it commits exactly when an active
    * administrator names the row version of an open report, and takes the report.
    */
  lemma TriageAnswer(db: Db, actor: Id, id: Id, expected: nat)
    requires Inv(db)
    ensures var r := CommitTriage(db, actor, id, expected, LoadReportTarget(db, id));
            if !(actor in db.users && db.users[actor] == User(Admin, ActiveAccount)) then r == Err(AuthorityLost)
            else if id !in db.reports then r == Err(ResourceNotFound)
            else if db.reports[id].rowVersion != expected then r == Err(VersionConflict)
            else if db.reports[id].status != Open then r == Err(RuleViolation)
            else
              && r.Ok?
              && ReportWritten(db, r.value, id,
                               db.reports[id].(status := Triaged, assignee := Actor(actor), rowVersion := expected + 1),
                               Audit(ReportTriage, Some(id), Actor(actor), Some(expected), Some(expected + 1),
                                     [Assignee, ReportStatusField]))
  {
    hide Inv, Arm, Begin, LoadReportTarget, ReportManifest, TriageUsers, FewLive, CreatorUsers, ReportWritten,
         OuterUsers, ReportRows;
    ReportIsThere(db, id);
    if id !in db.reports {
      NobodyBegins(db, actor, ReportTriage);
      assert {actor} + {} == {actor};
    } else {
      var t := LoadReportTarget(db, id).value;
      TriageOuter(t);
      TriageRows(db, id, t);
      ReportNames(db, actor, id, t, map[]);
      BeginAnswers(db, Operation(actor, ReportTriage, {actor} + TriageUsers(t)));
      ReportArms(db, Operation(actor, ReportTriage, {actor} + TriageUsers(t)), id, t, map[]);
      if HasAuthority(db, actor) && t.report.status == Open {
        TriageSteps(db, actor, id, t);
      }
    }
  }

  lemma TriageRows(db: Db, id: Id, t: ReportTarget)
    requires Inv(db) && id in db.reports && LoadReportTarget(db, id) == Some(t)
    ensures ReportRows(db, id, t, map[])
  {
    hide Inv, ReportLive;
    ReportIsThere(db, id);
  }

  lemma TriageOuter(t: ReportTarget)
    ensures OuterUsers(t, map[]) == TriageUsers(t)
  {
    assert CreatorUsers(map[]) == {};
  }

  // ----- resolution

  /**
    * The remedy is a later version of the reported question that is published or
    * was until it was replaced or retired.
    */
  ghost predicate Remedies(db: Db, report: Report, v: Id)
    requires report.versionId in db.versions
  {
    && v in db.versions
    && db.versions[v].questionId == report.questionId
    && db.versions[v].number > db.versions[report.versionId].number
    && (|| db.versions[v].status == Published
        || (db.versions[v].status == Retired && db.versions[v].retirement == Some(PublishedRetirement)))
  }

  /** The rows read for a resolution, and the users they name. */
  function RemedyRead(db: Db, id: Id, request: ResolveRequest): map<Id, Version> {
    if LoadReportTarget(db, id).Some?
    then RemediationRow(LoadReportTarget(db, id).value, request.remediation, VersionRow(db, request.remediation))
    else map[]
  }

  function OuterRead(db: Db, id: Id, request: ResolveRequest): set<Id> {
    if LoadReportTarget(db, id).Some? then OuterUsers(LoadReportTarget(db, id).value, RemedyRead(db, id, request))
    else {}
  }

  lemma RemedyRow(db: Db, v: Id)
    requires Inv(db) && v in db.versions
    ensures LifecycleShape(db.versions[v])
  {
    hide Inv;
    HomeOf(db, v);
  }

  lemma RemedyAccepted(db: Db, id: Id, request: ResolveRequest, v: Id)
    requires Inv(db) && id in db.reports && db.reports[id].versionId in db.versions
    requires request.remediation == Some(v) && LoadReportTarget(db, id).Some?
    ensures (request.resolved && Remedies(db, db.reports[id], v)) <==>
              && RemedyRead(db, id, request) != map[]
              && VersionRow(db, request.remediation).Some?
              && RemediationAccepted(LoadReportTarget(db, id).value, request, VersionRow(db, request.remediation).value)
  {
    hide Inv;
    ReportIsThere(db, id);
    if v in db.versions {
      RemedyRow(db, v);
    }
    if Remedies(db, db.reports[id], v) {
      assert v in RemedyRead(db, id, request);
    }
  }

  lemma ResolveRows(db: Db, id: Id, request: ResolveRequest)
    requires Inv(db) && id in db.reports && LoadReportTarget(db, id).Some?
    ensures ReportRows(db, id, LoadReportTarget(db, id).value, RemedyRead(db, id, request))
  {
    ReportIsThere(db, id);
    hide Inv, ReportLive;
    assert |RemedyRead(db, id, request)| <= 1;
  }

  lemma ResolveSteps(db: Db, actor: Id, id: Id, request: ResolveRequest, t: ReportTarget, remedy: map<Id, Version>,
                     row: Option<Version>, now: Time)
    requires id in db.reports && t.report == db.reports[id] && t.report.status == Triaged
    requires t.report.rowVersion == request.expected && remedy == RemediationRow(t, request.remediation, row)
    requires var op := Operation(actor, ReportResolution, {actor} + OuterUsers(t, remedy));
             Begin(db, op).None? && Arm(db, op, ReportManifest(id, t, remedy)).None?
    requires request.remediation.Some? ==> remedy != map[] && row.Some? && RemediationAccepted(t, request, row.value)
    ensures var r := CommitResolve(db, actor, id, request, OuterUsers(t, remedy), Some(t), row, now);
            && r.Ok?
            && ReportWritten(db, r.value, id,
                             t.report.(status := if request.resolved then Resolved else Dismissed,
                                       resolutionReason := Some(request.reason), remediation := request.remediation,
                                       resolvedAt := Some(now), rowVersion := request.expected + 1),
                             Audit(ReportResolution, Some(id), Actor(actor), Some(request.expected),
                                   Some(request.expected + 1), [Resolution, ReportStatusField]))
  {
    hide Arm, Begin, ReportManifest, OuterUsers, RemediationRow, RemediationAccepted;
  }

  /** The answer once the report is there, armed or refused by the rules. */
  lemma ResolveRefuses(db: Db, actor: Id, id: Id, request: ResolveRequest, t: ReportTarget, remedy: map<Id, Version>,
                       row: Option<Version>, now: Time)
    requires remedy == RemediationRow(t, request.remediation, row) && t.report.rowVersion == request.expected
    requires var op := Operation(actor, ReportResolution, {actor} + OuterUsers(t, remedy));
             && Begin(db, op).None?
             && Arm(db, op, ReportManifest(id, t, remedy))
                == if t.report.status == Triaged then None else Some(RuleViolation)
    ensures var r := CommitResolve(db, actor, id, request, OuterUsers(t, remedy), Some(t), row, now);
            && (t.report.status != Triaged ==> r == Err(RuleViolation))
            && (t.report.status == Triaged && request.remediation.Some?
                && !(remedy != map[] && row.Some? && RemediationAccepted(t, request, row.value)) ==>
                  r == Err(ResourceNotFound))
  {
    hide Arm, Begin, ReportManifest, OuterUsers, RemediationAccepted;
  }

  /**
    * Every answer of a resolution on current rows: it commits exactly when an
    * active administrator names the row version of a triaged report and, if the
    * request names a remedy, resolves the report by a version that remedies it.
    * A report is RESOLVED or DISMISSED as the request says, with or without one.
    */
  lemma ResolveAnswer(db: Db, actor: Id, id: Id, request: ResolveRequest, now: Time)
    requires Inv(db)
    ensures id in db.reports ==> db.reports[id].versionId in db.versions
    ensures var r := CommitResolve(db, actor, id, request, OuterRead(db, id, request), LoadReportTarget(db, id),
                                   VersionRow(db, request.remediation), now);
            if !(actor in db.users && db.users[actor] == User(Admin, ActiveAccount)) then r == Err(AuthorityLost)
            else if id !in db.reports then r == Err(ResourceNotFound)
            else if db.reports[id].rowVersion != request.expected then r == Err(VersionConflict)
            else if db.reports[id].status != Triaged then r == Err(RuleViolation)
            else if request.remediation.Some?
                    && !(request.resolved && Remedies(db, db.reports[id], request.remediation.value)) then
              r == Err(ResourceNotFound)
            else
              && r.Ok?
              && ReportWritten(db, r.value, id,
                               db.reports[id].(status := if request.resolved then Resolved else Dismissed,
                                               resolutionReason := Some(request.reason),
                                               remediation := request.remediation, resolvedAt := Some(now),
                                               rowVersion := request.expected + 1),
                               Audit(ReportResolution, Some(id), Actor(actor), Some(request.expected),
                                     Some(request.expected + 1), [Resolution, ReportStatusField]))
  {
    hide Inv, Arm, Begin, LoadReportTarget, ReportManifest, OuterUsers, FewLive, CreatorUsers, RemediationRow,
         RemediationAccepted, Remedies, ReportWritten, ReportRows;
    ReportIsThere(db, id);
    if id !in db.reports {
      NobodyBegins(db, actor, ReportResolution);
      assert {actor} + {} == {actor};
    } else {
      var t, remedy := LoadReportTarget(db, id).value, RemedyRead(db, id, request);
      ResolveRows(db, id, request);
      ReportNames(db, actor, id, t, remedy);
      BeginAnswers(db, Operation(actor, ReportResolution, {actor} + OuterUsers(t, remedy)));
      ReportArms(db, Operation(actor, ReportResolution, {actor} + OuterUsers(t, remedy)), id, t, remedy);
      if request.remediation.Some? {
        RemedyAccepted(db, id, request, request.remediation.value);
      }
      if HasAuthority(db, actor) && t.report.rowVersion == request.expected {
        var row := VersionRow(db, request.remediation);
        ResolveRefuses(db, actor, id, request, t, remedy, row, now);
        if t.report.status == Triaged
           && (request.remediation.Some? ==> request.resolved && Remedies(db, t.report, request.remediation.value)) {
          ResolveSteps(db, actor, id, request, t, remedy, row, now);
        }
      }
    }
  }
}
