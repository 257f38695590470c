/**
  * One committed transaction after a history of committed states. A command
  * names the states its preflight queries saw; any number of transactions may
  * have committed since.
  */
module ContentEvents {
  import opened Common
  import opened ContentTables
  import opened ContentCommands
  import opened ReviewBatch
  import opened AccountErasure
  import opened ReportConcurrency

  datatype Event =
    | CreateQuestion(actor: Id, questionId: Id, versionId: Id, content: Content, seen: ContentSeen)
    | CreateVersion(actor: Id, questionId: Id, versionId: Id, expected: nat, content: Content,
                    target: Option<QuestionTarget>, seen: ContentSeen, targetAt: nat)
    | Update(actor: Id, id: Id, expected: nat, content: Content, seen: ContentSeen,
             targetAt: nat, optionsAt: nat, tagsAt: nat)
    | Transition(operation: LifecycleOperation, actor: Id, id: Id, request: TransitionRequest, targetAt: nat, now: Time)
    | Publish(actor: Id, id: Id, expectedQuestion: nat, expected: nat, targetAt: nat, aggregateAt: nat, now: Time)
    | Retire(actor: Id, id: Id, expectedQuestion: nat, expected: nat, targetAt: nat, now: Time)
    | Archive(actor: Id, questionId: Id, archival: ArchiveRequest, target: Option<QuestionTarget>,
              targetAt: nat, aggregateAt: nat, now: Time)
    | RequestBatch(actor: Id, items: seq<BatchItem>, targetAt: nat, now: Time)
    | Import(actor: Id, imported: seq<ImportItem>, validSeen: bool)
    | Triage(actor: Id, id: Id, expected: nat, targetAt: nat)
    | Resolve(actor: Id, id: Id, resolution: ResolveRequest, outer: set<Id>, targetAt: nat, remediationAt: nat,
              now: Time)
    | Erase(user: Id, order: seq<Id>, now: Time)
    | SignUp(user: Id)
    | SetRole(user: Id, role: Role)
    | RequestErasure(user: Id)
    | Pin(id: Id)
    | SubmitReport(id: Id, report: Report)
    | RedactReport(id: Id)

  /** The query answers when the version was missing. */
  function OptionsRead(db: Db, id: Id): map<Id, Choice> {
    if id in db.versions then db.versions[id].content.options else map[]
  }

  function TagsRead(db: Db, id: Id): set<Id> {
    if id in db.versions then db.versions[id].content.tags else {}
  }

  /** The aggregate query is keyed by the question of the target that was read. */
  function AggregateRead(db: Db, target: Option<VersionTarget>): map<Id, Version> {
    if target.Some? then LoadLifecycleVersions(db, target.value.version.questionId) else map[]
  }

  /** A report starts open, about an existing version, by a live and active reporter. */
  ghost predicate NewReport(db: Db, r: Report) {
    && r.versionId in db.versions && db.versions[r.versionId].questionId == r.questionId
    && r.status == ReportStatus.Open && r.rowVersion == 1
    && r.assignee.None? && r.remediation.None? && r.resolvedAt.None? && r.resolutionReason.None?
    && r.reporter.userId == Some(r.reporter.actorId)
    && r.reporter.actorId in db.users && db.users[r.reporter.actorId].status == ActiveAccount
  }

  /** The transaction commits after the last state of the history and yields the next state. */
  ghost predicate Commits(h: seq<Db>, e: Event, next: Db)
    requires |h| > 0
  {
    var db := h[|h| - 1];
    match e
    case CreateQuestion(actor, questionId, versionId, content, seen) =>
      CommitCreateQuestion(db, actor, questionId, versionId, content, seen) == Ok(next)
    case CreateVersion(actor, questionId, versionId, expected, content, target, seen, targetAt) =>
      && targetAt < |h| && IsQuestionTarget(h[targetAt], questionId, target)
      && CommitCreateVersion(db, actor, questionId, versionId, expected, content, target, seen) == Ok(next)
    case Update(actor, id, expected, content, seen, targetAt, optionsAt, tagsAt) =>
      && targetAt <= optionsAt < |h| && targetAt <= tagsAt < |h|
      && CommitUpdate(db, actor, id, expected, content, LoadVersionTarget(h[targetAt], id),
                      OptionsRead(h[optionsAt], id), TagsRead(h[tagsAt], id), seen) == Ok(next)
    case Transition(operation, actor, id, request, targetAt, now) =>
      && targetAt < |h|
      && CommitTransition(db, operation, actor, id, request, LoadVersionTarget(h[targetAt], id), now) == Ok(next)
    case Publish(actor, id, expectedQuestion, expected, targetAt, aggregateAt, now) =>
      && targetAt <= aggregateAt < |h|
      && CommitPublish(db, actor, id, expectedQuestion, expected, LoadVersionTarget(h[targetAt], id),
                       AggregateRead(h[aggregateAt], LoadVersionTarget(h[targetAt], id)), now) == Ok(next)
    case Retire(actor, id, expectedQuestion, expected, targetAt, now) =>
      && targetAt < |h|
      && CommitRetire(db, actor, id, expectedQuestion, expected, LoadVersionTarget(h[targetAt], id), now) == Ok(next)
    case Archive(actor, questionId, archival, target, targetAt, aggregateAt, now) =>
      && targetAt <= aggregateAt < |h| && IsQuestionTarget(h[targetAt], questionId, target)
      && CommitArchive(db, actor, questionId, archival, target, LoadLifecycleVersions(h[aggregateAt], questionId), now)
         == Ok(next)
    case RequestBatch(actor, items, targetAt, now) =>
      && targetAt < |h|
      && CommitReviewBatch(db, actor, items, LoadBatchTargets(h[targetAt], items), now) == Ok(next)
    case Import(actor, imported, validSeen) =>
      CommitImport(db, actor, imported, validSeen) == Ok(next)
    case Triage(actor, id, expected, targetAt) =>
      && targetAt < |h|
      && CommitTriage(db, actor, id, expected, LoadReportTarget(h[targetAt], id)) == Ok(next)
    case Resolve(actor, id, resolution, outer, targetAt, remediationAt, now) =>
      && targetAt < |h| && remediationAt < |h|
      && CommitResolve(db, actor, id, resolution, outer, LoadReportTarget(h[targetAt], id),
                       VersionRow(h[remediationAt], resolution.remediation), now) == Ok(next)
    case Erase(user, order, now) =>
      LockOrder(db, order, user) && CommitErase(db, user, order, now) == Some(next)
    case SignUp(user) =>
      user !in db.users && user !in db.erased && next == db.(users := db.users[user := User(Learner, ActiveAccount)])
    case SetRole(user, role) =>
      user in db.users && next == db.(users := db.users[user := db.users[user].(role := role)])
    case RequestErasure(user) =>
      && user in db.users && OpenVersionsOf(db, user) == {}
      && next == db.(users := db.users[user := db.users[user].(status := DeletionPending)])
    case Pin(id) =>
      id in db.versions && next == db.(pinned := db.pinned + {id})
    case SubmitReport(id, report) =>
      id !in db.reports && NewReport(db, report) && next == WithReport(db, id, report)
    case RedactReport(id) =>
      && id in db.reports && (db.reports[id].status == Resolved || db.reports[id].status == Dismissed)
      && next == WithReport(db, id, db.reports[id].(description := None, rowVersion := db.reports[id].rowVersion + 1))
  }
}
