/** Every committed transaction leaves sound evidence and keeps resolved reports. */
module ContentEvidence {
  import opened Common
  import opened ContentTables
  import opened ContentArm
  import opened ContentCommands
  import opened ReviewBatch
  import opened AccountErasure
  import opened ContentInvariant
  import opened ContentOrder
  import opened ContentPreservation
  import opened CommandPreservation
  import opened PublishConcurrency
  import opened ReportConcurrency
  import opened BatchConcurrency
  import opened ContentTrail
  import opened ContentEvents
  import opened ContentSteps

  lemma CreateTraced(db: Db, e: Event, h: seq<Db>, next: Db)
    requires h == [db] && (e.CreateQuestion? || e.Import?) && Inv(db) && Commits(h, e, next)
    ensures Traced(LogOf(db), LogOf(next)) && next.reports == db.reports
  {
    hide Inv, Arm, ContentCheck, ImportValid, Edits, Moves, InsertItems;
    match e {
      case CreateQuestion(actor, questionId, versionId, content, seen) =>
        EditsPut(LogOf(db), versionId, NewVersion(actor, questionId, 1, content));
      case Import(actor, imported, validSeen) =>
        InsertItemsEdits(db, actor, imported, |imported|);
        assert imported[..|imported|] == imported;
        InsertItemsReports(db, actor, imported);
        assert LogOf(next) == LogOf(InsertItems(db, actor, imported));
    }
  }

  lemma {:induction false} InsertItemsReports(db: Db, actor: Id, items: seq<ImportItem>)
    ensures InsertItems(db, actor, items).reports == db.reports
    decreases |items|
  {
    if |items| > 0 {
      InsertItemsReports(db, actor, items[..|items| - 1]);
    }
  }

  lemma CreateVersionTraced(db: Db, actor: Id, questionId: Id, versionId: Id, expected: nat, content: Content,
                            target: Option<QuestionTarget>, seen: ContentSeen, next: Db)
    requires CommitCreateVersion(db, actor, questionId, versionId, expected, content, target, seen) == Ok(next)
    ensures Traced(LogOf(db), LogOf(next)) && next.reports == db.reports
  {
    hide CommitCreateVersion, Edits, Moves, ContentCheck;
    CreateVersionFacts(db, actor, questionId, versionId, expected, content, target, seen);
    EditsPut(LogOf(db), versionId, NewVersion(actor, questionId, target.value.maximum + 1, content));
  }

  lemma UpdateTraced(db: Db, actor: Id, id: Id, expected: nat, content: Content, target: Option<VersionTarget>,
                     options: map<Id, Choice>, tagsRead: set<Id>, seen: ContentSeen, next: Db)
    requires CommitUpdate(db, actor, id, expected, content, target, options, tagsRead, seen) == Ok(next)
    ensures Traced(LogOf(db), LogOf(next)) && next.reports == db.reports
  {
    hide CommitUpdate, Edits, Moves, ContentCheck, ChangedFields;
    UpdateFacts(db, actor, id, expected, content, target, options, tagsRead, seen);
    EditsPut(LogOf(db), id, next.versions[id]);
  }

  lemma TransitionTraced(db: Db, operation: LifecycleOperation, actor: Id, id: Id, request: TransitionRequest,
                         target: Option<VersionTarget>, now: Time, next: Db)
    requires CommitTransition(db, operation, actor, id, request, target, now) == Ok(next)
    ensures Traced(LogOf(db), LogOf(next)) && next.reports == db.reports
  {
    hide CommitTransition, Edits, Moves;
    TransitionFacts(db, operation, actor, id, request, target, now);
    TransitionMoves(db, operation, actor, id, target.value.version, request, now);
  }

  lemma PublishTraced(db: Db, actor: Id, id: Id, expectedQuestion: nat, expected: nat,
                      target: Option<VersionTarget>, aggregate: map<Id, Version>, now: Time, next: Db)
    requires Inv(db) && CommitPublish(db, actor, id, expectedQuestion, expected, target, aggregate, now) == Ok(next)
    ensures Traced(LogOf(db), LogOf(next)) && next.reports == db.reports
  {
    hide CommitPublish, Traced, Inv;
    PublishFacts(db, actor, id, expectedQuestion, expected, target, aggregate, now);
    var previous := PreviousCurrent(target.value, aggregate);
    HomeOf(db, id);
    PublishMoves(db, actor, id, target.value.version.questionId, previous,
                 if previous.Some? then aggregate[previous.value].rowVersion else 0,
                 expected, expectedQuestion, target.value.approver.value, now);
  }

  lemma RetireTraced(db: Db, actor: Id, id: Id, expectedQuestion: nat, expected: nat, target: Option<VersionTarget>,
                     now: Time, next: Db)
    requires CommitRetire(db, actor, id, expectedQuestion, expected, target, now) == Ok(next)
    ensures Traced(LogOf(db), LogOf(next)) && next.reports == db.reports
  {
    hide CommitRetire, Edits, Moves;
    RetireFacts(db, actor, id, expectedQuestion, expected, target, now);
    RetireMoves(db, actor, id, db.versions[id].questionId, expected, expectedQuestion, now);
  }

  lemma ArchiveTraced(s: Db, g: Db, db: Db, actor: Id, questionId: Id, request: ArchiveRequest,
                      target: Option<QuestionTarget>, now: Time, next: Db)
    requires Inv(g) && Inv(db) && Follows(s, g) && Follows(g, db) && IsQuestionTarget(s, questionId, target)
    requires CommitArchive(db, actor, questionId, request, target, LoadLifecycleVersions(g, questionId), now)
             == Ok(next)
    ensures Traced(LogOf(db), LogOf(next)) && next.reports == db.reports
  {
    hide Inv, Follows, CommitArchive, CandidateExpected, CandidateOf, OpenCandidates, IsQuestionTarget, Archivable,
         AuthorSnapshot, Traced;
    StaleArchive(s, g, db, actor, questionId, request, target, now);
    var aggregate := LoadLifecycleVersions(db, questionId);
    ArchiveFacts(db, actor, questionId, request, target, aggregate, now);
    ArchiveWrites(db, actor, questionId, request, target, aggregate, now);
    ArchiveReads(db, questionId, target);
    var current := ArchiveCurrent(target.value, aggregate);
    ArchiveRowsFit(db, questionId, request, current, aggregate);
    ArchiveMoves(db, actor, questionId, request.expected, current, CandidateOf(aggregate), aggregate, now);
  }

  lemma BatchTraced(db: Db, actor: Id, items: seq<BatchItem>, targets: map<Id, BatchTarget>, now: Time, next: Db)
    requires CommitReviewBatch(db, actor, items, targets, now) == Ok(next)
    ensures Traced(LogOf(db), LogOf(next)) && next.reports == db.reports
  {
    hide CommitReviewBatch, Edits, Moves, BatchEffect;
    BatchFacts(db, actor, items, targets, now);
    BatchWrites(db, actor, items, targets, now);
    BatchMoves(db, actor, items, targets, now);
    BatchReports(db, actor, items, targets, now);
    assert LogOf(next) == LogOf(BatchEffect(db, actor, items, targets, now));
  }

  lemma {:induction false} BatchReports(db: Db, actor: Id, items: seq<BatchItem>, targets: map<Id, BatchTarget>,
                                        now: Time)
    requires forall i | 0 <= i < |items| :: items[i].versionId in db.versions && items[i].versionId in targets
    ensures BatchEffect(db, actor, items, targets, now).reports == db.reports
    decreases |items|
  {
    if |items| > 0 {
      BatchReports(db, actor, items[..|items| - 1], targets, now);
    }
  }

  /** A resolved report keeps its place and its remediation. */
  ghost predicate ResolutionKept(reports: map<Id, Report>, after: map<Id, Report>) {
    forall r | r in reports && reports[r].status == Resolved ::
      && r in after && after[r].status == Resolved
      && after[r].remediation == reports[r].remediation
      && after[r].questionId == reports[r].questionId && after[r].versionId == reports[r].versionId
  }

  ghost predicate Evident(db: Db, next: Db) {
    Traced(LogOf(db), LogOf(next)) && ResolutionKept(db.reports, next.reports)
  }

  lemma TriageEvident(db: Db, actor: Id, id: Id, expected: nat, target: Option<ReportTarget>, next: Db)
    requires CommitTriage(db, actor, id, expected, target) == Ok(next)
    ensures Evident(db, next)
  {
    hide CommitTriage, Edits, Moves;
    TriageFacts(db, actor, id, expected, target);
    EditsNone(LogOf(db), LogOf(next));
  }

  lemma ResolveEvident(db: Db, actor: Id, id: Id, request: ResolveRequest, outer: set<Id>,
                       target: Option<ReportTarget>, row: Option<Version>, now: Time, next: Db)
    requires CommitResolve(db, actor, id, request, outer, target, row, now) == Ok(next)
    ensures Evident(db, next)
  {
    hide CommitResolve, Edits, Moves;
    ResolveFacts(db, actor, id, request, outer, target, row, now);
    EditsNone(LogOf(db), LogOf(next));
  }

  lemma EraseEvident(db: Db, user: Id, order: seq<Id>, now: Time, next: Db)
    requires Inv(db) && LockOrder(db, order, user) && CommitErase(db, user, order, now) == Some(next)
    ensures Evident(db, next)
  {
    hide Inv, LockOrder, Traced, EraseReviews, EraseAudits;
    EraseMoves(db, user, order, now);
    EraseReports(db, user, order, now);
  }

  lemma EraseReports(db: Db, user: Id, order: seq<Id>, now: Time)
    requires LockOrder(db, order, user) && user in db.users
    ensures CommitErase(db, user, order, now).value.reports == ErasedReports(db.reports, user)
  {
    AbandonReports(db, order, user, now);
  }

  lemma {:induction false} AbandonReports(db: Db, order: seq<Id>, user: Id, now: Time)
    requires forall i | 0 <= i < |order| :: order[i] in db.versions
    ensures Abandon(db, order, user, now).reports == db.reports
    decreases |order|
  {
    if |order| > 0 {
      AbandonReports(db, order[..|order| - 1], user, now);
    }
  }

  lemma OtherEvident(db: Db, e: Event, next: Db)
    requires e.SignUp? || e.SetRole? || e.RequestErasure? || e.Pin? || e.SubmitReport? || e.RedactReport?
    requires Commits([db], e, next)
    ensures Evident(db, next)
  {
    hide Edits, Moves, NewReport, OpenVersionsOf, CommitCreateQuestion, CommitCreateVersion, CommitUpdate,
         CommitTransition, CommitPublish, CommitRetire, CommitArchive, CommitReviewBatch, CommitImport, CommitTriage,
         CommitResolve, LoadVersionTarget, IsQuestionTarget, LoadReportTarget, LoadBatchTargets, LoadLifecycleVersions,
         VersionRow, LockOrder, CommitErase;
    EditsNone(LogOf(db), LogOf(next));
  }

  lemma SameReports(db: Db, next: Db)
    requires Traced(LogOf(db), LogOf(next)) && next.reports == db.reports
    ensures Evident(db, next)
  {
    hide Traced;
  }

  /** Any committed transaction leaves sound evidence. */
  lemma StepIsEvident(h: seq<Db>, e: Event, next: Db)
    requires History(h) && Commits(h, e, next)
    ensures Evident(h[|h| - 1], next)
  {
    hide Inv, Follows, Evident, Traced, LoadVersionTarget, IsQuestionTarget, LoadReportTarget, LoadBatchTargets,
         LoadLifecycleVersions, VersionRow, LockOrder, CommitErase, OpenVersionsOf, NewReport, CommitCreateQuestion,
         CommitCreateVersion, CommitUpdate, CommitTransition, CommitPublish, CommitRetire, CommitArchive,
         CommitReviewBatch, CommitImport, CommitTriage, CommitResolve;
    var db := h[|h| - 1];
    match e {
      case CreateQuestion(_, _, _, _, _) => CreateTraced(db, e, [db], next); SameReports(db, next);
      case CreateVersion(actor, questionId, versionId, expected, content, target, seen, targetAt) =>
        CreateVersionTraced(db, actor, questionId, versionId, expected, content, target, seen, next);
        SameReports(db, next);
      case Update(actor, id, expected, content, seen, targetAt, optionsAt, tagsAt) =>
        UpdateTraced(db, actor, id, expected, content, LoadVersionTarget(h[targetAt], id),
                     OptionsRead(h[optionsAt], id), TagsRead(h[tagsAt], id), seen, next);
        SameReports(db, next);
      case Transition(operation, actor, id, request, targetAt, now) =>
        TransitionTraced(db, operation, actor, id, request, LoadVersionTarget(h[targetAt], id), now, next);
        SameReports(db, next);
      case Publish(actor, id, expectedQuestion, expected, targetAt, aggregateAt, now) =>
        PublishTraced(db, actor, id, expectedQuestion, expected, LoadVersionTarget(h[targetAt], id),
                      AggregateRead(h[aggregateAt], LoadVersionTarget(h[targetAt], id)), now, next);
        SameReports(db, next);
      case Retire(actor, id, expectedQuestion, expected, targetAt, now) =>
        RetireTraced(db, actor, id, expectedQuestion, expected, LoadVersionTarget(h[targetAt], id), now, next);
        SameReports(db, next);
      case Archive(actor, questionId, archival, target, targetAt, aggregateAt, now) =>
        ArchiveTraced(h[targetAt], h[aggregateAt], db, actor, questionId, archival, target, now, next);
        SameReports(db, next);
      case RequestBatch(actor, items, targetAt, now) =>
        BatchTraced(db, actor, items, LoadBatchTargets(h[targetAt], items), now, next);
        SameReports(db, next);
      case Import(_, _, _) => CreateTraced(db, e, [db], next); SameReports(db, next);
      case Triage(actor, id, expected, targetAt) =>
        TriageEvident(db, actor, id, expected, LoadReportTarget(h[targetAt], id), next);
      case Resolve(actor, id, resolution, outer, targetAt, remediationAt, now) =>
        ResolveEvident(db, actor, id, resolution, outer, LoadReportTarget(h[targetAt], id),
                       VersionRow(h[remediationAt], resolution.remediation), now, next);
      case Erase(user, order, now) => EraseEvident(db, user, order, now, next);
      case SignUp(_) => OtherEvident(db, e, next);
      case SetRole(_, _) => OtherEvident(db, e, next);
      case RequestErasure(_) => OtherEvident(db, e, next);
      case Pin(_) => OtherEvident(db, e, next);
      case SubmitReport(_, _) => OtherEvident(db, e, next);
      case RedactReport(_) => OtherEvident(db, e, next);
    }
  }
}
