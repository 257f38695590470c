/** In every state of every run an erased user is named by no row as a live user. */
module ErasedUsers {
  import opened Common
  import opened ContentTables
  import opened ContentArm
  import opened ContentCommands
  import opened ReviewBatch
  import opened AccountErasure
  import opened ContentInvariant
  import opened CommandPreservation
  import opened ErasureRows
  import opened ContentOrder
  import opened BatchConcurrency
  import opened ReportConcurrency
  import opened ContentEvents
  import opened ContentSteps
  import opened ContentRuns

  ghost predicate NamesLive(a: Option<Account>, user: Id) {
    a.Some? && a.value.userId == Some(user)
  }

  /** No row of any table names the user as a live one. */
  ghost predicate Nowhere(db: Db, user: Id) {
    && user !in db.users
    && (forall v | v in db.versions :: db.versions[v].creator.userId != Some(user))
    && (forall q | q in db.questions :: db.questions[q].creator.userId != Some(user))
    && (forall i | 0 <= i < |db.reviews| ::
          !NamesLive(db.reviews[i].actor, user) && !NamesLive(db.reviews[i].counterpart, user))
    && (forall i | 0 <= i < |db.audits| :: !NamesLive(db.audits[i].actor, user))
    && (forall r | r in db.reports ::
          db.reports[r].reporter.userId != Some(user) && !NamesLive(db.reports[r].assignee, user))
  }

  // ----- the audit log names live administrators or erased ones

  ghost predicate AuditsLive(db: Db) {
    forall i {:trigger db.audits[i]} | 0 <= i < |db.audits| ::
             OptionalLive(db.users.Keys, db.erased, db.audits[i].actor)
  }

  /** The log grew by rows of one live administrator or of the system. */
  ghost predicate AuditedBy(db: Db, next: Db, actor: Id) {
    && actor in db.users && next.users == db.users && next.erased == db.erased
    && |db.audits| <= |next.audits| && next.audits[..|db.audits|] == db.audits
    && forall i | |db.audits| <= i < |next.audits| ::
         next.audits[i].actor == Some(Account(Some(actor), actor, ActiveAdmin))
  }

  lemma AuditedKeeps(db: Db, next: Db, actor: Id)
    requires AuditsLive(db) && AuditedBy(db, next, actor)
    ensures AuditsLive(next)
  {
    forall i | 0 <= i < |next.audits| ensures OptionalLive(next.users.Keys, next.erased, next.audits[i].actor) {
      if i < |db.audits| {
        assert next.audits[..|db.audits|][i] == next.audits[i];
        assert OptionalLive(db.users.Keys, db.erased, db.audits[i].actor);
      }
    }
  }

  lemma {:induction false} InsertItemsAudited(db: Db, actor: Id, items: seq<ImportItem>)
    requires actor in db.users
    ensures AuditedBy(db, InsertItems(db, actor, items), actor)
    decreases |items|
  {
    if |items| > 0 {
      InsertItemsAudited(db, actor, items[..|items| - 1]);
    }
  }

  lemma {:induction false} BatchAudited(db: Db, actor: Id, items: seq<BatchItem>, targets: map<Id, BatchTarget>,
                                        now: Time)
    requires actor in db.users
    requires forall i | 0 <= i < |items| :: items[i].versionId in db.versions && items[i].versionId in targets
    ensures AuditedBy(db, BatchEffect(db, actor, items, targets, now), actor)
    decreases |items|
  {
    if |items| > 0 {
      BatchAudited(db, actor, items[..|items| - 1], targets, now);
    }
  }

  lemma AuditedThen(db: Db, middle: Db, a: Audit, actor: Id)
    requires AuditedBy(db, middle, actor) && a.actor == Some(Account(Some(actor), actor, ActiveAdmin))
    ensures AuditedBy(db, WithAudit(middle, a), actor)
  {
  }

  /** Creations and imports. */
  lemma CreateAudited(db: Db, e: Event, next: Db)
    requires e.CreateQuestion? || e.Import?
    requires Commits([db], e, next)
    ensures AuditedBy(db, next, e.actor)
  {
    hide Arm, ContentCheck, ImportValid, InsertItems, FreshKeys, DistinctKeys, ImportTags;
    if e.Import? {
      InsertItemsAudited(db, e.actor, e.imported);
      AuditedThen(db, InsertItems(db, e.actor, e.imported),
                  Audit(ImportApply, None, Some(AdminAccount(e.actor)), None, None, [ImportItems]), e.actor);
    }
  }

  lemma CreateVersionAudited(db: Db, actor: Id, questionId: Id, versionId: Id, expected: nat, content: Content,
                             target: Option<QuestionTarget>, seen: ContentSeen, next: Db)
    requires CommitCreateVersion(db, actor, questionId, versionId, expected, content, target, seen) == Ok(next)
    ensures AuditedBy(db, next, actor)
  {
    hide CommitCreateVersion, ContentCheck;
    CreateVersionFacts(db, actor, questionId, versionId, expected, content, target, seen);
  }

  lemma UpdateAudited(db: Db, actor: Id, id: Id, expected: nat, content: Content, target: Option<VersionTarget>,
                      options: map<Id, Choice>, tagsRead: set<Id>, seen: ContentSeen, next: Db)
    requires CommitUpdate(db, actor, id, expected, content, target, options, tagsRead, seen) == Ok(next)
    ensures AuditedBy(db, next, actor)
  {
    hide CommitUpdate, ContentCheck, ChangedFields;
    UpdateFacts(db, actor, id, expected, content, target, options, tagsRead, seen);
  }

  lemma TransitionAudited(db: Db, operation: LifecycleOperation, actor: Id, id: Id, request: TransitionRequest,
                          target: Option<VersionTarget>, now: Time, next: Db)
    requires CommitTransition(db, operation, actor, id, request, target, now) == Ok(next)
    ensures AuditedBy(db, next, actor)
  {
    hide CommitTransition;
    TransitionFacts(db, operation, actor, id, request, target, now);
  }

  lemma PublishAudited(db: Db, actor: Id, id: Id, expectedQuestion: nat, expected: nat, target: Option<VersionTarget>,
                       aggregate: map<Id, Version>, now: Time, next: Db)
    requires CommitPublish(db, actor, id, expectedQuestion, expected, target, aggregate, now) == Ok(next)
    ensures AuditedBy(db, next, actor)
  {
    hide CommitPublish;
    PublishFacts(db, actor, id, expectedQuestion, expected, target, aggregate, now);
  }

  lemma RetireAudited(db: Db, actor: Id, id: Id, expectedQuestion: nat, expected: nat, target: Option<VersionTarget>,
                      now: Time, next: Db)
    requires CommitRetire(db, actor, id, expectedQuestion, expected, target, now) == Ok(next)
    ensures AuditedBy(db, next, actor)
  {
    hide CommitRetire;
    RetireFacts(db, actor, id, expectedQuestion, expected, target, now);
  }

  lemma ArchiveAudited(db: Db, actor: Id, questionId: Id, request: ArchiveRequest, target: Option<QuestionTarget>,
                       aggregate: map<Id, Version>, now: Time, next: Db)
    requires CommitArchive(db, actor, questionId, request, target, aggregate, now) == Ok(next)
    ensures AuditedBy(db, next, actor)
  {
    hide CommitArchive, CandidateExpected, CandidateOf, OpenCandidates;
    ArchiveFacts(db, actor, questionId, request, target, aggregate, now);
    ArchiveWrites(db, actor, questionId, request, target, aggregate, now);
  }

  lemma BatchCommandAudited(db: Db, actor: Id, items: seq<BatchItem>, targets: map<Id, BatchTarget>, now: Time,
                            next: Db)
    requires CommitReviewBatch(db, actor, items, targets, now) == Ok(next)
    ensures AuditedBy(db, next, actor)
  {
    hide CommitReviewBatch, ArmedTargets, BatchUsers, BatchManifest, Arm, BatchEffect, AuditedBy;
    BatchFacts(db, actor, items, targets, now);
    BatchWrites(db, actor, items, targets, now);
    BatchAudited(db, actor, items, targets, now);
    AuditedThen(db, BatchEffect(db, actor, items, targets, now),
                Audit(ReviewRequestBatch, None, Some(AdminAccount(actor)), None, None, [VersionStatus]), actor);
  }

  lemma TriageAudited(db: Db, actor: Id, id: Id, expected: nat, target: Option<ReportTarget>, next: Db)
    requires CommitTriage(db, actor, id, expected, target) == Ok(next)
    ensures AuditedBy(db, next, actor)
  {
    hide CommitTriage;
    TriageFacts(db, actor, id, expected, target);
  }

  lemma ResolveAudited(db: Db, actor: Id, id: Id, request: ResolveRequest, outer: set<Id>, target: Option<ReportTarget>,
                       row: Option<Version>, now: Time, next: Db)
    requires CommitResolve(db, actor, id, request, outer, target, row, now) == Ok(next)
    ensures AuditedBy(db, next, actor)
  {
    hide CommitResolve;
    ResolveFacts(db, actor, id, request, outer, target, row, now);
  }

  // ----- every step

  lemma EraseAuditsLive(db: Db, user: Id, order: seq<Id>, now: Time, next: Db)
    requires Inv(db) && AuditsLive(db) && LockOrder(db, order, user) && CommitErase(db, user, order, now) == Some(next)
    ensures AuditsLive(next)
  {
    hide Inv, LockOrder, CommitErase, VersionAfter, QuestionAfter, ReportAfter, ReviewAfter;
    EraseAnswer(db, user, order, now);
    forall i | 0 <= i < |next.audits| ensures OptionalLive(next.users.Keys, next.erased, next.audits[i].actor) {
      if i < |db.audits| {
        assert AuditAfter(db.audits[i], next.audits[i], user);
        assert OptionalLive(db.users.Keys, db.erased, db.audits[i].actor);
      } else if i < |db.audits| + |order| {
        var j := i - |db.audits|;
        assert GivenUp(order[j], db.versions[order[j]], next.reviews[|db.reviews| + j], next.audits[|db.audits| + j],
                       user, now);
      }
    }
  }

  lemma OtherAuditsLive(db: Db, e: Event, next: Db)
    requires e.SignUp? || e.SetRole? || e.RequestErasure? || e.Pin? || e.SubmitReport? || e.RedactReport?
    requires Commits([db], e, next) && AuditsLive(db)
    ensures AuditsLive(next)
  {
    hide NewReport, OpenVersionsOf, CommitCreateQuestion, CommitCreateVersion, CommitUpdate, CommitTransition,
         CommitPublish, CommitRetire, CommitArchive, CommitReviewBatch, CommitImport, CommitTriage, CommitResolve,
         LoadVersionTarget, IsQuestionTarget, LoadReportTarget, LoadBatchTargets, LoadLifecycleVersions, VersionRow,
         LockOrder, CommitErase, OptionalLive;
    assert next.audits == db.audits && next.erased == db.erased && db.users.Keys <= next.users.Keys;
    forall i | 0 <= i < |next.audits| ensures OptionalLive(next.users.Keys, next.erased, next.audits[i].actor) {
      assert OptionalLive(db.users.Keys, db.erased, db.audits[i].actor);
      MoreUsers(db.users.Keys, next.users.Keys, db.erased, db.audits[i].actor);
    }
  }

  lemma MoreUsers(users: set<Id>, more: set<Id>, erased: set<Id>, a: Option<Account>)
    requires OptionalLive(users, erased, a) && users <= more
    ensures OptionalLive(more, erased, a)
  {
  }

  lemma StepAuditsLive(h: seq<Db>, e: Event, next: Db)
    requires History(h) && Commits(h, e, next) && AuditsLive(h[|h| - 1])
    ensures AuditsLive(next)
  {
    hide Inv, AuditsLive, AuditedBy, LoadVersionTarget, IsQuestionTarget, LoadReportTarget, LoadBatchTargets,
         LoadLifecycleVersions, VersionRow, LockOrder, CommitErase, OpenVersionsOf, NewReport, CommitCreateQuestion,
         CommitCreateVersion, CommitUpdate, CommitTransition, CommitPublish, CommitRetire, CommitArchive,
         CommitReviewBatch, CommitImport, CommitTriage, CommitResolve;
    var db := h[|h| - 1];
    match e {
      case CreateQuestion(_, _, _, _, _) => CreateAudited(db, e, next);
      case CreateVersion(actor, questionId, versionId, expected, content, target, seen, _) =>
        CreateVersionAudited(db, actor, questionId, versionId, expected, content, target, seen, next);
      case Update(actor, id, expected, content, seen, targetAt, optionsAt, tagsAt) =>
        UpdateAudited(db, actor, id, expected, content, LoadVersionTarget(h[targetAt], id),
                      OptionsRead(h[optionsAt], id), TagsRead(h[tagsAt], id), seen, next);
      case Transition(operation, actor, id, request, targetAt, now) =>
        TransitionAudited(db, operation, actor, id, request, LoadVersionTarget(h[targetAt], id), now, next);
      case Publish(actor, id, expectedQuestion, expected, targetAt, aggregateAt, now) =>
        PublishAudited(db, actor, id, expectedQuestion, expected, LoadVersionTarget(h[targetAt], id),
                       AggregateRead(h[aggregateAt], LoadVersionTarget(h[targetAt], id)), now, next);
      case Retire(actor, id, expectedQuestion, expected, targetAt, now) =>
        RetireAudited(db, actor, id, expectedQuestion, expected, LoadVersionTarget(h[targetAt], id), now, next);
      case Archive(actor, questionId, archival, target, _, aggregateAt, now) =>
        ArchiveAudited(db, actor, questionId, archival, target, LoadLifecycleVersions(h[aggregateAt], questionId), now,
                       next);
      case RequestBatch(actor, items, targetAt, now) =>
        BatchCommandAudited(db, actor, items, LoadBatchTargets(h[targetAt], items), now, next);
      case Import(_, _, _) => CreateAudited(db, e, next);
      case Triage(actor, id, expected, targetAt) =>
        TriageAudited(db, actor, id, expected, LoadReportTarget(h[targetAt], id), next);
      case Resolve(actor, id, resolution, outer, targetAt, remediationAt, now) =>
        ResolveAudited(db, actor, id, resolution, outer, LoadReportTarget(h[targetAt], id),
                       VersionRow(h[remediationAt], resolution.remediation), now, next);
      case Erase(user, order, now) => EraseAuditsLive(db, user, order, now, next);
      case _ => OtherAuditsLive(db, e, next);
    }
    if !(e.Erase? || e.SignUp? || e.SetRole? || e.RequestErasure? || e.Pin? || e.SubmitReport? || e.RedactReport?) {
      AuditedKeeps(db, next, e.actor);
    }
  }

  lemma {:induction false} RunAuditsLive(h: seq<Db>, events: seq<Event>, k: nat)
    requires Run(h, events) && k < |h|
    ensures AuditsLive(h[k])
    decreases k
  {
    hide Inv, Follows, Commits;
    if k > 0 {
      hide AuditsLive, Seeded;
      RunAuditsLive(h, events, k - 1);
      RunHistory(h, events, k - 1);
      assert Stepped(h, events, k - 1);
      assert h[..k][|h[..k]| - 1] == h[k - 1];
      StepAuditsLive(h[..k], events[k - 1], h[k]);
    }
  }

  /**
    * In every state of every run a user who was erased is named by no version,
    * question, review, audit or report as a live user, and is no user any more.
    */
  lemma ErasedIsNowhere(h: seq<Db>, events: seq<Event>, k: nat, user: Id)
    requires Run(h, events) && k < |h| && user in h[k].erased
    ensures Nowhere(h[k], user)
  {
    hide Run, Follows, AggregatesOk, VersionsShaped, QuestionsShaped, CandidatesLive, ReviewsLegal, ReplaysOk,
         ReportsOk, ContentUnique, Housed;
    RunIsSound(h, events);
    RunAuditsLive(h, events, k);
    var db := h[k];
    assert Inv(db);
    forall v | v in db.versions ensures db.versions[v].creator.userId != Some(user) {
      assert CreatorLive(db.users.Keys, db.erased, db.versions[v].creator);
    }
    forall q | q in db.questions ensures db.questions[q].creator.userId != Some(user) {
      assert CreatorLive(db.users.Keys, db.erased, db.questions[q].creator);
    }
    forall i | 0 <= i < |db.reviews|
      ensures !NamesLive(db.reviews[i].actor, user) && !NamesLive(db.reviews[i].counterpart, user)
    {
      assert ReviewLive(db.users.Keys, db.erased, db.reviews[i]);
    }
    forall i | 0 <= i < |db.audits| ensures !NamesLive(db.audits[i].actor, user) {
      assert OptionalLive(db.users.Keys, db.erased, db.audits[i].actor);
    }
    forall r | r in db.reports
      ensures db.reports[r].reporter.userId != Some(user) && !NamesLive(db.reports[r].assignee, user)
    {
      assert ReportLive(db.users.Keys, db.erased, db.reports[r]);
    }
  }
}
