/** One committed transaction keeps the invariant and moves forward in the order, whenever its rows were read. */
module ContentSteps {
  import opened Common
  import opened ContentTables
  import opened ContentArm
  import opened ContentCommands
  import opened ReviewBatch
  import opened AccountErasure
  import opened ContentInvariant
  import opened ContentOrder
  import opened ContentPreservation
  import opened CommandPreservation
  import opened CommandOrder
  import opened ErasureOrder
  import opened ContentConcurrency
  import opened PublishConcurrency
  import opened ReportConcurrency
  import opened BatchConcurrency

  /** Every state is sound and every later state follows every earlier one. */
  ghost predicate History(h: seq<Db>) {
    && |h| > 0
    && (forall i | 0 <= i < |h| :: Inv(h[i]))
    && (forall i, j | 0 <= i <= j < |h| :: Follows(h[i], h[j]))
  }

  ghost predicate Good(db: Db, next: Db) {
    Inv(next) && Follows(db, next)
  }

  lemma CreateQuestionStep(db: Db, actor: Id, questionId: Id, versionId: Id, content: Content, seen: ContentSeen,
                           next: Db)
    requires Inv(db) && CommitCreateQuestion(db, actor, questionId, versionId, content, seen) == Ok(next)
    ensures Good(db, next)
  {
    hide Inv, Follows, Arm, ContentCheck;
    CreateQuestionKeeps(db, actor, questionId, versionId, content, seen);
    InsertQuestionFollows(db, actor, questionId, versionId, content);
  }

  lemma CreateVersionStep(s: Db, db: Db, actor: Id, questionId: Id, versionId: Id, expected: nat, content: Content,
                          target: Option<QuestionTarget>, seen: ContentSeen, next: Db)
    requires Inv(db) && Follows(s, db) && IsQuestionTarget(s, questionId, target)
    requires CommitCreateVersion(db, actor, questionId, versionId, expected, content, target, seen) == Ok(next)
    ensures Good(db, next)
  {
    hide Inv, Follows, CommitCreateVersion, IsQuestionTarget;
    StaleCreateVersion(s, db, actor, questionId, versionId, expected, content, target, seen);
    CreateVersionKeeps(db, actor, questionId, versionId, expected, content, target, seen);
    CreateVersionFacts(db, actor, questionId, versionId, expected, content, target, seen);
    var written := WithVersion(WithQuestion(db, questionId, db.questions[questionId].(rowVersion := expected + 1)),
                               versionId, NewVersion(actor, questionId, target.value.maximum + 1, content));
    InsertVersionFollows(db, questionId, versionId, db.questions[questionId].(rowVersion := expected + 1),
                         NewVersion(actor, questionId, target.value.maximum + 1, content));
    AuditFollows(db, written, next.audits[|db.audits|]);
  }

  lemma UpdateStep(db: Db, actor: Id, id: Id, expected: nat, content: Content, target: Option<VersionTarget>,
                   options: map<Id, Choice>, tagsRead: set<Id>, seen: ContentSeen, next: Db)
    requires Inv(db) && CommitUpdate(db, actor, id, expected, content, target, options, tagsRead, seen) == Ok(next)
    ensures Good(db, next)
  {
    hide Inv, Follows, CommitUpdate, ContentCheck, ChangedFields;
    UpdateCommitKeeps(db, actor, id, expected, content, target, options, tagsRead, seen);
    UpdateFacts(db, actor, id, expected, content, target, options, tagsRead, seen);
    var row := db.versions[id];
    var written := content.(options := row.content.options + content.options);
    UpdateFollows(db, id, written, expected + 1);
    AuditFollows(db, WithVersion(db, id, row.(content := written, rowVersion := expected + 1)),
                 next.audits[|db.audits|]);
  }

  lemma TransitionStep(s: Db, db: Db, operation: LifecycleOperation, actor: Id, id: Id, request: TransitionRequest,
                       now: Time, next: Db)
    requires Inv(db) && Follows(s, db)
    requires CommitTransition(db, operation, actor, id, request, LoadVersionTarget(s, id), now) == Ok(next)
    ensures Good(db, next)
  {
    hide Inv, Follows, CommitTransition, TransitionEffect;
    StaleTransition(s, db, operation, actor, id, request, now);
    TransitionCommitKeeps(db, operation, actor, id, request, now);
    TransitionFacts(db, operation, actor, id, request, LoadVersionTarget(s, id), now);
    TransitionFollows(db, operation, actor, id, LoadVersionTarget(s, id).value.version, request, now);
  }

  /** The approver read with the target is still a live or an erased account. */
  lemma ApproverStillLive(s: Db, db: Db, actor: Id, id: Id, expectedQuestion: nat, expected: nat,
                          aggregate: map<Id, Version>, now: Time)
    requires Inv(s) && s.erased <= db.erased
    requires CommitPublish(db, actor, id, expectedQuestion, expected, LoadVersionTarget(s, id), aggregate, now).Ok?
    ensures LoadVersionTarget(s, id).Some?
    ensures OptionalLive(db.users.Keys, db.erased, LoadVersionTarget(s, id).value.approver)
  {
    hide CommitPublish, VersionsShaped, ContentUnique, ReplaysOk, ReviewsLegal, CandidatesLive, ReportsOk, AggregatesOk,
         QuestionsShaped, VersionsLive, QuestionsLive, ReportsLive;
    ApprovedStatus(db, actor, id, expectedQuestion, expected, LoadVersionTarget(s, id), aggregate, now);
    ApproverLive(s.users.Keys, s.erased, s.reviews, id);
  }

  lemma PublishStep(s: Db, db: Db, actor: Id, id: Id, expectedQuestion: nat, expected: nat,
                    aggregate: map<Id, Version>, now: Time, next: Db)
    requires Inv(s) && Inv(db) && Follows(s, db)
    requires CommitPublish(db, actor, id, expectedQuestion, expected, LoadVersionTarget(s, id), aggregate, now)
             == Ok(next)
    ensures Good(db, next)
  {
    hide Inv, CommitPublish, PublishEffect, LogFollows, CatalogFollows, ReportsFollow;
    var target := LoadVersionTarget(s, id);
    assert s.erased <= db.erased by { ErasedGrows(s, db); }
    ApproverStillLive(s, db, actor, id, expectedQuestion, expected, aggregate, now);
    PublishCommitKeeps(db, actor, id, expectedQuestion, expected, target, aggregate, now);
    PublishFacts(db, actor, id, expectedQuestion, expected, target, aggregate, now);
    PublishReplacesCurrent(db, actor, id, expectedQuestion, expected, target, aggregate, now);
    var q := target.value.version.questionId;
    var previous := PreviousCurrent(target.value, aggregate);
    CurrentIsOf(db, q);
    PublishFollows(db, actor, id, q, previous, if previous.Some? then aggregate[previous.value].rowVersion else 0,
                   expected, expectedQuestion, target.value.approver.value, now);
  }

  lemma CurrentIsOf(db: Db, q: Id)
    requires Inv(db) && q in db.questions
    ensures db.questions[q].current.Some? ==> Of(db.versions, db.questions[q].current.value, q)
  {
    assert QuestionOk(db.versions, q, db.questions[q]);
  }

  lemma RetireStep(db: Db, actor: Id, id: Id, expectedQuestion: nat, expected: nat, target: Option<VersionTarget>,
                   now: Time, next: Db)
    requires Inv(db) && CommitRetire(db, actor, id, expectedQuestion, expected, target, now) == Ok(next)
    ensures Good(db, next)
  {
    hide Inv, Follows, CommitRetire, RetireEffect;
    RetireCommitKeeps(db, actor, id, expectedQuestion, expected, target, now);
    RetireFacts(db, actor, id, expectedQuestion, expected, target, now);
    RetireFollows(db, actor, id, db.versions[id].questionId, expected, expectedQuestion, now);
  }

  lemma ArchiveStep(s: Db, g: Db, db: Db, actor: Id, questionId: Id, request: ArchiveRequest,
                    target: Option<QuestionTarget>, now: Time, next: Db)
    requires Inv(g) && Inv(db) && Follows(s, g) && Follows(g, db) && IsQuestionTarget(s, questionId, target)
    requires CommitArchive(db, actor, questionId, request, target, LoadLifecycleVersions(g, questionId), now)
             == Ok(next)
    ensures Good(db, next)
  {
    hide Inv, Follows, CommitArchive, CandidateExpected, CandidateOf, OpenCandidates, IsQuestionTarget, Archivable,
         ArchiveEffect, AuthorSnapshot;
    StaleArchive(s, g, db, actor, questionId, request, target, now);
    ArchiveCommitKeeps(db, actor, questionId, request, target, now);
    var aggregate := LoadLifecycleVersions(db, questionId);
    ArchiveFacts(db, actor, questionId, request, target, aggregate, now);
    ArchiveWrites(db, actor, questionId, request, target, aggregate, now);
    ArchiveReads(db, questionId, target);
    var current := ArchiveCurrent(target.value, aggregate);
    ArchiveRowsFit(db, questionId, request, current, aggregate);
    ArchiveFollows(db, actor, questionId, request.expected, current, CandidateOf(aggregate), aggregate, now);
  }

  lemma ArchiveReads(db: Db, questionId: Id, target: Option<QuestionTarget>)
    requires Inv(db) && questionId in db.questions && IsQuestionTarget(db, questionId, target)
    ensures QuestionOk(db.versions, questionId, db.questions[questionId])
    ensures target.Some?
    ensures ArchiveCurrent(target.value, LoadLifecycleVersions(db, questionId)) == db.questions[questionId].current
  {
  }

  lemma BatchStep(s: Db, db: Db, actor: Id, items: seq<BatchItem>, now: Time, next: Db)
    requires Inv(db) && Follows(s, db)
    requires CommitReviewBatch(db, actor, items, LoadBatchTargets(s, items), now) == Ok(next)
    ensures Good(db, next)
  {
    hide Inv, Follows, CommitReviewBatch, BatchReady, LoadBatchTargets, BatchEffect;
    StaleBatch(s, db, actor, items, now);
    BatchCommitKeeps(db, actor, items, now);
    var targets := LoadBatchTargets(db, items);
    BatchIsReady(db, actor, items, now);
    BatchWrites(db, actor, items, targets, now);
    BatchEffectFollows(db, actor, items, targets, now, |items|);
    assert items[..|items|] == items;
    AuditFollows(db, BatchEffect(db, actor, items, targets, now), next.audits[|next.audits| - 1]);
  }

  lemma ImportStep(db: Db, actor: Id, items: seq<ImportItem>, validSeen: bool, next: Db)
    requires Inv(db) && CommitImport(db, actor, items, validSeen) == Ok(next)
    ensures Good(db, next)
  {
    hide Inv, Follows, Arm, ImportValid, InsertItems;
    ImportCommitKeeps(db, actor, items, validSeen);
    InsertItemsFollows(db, actor, items, |items|);
    assert items[..|items|] == items;
    AuditFollows(db, InsertItems(db, actor, items),
                 Audit(ImportApply, None, Some(AdminAccount(actor)), None, None, [ImportItems]));
  }

  lemma TriageStep(db: Db, actor: Id, id: Id, expected: nat, target: Option<ReportTarget>, next: Db)
    requires Inv(db) && CommitTriage(db, actor, id, expected, target) == Ok(next)
    ensures Good(db, next)
  {
    hide Inv, Follows, CommitTriage;
    TriageCommitKeeps(db, actor, id, expected, target);
    TriageFacts(db, actor, id, expected, target);
    ReportWriteFollows(db, id, next.reports[id]);
    AuditFollows(db, WithReport(db, id, next.reports[id]), next.audits[|db.audits|]);
  }

  lemma ResolveStep(s: Db, r: Db, db: Db, actor: Id, id: Id, request: ResolveRequest, outer: set<Id>, now: Time,
                    next: Db)
    requires Inv(db) && Follows(s, db) && Follows(r, db)
    requires CommitResolve(db, actor, id, request, outer, LoadReportTarget(s, id), VersionRow(r, request.remediation),
                           now) == Ok(next)
    ensures Good(db, next)
  {
    hide Inv, Follows, CommitResolve, LoadReportTarget;
    StaleResolve(s, r, db, actor, id, request, outer, now);
    assert VersionRow(db, request.remediation) == VersionRow(r, request.remediation);
    ResolveCommitKeeps(db, actor, id, request, outer, now);
    ResolveFacts(db, actor, id, request, outer, LoadReportTarget(db, id), VersionRow(db, request.remediation), now);
    ReportWriteFollows(db, id, next.reports[id]);
    AuditFollows(db, WithReport(db, id, next.reports[id]), next.audits[|db.audits|]);
  }

  // ----- steps outside the admin commands

  /** The content tables are untouched and every user a row needs is still there. */
  lemma UsersStep(db: Db, next: Db)
    requires Inv(db) && next == db.(users := next.users)
    requires db.users.Keys <= next.users.Keys && next.users.Keys !! db.erased
    requires CandidatesLive(next.users, db.versions)
    ensures Good(db, next)
  {
    assert LogOf(next) == LogOf(db) && CatalogOf(next) == CatalogOf(db);
    forall v | v in db.versions ensures CreatorLive(next.users.Keys, db.erased, db.versions[v].creator) {
      assert CreatorLive(db.users.Keys, db.erased, db.versions[v].creator);
    }
    forall q | q in db.questions ensures CreatorLive(next.users.Keys, db.erased, db.questions[q].creator) {
      assert CreatorLive(db.users.Keys, db.erased, db.questions[q].creator);
    }
    forall i | 0 <= i < |db.reviews| ensures ReviewLive(next.users.Keys, db.erased, db.reviews[i]) {
      assert ReviewLive(db.users.Keys, db.erased, db.reviews[i]);
    }
    forall r | r in db.reports ensures ReportLive(next.users.Keys, db.erased, db.reports[r]) {
      assert ReportLive(db.users.Keys, db.erased, db.reports[r]);
    }
  }

  lemma CandidatesStay(db: Db, users: map<Id, User>)
    requires Inv(db)
    requires forall u | u in db.users && OpenVersionsOf(db, u) != {} ::
               u in users && users[u].status == db.users[u].status
    ensures CandidatesLive(users, db.versions)
  {
    hide ContentUnique, ReplaysOk, ReviewsLegal, ReportsOk, AggregatesOk, Complete, ReferencesLive, QuestionsShaped;
    forall v | v in db.versions ensures CandidateLive(users, db.versions[v]) {
      assert CandidateLive(db.users, db.versions[v]) && VersionShape(db.versions[v]);
      if OpenStatus(db.versions[v].status) {
        assert v in OpenVersionsOf(db, db.versions[v].creator.userId.value);
      }
    }
  }
}
