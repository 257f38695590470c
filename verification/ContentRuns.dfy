/**
  * Runs: any interleaving of commands, erasures and account changes, each
  * command planned on any earlier states. The invariant and the order hold
  * throughout.
  */
module ContentRuns {
  import opened Common
  import opened ContentTables
  import opened ContentCommands
  import opened ReviewBatch
  import opened AccountErasure
  import opened ContentInvariant
  import opened ContentOrder
  import opened ContentPreservation
  import opened CommandOrder
  import opened ErasurePreservation
  import opened ErasureOrder
  import opened ReportConcurrency
  import opened ContentEvents
  import opened ContentSteps

  lemma UserStep(db: Db, e: Event, next: Db)
    requires Inv(db) && (e.SignUp? || e.SetRole? || e.RequestErasure?) && Commits([db], e, next)
    ensures Good(db, next)
  {
    hide Inv, Follows, OpenVersionsOf, NewReport, CommitCreateQuestion, CommitCreateVersion, CommitUpdate,
         CommitTransition, CommitPublish, CommitRetire, CommitArchive, CommitReviewBatch, CommitImport, CommitTriage,
         CommitResolve, LoadVersionTarget, IsQuestionTarget, LoadReportTarget, LoadBatchTargets, LoadLifecycleVersions,
         VersionRow, LockOrder, CommitErase;
    assert forall u | u in db.users && OpenVersionsOf(db, u) != {} ::
             u in next.users && next.users[u].status == db.users[u].status;
    CandidatesStay(db, next.users);
    Disjoint(db);
    UsersStep(db, next);
  }

  lemma Disjoint(db: Db)
    requires Inv(db)
    ensures db.users.Keys !! db.erased
  {
  }

  lemma RowStep(db: Db, e: Event, next: Db)
    requires Inv(db) && (e.Pin? || e.SubmitReport? || e.RedactReport?) && Commits([db], e, next)
    ensures Good(db, next)
  {
    hide VersionsShaped, QuestionsShaped, ContentUnique, ReplaysOk, ReviewsLegal, CandidatesLive, AggregatesOk,
         LogFollows, CatalogFollows, VersionsLive, QuestionsLive, ReviewsLive, OpenVersionsOf, CommitCreateQuestion,
         CommitCreateVersion, CommitUpdate, CommitTransition, CommitPublish, CommitRetire, CommitArchive,
         CommitReviewBatch, CommitImport, CommitTriage, CommitResolve, LoadVersionTarget, IsQuestionTarget,
         LoadReportTarget, LoadBatchTargets, LoadLifecycleVersions, VersionRow, LockOrder, CommitErase;
    match e {
      case Pin(id) => FollowsSelf(db);
      case SubmitReport(id, report) =>
        ReportKeeps(db, id, report);
        ReportWriteFollows(db, id, report);
      case RedactReport(id) =>
        ReportRow(db, id);
        ReportKeeps(db, id, next.reports[id]);
        ReportWriteFollows(db, id, next.reports[id]);
    }
  }

  lemma ReportRow(db: Db, id: Id)
    requires Inv(db) && id in db.reports
    ensures ReportOk(db.versions, db.reports[id]) && ReportLive(db.users.Keys, db.erased, db.reports[id])
  {
    hide VersionsShaped, QuestionsShaped, ContentUnique, ReplaysOk, ReviewsLegal, CandidatesLive, AggregatesOk,
         VersionsLive, QuestionsLive, ReviewsLive;
  }

  lemma EraseStep(db: Db, user: Id, order: seq<Id>, now: Time, next: Db)
    requires Inv(db) && LockOrder(db, order, user) && CommitErase(db, user, order, now) == Some(next)
    ensures Good(db, next)
  {
    hide Inv, Follows, LockOrder;
    EraseKeeps(db, user, order, now);
    EraseFollows(db, user, order, now);
  }

  /** Any committed transaction keeps the state sound and moves it forward. */
  lemma StepIsGood(h: seq<Db>, e: Event, next: Db)
    requires History(h) && Commits(h, e, next)
    ensures Good(h[|h| - 1], next)
  {
    hide Inv, Follows, Good, LoadVersionTarget, IsQuestionTarget, LoadReportTarget, LoadBatchTargets,
         LoadLifecycleVersions, VersionRow, LockOrder, CommitErase, OpenVersionsOf, NewReport, CommitCreateQuestion,
         CommitCreateVersion, CommitUpdate, CommitTransition, CommitPublish, CommitRetire, CommitArchive,
         CommitReviewBatch, CommitImport, CommitTriage, CommitResolve;
    var db := h[|h| - 1];
    match e {
      case CreateQuestion(actor, questionId, versionId, content, seen) =>
        CreateQuestionStep(db, actor, questionId, versionId, content, seen, next);
      case CreateVersion(actor, questionId, versionId, expected, content, target, seen, targetAt) =>
        CreateVersionStep(h[targetAt], db, actor, questionId, versionId, expected, content, target, seen, next);
      case Update(actor, id, expected, content, seen, targetAt, optionsAt, tagsAt) =>
        UpdateStep(db, actor, id, expected, content, LoadVersionTarget(h[targetAt], id),
                   OptionsRead(h[optionsAt], id), TagsRead(h[tagsAt], id), seen, next);
      case Transition(operation, actor, id, request, targetAt, now) =>
        TransitionStep(h[targetAt], db, operation, actor, id, request, now, next);
      case Publish(actor, id, expectedQuestion, expected, targetAt, aggregateAt, now) =>
        PublishStep(h[targetAt], db, actor, id, expectedQuestion, expected,
                    AggregateRead(h[aggregateAt], LoadVersionTarget(h[targetAt], id)), now, next);
      case Retire(actor, id, expectedQuestion, expected, targetAt, now) =>
        RetireStep(db, actor, id, expectedQuestion, expected, LoadVersionTarget(h[targetAt], id), now, next);
      case Archive(actor, questionId, archival, target, targetAt, aggregateAt, now) =>
        ArchiveStep(h[targetAt], h[aggregateAt], db, actor, questionId, archival, target, now, next);
      case RequestBatch(actor, items, targetAt, now) =>
        BatchStep(h[targetAt], db, actor, items, now, next);
      case Import(actor, imported, validSeen) =>
        ImportStep(db, actor, imported, validSeen, next);
      case Triage(actor, id, expected, targetAt) =>
        TriageStep(db, actor, id, expected, LoadReportTarget(h[targetAt], id), next);
      case Resolve(actor, id, resolution, outer, targetAt, remediationAt, now) =>
        ResolveStep(h[targetAt], h[remediationAt], db, actor, id, resolution, outer, now, next);
      case Erase(user, order, now) =>
        EraseStep(db, user, order, now, next);
      case SignUp(_) => UserStep(db, e, next);
      case SetRole(_, _) => UserStep(db, e, next);
      case RequestErasure(_) => UserStep(db, e, next);
      case Pin(_) => RowStep(db, e, next);
      case SubmitReport(_, _) => RowStep(db, e, next);
      case RedactReport(_) => RowStep(db, e, next);
    }
  }

  lemma HistoryGrows(h: seq<Db>, e: Event, next: Db)
    requires History(h) && Commits(h, e, next)
    ensures History(h + [next])
  {
    hide Inv, Follows, Commits, Good;
    StepIsGood(h, e, next);
    var db := h[|h| - 1];
    assert Inv(next) && Follows(db, next) by { GoodIs(db, next); }
    FollowsSelf(next);
    forall i | 0 <= i < |h| ensures Follows(h[i], next) {
      FollowsTwo(h[i], db, next);
    }
    var after := h + [next];
    forall i, j | 0 <= i <= j < |after| ensures Follows(after[i], after[j]) {
    }
  }

  lemma GoodIs(db: Db, next: Db)
    requires Good(db, next)
    ensures Inv(next) && Follows(db, next)
  {
  }

  // ----- the first state

  /** A seeded catalogue: one published version for each question, and nothing else. */
  ghost predicate Seeded(db: Db) {
    && db.reviews == [] && db.audits == [] && db.reports == map[] && db.erased == {} && db.pinned == {}
    && VersionsShaped(db.versions)
    && ContentUnique(db.versions)
    && (forall v | v in db.versions ::
          && db.versions[v].creator == Creator(None, None, SystemSeed)
          && db.versions[v].status == Published && db.versions[v].number == 1 && db.versions[v].rowVersion == 1
          && db.versions[v].questionId in db.questions
          && db.questions[db.versions[v].questionId].current == Some(v))
    && (forall q | q in db.questions ::
          && db.questions[q].creator == Creator(None, None, SystemSeed)
          && db.questions[q].lifecycle == Active && db.questions[q].rowVersion > 0
          && db.questions[q].current.Some?
          && Of(db.versions, db.questions[q].current.value, q))
  }

  lemma SeededQuestion(db: Db, q: Id)
    requires Seeded(db) && q in db.questions
    ensures QuestionOk(db.versions, q, db.questions[q])
  {
    hide VersionsShaped, ContentUnique;
    var c := db.questions[q].current.value;
    forall v | Of(db.versions, v, q) ensures v == c {
    }
    assert Numbered(db.versions, q, 1);
  }

  lemma SeededIsSound(db: Db)
    requires Seeded(db)
    ensures Inv(db)
  {
    hide ContentUnique, VersionsShaped, QuestionOk;
    forall q | q in db.questions ensures QuestionOk(db.versions, q, db.questions[q]) {
      SeededQuestion(db, q);
    }
  }

  // ----- runs

  /** h[k + 1] is what the k-th event committed after h[..k + 1]. */
  ghost predicate Run(h: seq<Db>, events: seq<Event>) {
    && |h| == |events| + 1
    && Seeded(h[0])
    && forall k {:trigger Stepped(h, events, k)} | 0 <= k < |events| :: Stepped(h, events, k)
  }

  ghost predicate Stepped(h: seq<Db>, events: seq<Event>, k: nat)
    requires |h| == |events| + 1 && k < |events|
  {
    Commits(h[..k + 1], events[k], h[k + 1])
  }

  lemma {:induction false} RunHistory(h: seq<Db>, events: seq<Event>, k: nat)
    requires Run(h, events) && k <= |events|
    ensures History(h[..k + 1])
    decreases k
  {
    hide Inv, Follows, Commits, Seeded;
    if k == 0 {
      SeededIsSound(h[0]);
      FollowsSelf(h[0]);
    } else {
      RunHistory(h, events, k - 1);
      assert Stepped(h, events, k - 1);
      HistoryGrows(h[..k], events[k - 1], h[k]);
      assert h[..k + 1] == h[..k] + [h[k]];
    }
  }

  /** Every state of every run is sound, and later states follow earlier ones. */
  lemma RunIsSound(h: seq<Db>, events: seq<Event>)
    requires Run(h, events)
    ensures History(h)
  {
    hide Inv, Follows, Stepped;
    RunHistory(h, events, |events|);
    assert h[..|events| + 1] == h;
  }
}
