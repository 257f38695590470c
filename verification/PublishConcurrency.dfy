/**
  * Publish, retire and archive planned on earlier rows. A publication reads its
  * target and the aggregate in two queries and never compares the two; it is
  * atomic exactly when both saw the same row version of the target.
  */
module PublishConcurrency {
  import opened Common
  import opened ContentTables
  import opened ContentArm
  import opened ContentCommands
  import opened ContentInvariant
  import opened ContentOrder
  import opened ErasureOrder
  import opened CommandPreservation
  import opened ContentConcurrency

  /** The aggregate read earlier is the aggregate now, once every row of it is armed. */
  lemma StaleAggregate(s: Db, db: Db, q: Id)
    requires Follows(s, db) && q in s.questions && q in db.questions
    requires db.questions[q].rowVersion == s.questions[q].rowVersion
    requires Housed(s.versions, s.questions.Keys) && AggregatesOk(s.questions, s.versions)
    requires forall v | v in LoadLifecycleVersions(s, q) ::
               v in db.versions && db.versions[v].rowVersion == s.versions[v].rowVersion
               && db.versions[v].status == s.versions[v].status
    ensures LoadLifecycleVersions(s, q) == LoadLifecycleVersions(db, q)
  {
    hide Follows;
    var was, now := LoadLifecycleVersions(s, q), LoadLifecycleVersions(db, q);
    SameQuestionRow(s, db, q);
    forall v | v in was ensures v in now && now[v] == was[v] {
      assert Of(s.versions, v, q);
      SameVersionRow(s, db, v, s.versions[v]);
    }
    forall v | v in now ensures v in was {
      assert Of(db.versions, v, q);
      assert OpenStatus(db.versions[v].status) ==> OpenOf(db.versions, v, q);
      assert OpenOf(s.versions, v, q) ==> OpenStatus(s.versions[v].status);
    }
  }

  /** A publication looks at everything of its target but the pin. */
  lemma PublishIgnoresPin(db: Db, actor: Id, id: Id, expectedQuestion: nat, expected: nat,
                          a: VersionTarget, b: VersionTarget, aggregate: map<Id, Version>, now: Time)
    requires a.version == b.version && a.question == b.question && a.approver == b.approver
    ensures CommitPublish(db, actor, id, expectedQuestion, expected, Some(a), aggregate, now)
         == CommitPublish(db, actor, id, expectedQuestion, expected, Some(b), aggregate, now)
  {
    hide Arm, CrossQuestionDuplicate, FingerprintOf, PublishEffect, CreatorUsers, Items;
    assert PublishManifest(a, aggregate) == PublishManifest(b, aggregate);
    assert PublishReferenced(actor, Some(a), aggregate) == PublishReferenced(actor, Some(b), aggregate);
    assert PublishRowsOk(id, a, aggregate) == PublishRowsOk(id, b, aggregate);
    assert PreviousCurrent(a, aggregate) == PreviousCurrent(b, aggregate);
  }

  /** The rows of the publication still stand: the question, the aggregate, and the target if the reads agree. */
  lemma StalePublishRows(s: Db, g: Db, db: Db, actor: Id, id: Id, expectedQuestion: nat, expected: nat, now: Time)
    requires Inv(s) && Inv(g) && Inv(db) && Follows(s, g) && Follows(g, db)
    requires id in s.versions
    requires CommitPublish(db, actor, id, expectedQuestion, expected, LoadVersionTarget(s, id),
                           LoadLifecycleVersions(g, s.versions[id].questionId), now).Ok?
    ensures id in db.versions && db.versions[id].questionId == s.versions[id].questionId
    ensures var q := s.versions[id].questionId;
            && q in s.questions && q in db.questions && db.questions[q] == s.questions[q]
            && LoadLifecycleVersions(g, q) == LoadLifecycleVersions(db, q)
            && id in LoadLifecycleVersions(g, q)
            && LoadLifecycleVersions(g, q)[id] == db.versions[id]
  {
    hide CommitPublish, Follows, VersionsShaped, ContentUnique, ReplaysOk, ReviewsLegal, ReferencesLive,
         CandidatesLive, ReportsOk;
    var q := s.versions[id].questionId;
    var aggregate := LoadLifecycleVersions(g, q);
    PublishFacts(db, actor, id, expectedQuestion, expected, LoadVersionTarget(s, id), aggregate, now);
    FollowsTwo(s, g, db);
    SameQuestionRow(s, db, q);
    QuestionBetween(s, g, db, q);
    StaleAggregate(g, db, q);
  }

  lemma QuestionBetween(s: Db, g: Db, db: Db, q: Id)
    requires Follows(s, g) && Follows(g, db) && q in s.questions && q in db.questions
             && s.questions[q] == db.questions[q]
    ensures q in g.questions && g.questions[q] == db.questions[q]
  {
    assert QuestionFollows(CatalogOf(s), CatalogOf(g), q) && QuestionFollows(CatalogOf(g), CatalogOf(db), q);
  }

  /** Reads that agree on the target make a stale publication an atomic one. */
  lemma CoherentPublish(s: Db, g: Db, db: Db, actor: Id, id: Id, expectedQuestion: nat, expected: nat, now: Time)
    requires Inv(s) && Inv(g) && Inv(db) && Follows(s, g) && Follows(g, db)
    requires id in s.versions
    requires CommitPublish(db, actor, id, expectedQuestion, expected, LoadVersionTarget(s, id),
                           LoadLifecycleVersions(g, s.versions[id].questionId), now).Ok?
    requires id in g.versions && g.versions[id].rowVersion == s.versions[id].rowVersion
    ensures CommitPublish(db, actor, id, expectedQuestion, expected, LoadVersionTarget(db, id),
                          LoadLifecycleVersions(db, s.versions[id].questionId), now)
         == CommitPublish(db, actor, id, expectedQuestion, expected, LoadVersionTarget(s, id),
                          LoadLifecycleVersions(g, s.versions[id].questionId), now)
  {
    hide CommitPublish, Follows, Inv;
    var q := s.versions[id].questionId;
    var aggregate := LoadLifecycleVersions(g, q);
    StalePublishRows(s, g, db, actor, id, expectedQuestion, expected, now);
    var t, latest := LoadVersionTarget(s, id).value, LoadVersionTarget(db, id).value;
    FollowsTwo(s, g, db);
    ApprovedStatus(db, actor, id, expectedQuestion, expected, LoadVersionTarget(s, id), aggregate, now);
    SameVersionRow(s, db, id, t.version);
    LiveApproverKept(s, db, id);
    PublishIgnoresPin(db, actor, id, expectedQuestion, expected, t, latest, aggregate, now);
  }

  lemma ApprovedStatus(db: Db, actor: Id, id: Id, expectedQuestion: nat, expected: nat,
                       target: Option<VersionTarget>, aggregate: map<Id, Version>, now: Time)
    requires CommitPublish(db, actor, id, expectedQuestion, expected, target, aggregate, now).Ok?
    ensures target.Some? && target.value.version.status == Approved && target.value.approver.Some?
    ensures target.value.version.rowVersion == expected
    ensures id in db.versions && db.versions[id].status == Approved
    ensures target.value.approver.value.userId.Some? ==> target.value.approver.value.userId.value in db.users
  {
    hide Arm, CrossQuestionDuplicate, FingerprintOf, Items, CreatorUsers, PublishEffect;
    PublishFacts(db, actor, id, expectedQuestion, expected, target, aggregate, now);
  }

  /**
    * A publication that commits on earlier rows is the atomic publication
    * exactly when the aggregate it read holds the row version of the target it
    * read. Nothing in the program makes that comparison.
    */
  lemma StalePublish(s: Db, g: Db, db: Db, actor: Id, id: Id, expectedQuestion: nat, expected: nat, now: Time)
    requires Inv(s) && Inv(g) && Inv(db) && Follows(s, g) && Follows(g, db)
    requires id in s.versions
    requires CommitPublish(db, actor, id, expectedQuestion, expected, LoadVersionTarget(s, id),
                           LoadLifecycleVersions(g, s.versions[id].questionId), now).Ok?
    ensures id in g.versions
    ensures (CommitPublish(db, actor, id, expectedQuestion, expected, LoadVersionTarget(db, id),
                           LoadLifecycleVersions(db, s.versions[id].questionId), now)
          == CommitPublish(db, actor, id, expectedQuestion, expected, LoadVersionTarget(s, id),
                           LoadLifecycleVersions(g, s.versions[id].questionId), now))
       <==> g.versions[id].rowVersion == s.versions[id].rowVersion
  {
    hide CommitPublish, Follows, Inv;
    var q := s.versions[id].questionId;
    var aggregate := LoadLifecycleVersions(g, q);
    StalePublishRows(s, g, db, actor, id, expectedQuestion, expected, now);
    ApprovedStatus(db, actor, id, expectedQuestion, expected, LoadVersionTarget(s, id), aggregate, now);
    if g.versions[id].rowVersion == s.versions[id].rowVersion {
      CoherentPublish(s, g, db, actor, id, expectedQuestion, expected, now);
    } else if CommitPublish(db, actor, id, expectedQuestion, expected, LoadVersionTarget(db, id),
                            LoadLifecycleVersions(db, q), now).Ok? {
      ApprovedStatus(db, actor, id, expectedQuestion, expected, LoadVersionTarget(db, id),
                     LoadLifecycleVersions(db, q), now);
      assert false;
    }
  }

  /** The review of a publication names the approver of the target it read. */
  lemma NamesApproverRead(db: Db, actor: Id, id: Id, expectedQuestion: nat, expected: nat,
                          target: Option<VersionTarget>, aggregate: map<Id, Version>, now: Time)
    requires CommitPublish(db, actor, id, expectedQuestion, expected, target, aggregate, now).Ok?
    ensures target.Some?
    ensures var reviews :=
              CommitPublish(db, actor, id, expectedQuestion, expected, target, aggregate, now).value.reviews;
            && |reviews| > 0
            && reviews[|reviews| - 1].versionId == id
            && reviews[|reviews| - 1].action == PublishedVersion
            && reviews[|reviews| - 1].counterpart == target.value.approver
  {
    hide Arm, CrossQuestionDuplicate, FingerprintOf, Items, CreatorUsers;
    PublishFacts(db, actor, id, expectedQuestion, expected, target, aggregate, now);
  }

  /** The last review of a list is the publication of a version and names an approver. */
  ghost predicate PublicationNames(reviews: seq<Review>, id: Id, approver: Option<Account>) {
    && |reviews| > 0
    && reviews[|reviews| - 1].versionId == id
    && reviews[|reviews| - 1].action == PublishedVersion
    && reviews[|reviews| - 1].counterpart == approver
  }

  /** Erasure may come between two reads of an approver; a live account shows that it did not. */
  lemma ApproverBetween(s: Db, g: Db, db: Db, a: Option<Account>, b: Option<Account>, c: Option<Account>)
    requires s.erased <= g.erased && g.users.Keys !! g.erased && db.users.Keys !! db.erased
    requires OptionalLive(s.users.Keys, s.erased, a) && OptionalLive(g.users.Keys, g.erased, b)
    requires a.Some? && a.value.userId.Some? ==> a.value.userId.value in db.users
    requires SameOrErased(b, c, db.erased)
    ensures a == c <==> a == b
  {
  }

  /** The accounts of the reviews of a sound state are live or erased. */
  lemma LatestIsLive(db: Db, id: Id)
    requires Inv(db)
    ensures OptionalLive(db.users.Keys, db.erased, LatestApprover(db.reviews, id)) && db.users.Keys !! db.erased
  {
    hide LatestApprover, VersionsShaped, QuestionsShaped, CandidatesLive, ReviewsLegal, ReplaysOk, ReportsOk,
         ContentUnique, AggregatesOk;
    ApproverLive(db.users.Keys, db.erased, db.reviews, id);
  }

  /**
    * The review of a committed publication names the approver that the target
    * read saw. That is the latest approver of the database exactly when the
    * latest approver was the same at both reads. The row versions need not agree
    * for that: one administrator may approve twice.
    */
  lemma PublishNamesLatestExactly(s: Db, g: Db, db: Db, actor: Id, id: Id, expectedQuestion: nat, expected: nat,
                                  now: Time)
    requires Inv(s) && Inv(g) && Inv(db) && Follows(s, g) && Follows(g, db)
    requires id in s.versions
    requires CommitPublish(db, actor, id, expectedQuestion, expected, LoadVersionTarget(s, id),
                           LoadLifecycleVersions(g, s.versions[id].questionId), now).Ok?
    ensures var reviews := CommitPublish(db, actor, id, expectedQuestion, expected, LoadVersionTarget(s, id),
                                         LoadLifecycleVersions(g, s.versions[id].questionId), now).value.reviews;
            && PublicationNames(reviews, id, LatestApprover(s.reviews, id))
            && (PublicationNames(reviews, id, LatestApprover(db.reviews, id)) <==>
                  LatestApprover(g.reviews, id) == LatestApprover(s.reviews, id))
  {
    hide CommitPublish, Follows, Inv, LatestApprover;
    var aggregate := LoadLifecycleVersions(g, s.versions[id].questionId);
    NamesApproverRead(db, actor, id, expectedQuestion, expected, LoadVersionTarget(s, id), aggregate, now);
    ApprovedStatus(db, actor, id, expectedQuestion, expected, LoadVersionTarget(s, id), aggregate, now);
    StalePublishRows(s, g, db, actor, id, expectedQuestion, expected, now);
    SameVersionRow(g, db, id, db.versions[id]);
    LatestIsLive(s, id);
    LatestIsLive(g, id);
    LatestIsLive(db, id);
    ErasedGrows(s, g);
    ApproverBetween(s, g, db, LatestApprover(s.reviews, id), LatestApprover(g.reviews, id),
                    LatestApprover(db.reviews, id));
  }

  lemma ErasedGrows(s: Db, db: Db)
    requires Follows(s, db)
    ensures s.erased <= db.erased
  {
  }

  /** Reads that agree on the row version of the target agree on its approver. */
  lemma CoherentPublishNamesLatest(s: Db, g: Db, db: Db, actor: Id, id: Id, expectedQuestion: nat, expected: nat,
                                   now: Time)
    requires Inv(s) && Inv(g) && Inv(db) && Follows(s, g) && Follows(g, db)
    requires id in s.versions
    requires CommitPublish(db, actor, id, expectedQuestion, expected, LoadVersionTarget(s, id),
                           LoadLifecycleVersions(g, s.versions[id].questionId), now).Ok?
    requires id in g.versions && g.versions[id].rowVersion == s.versions[id].rowVersion
    ensures LatestApprover(g.reviews, id) == LatestApprover(s.reviews, id)
    ensures PublicationNames(CommitPublish(db, actor, id, expectedQuestion, expected, LoadVersionTarget(s, id),
                                           LoadLifecycleVersions(g, s.versions[id].questionId), now).value.reviews,
                             id, LatestApprover(db.reviews, id))
  {
    hide CommitPublish, Follows, Inv, LatestApprover;
    var aggregate := LoadLifecycleVersions(g, s.versions[id].questionId);
    CoherentPublish(s, g, db, actor, id, expectedQuestion, expected, now);
    NamesApproverRead(db, actor, id, expectedQuestion, expected, LoadVersionTarget(s, id), aggregate, now);
    NamesApproverRead(db, actor, id, expectedQuestion, expected, LoadVersionTarget(db, id),
                      LoadLifecycleVersions(db, s.versions[id].questionId), now);
    PublishNamesLatestExactly(s, g, db, actor, id, expectedQuestion, expected, now);
  }

  // ----- retire, archive

  lemma RetireLooksAt(db: Db, actor: Id, id: Id, expectedQuestion: nat, expected: nat, a: VersionTarget,
                      b: VersionTarget, now: Time)
    requires a.version == b.version && a.question == b.question
    ensures CommitRetire(db, actor, id, expectedQuestion, expected, Some(a), now)
         == CommitRetire(db, actor, id, expectedQuestion, expected, Some(b), now)
  {
    hide Arm, RetireEffect;
    assert SingleVersionManifest(id, a) == SingleVersionManifest(id, b);
  }

  lemma StaleRetire(s: Db, db: Db, actor: Id, id: Id, expectedQuestion: nat, expected: nat, now: Time)
    requires Follows(s, db)
    requires CommitRetire(db, actor, id, expectedQuestion, expected, LoadVersionTarget(s, id), now).Ok?
    ensures CommitRetire(db, actor, id, expectedQuestion, expected, LoadVersionTarget(db, id), now)
         == CommitRetire(db, actor, id, expectedQuestion, expected, LoadVersionTarget(s, id), now)
  {
    hide CommitRetire, Follows;
    RetireFacts(db, actor, id, expectedQuestion, expected, LoadVersionTarget(s, id), now);
    var t := LoadVersionTarget(s, id).value;
    SameVersionRow(s, db, id, t.version);
    SameQuestionRow(s, db, t.version.questionId);
    RetireLooksAt(db, actor, id, expectedQuestion, expected, t, LoadVersionTarget(db, id).value, now);
  }

  /** The question and the aggregate of an archive may come from two states; arming compares every row of both. */
  lemma StaleArchive(s: Db, g: Db, db: Db, actor: Id, questionId: Id, request: ArchiveRequest,
                     target: Option<QuestionTarget>, now: Time)
    requires Inv(g) && Follows(s, g) && Follows(g, db) && IsQuestionTarget(s, questionId, target)
    requires CommitArchive(db, actor, questionId, request, target, LoadLifecycleVersions(g, questionId), now).Ok?
    ensures IsQuestionTarget(db, questionId, target)
    ensures LoadLifecycleVersions(g, questionId) == LoadLifecycleVersions(db, questionId)
  {
    hide CommitArchive, Follows, CandidateExpected, VersionsShaped, ContentUnique, ReplaysOk, ReviewsLegal,
         ReferencesLive, CandidatesLive, ReportsOk;
    ArchiveFacts(db, actor, questionId, request, target, LoadLifecycleVersions(g, questionId), now);
    FollowsTwo(s, g, db);
    StaleQuestionTarget(s, db, questionId, target);
    QuestionBetween(s, g, db, questionId);
    StaleAggregate(g, db, questionId);
  }
}
