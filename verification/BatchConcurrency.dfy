/** Batch review requests planned on earlier rows. */
module BatchConcurrency {
  import opened Common
  import opened ContentTables
  import opened ContentArm
  import opened ContentCommands
  import opened ReviewBatch
  import opened ContentInvariant
  import opened ContentOrder
  import opened ContentPreservation
  import opened CommandPreservation
  import opened ContentConcurrency

  /** What a committed batch rests on: every item passed and every row of it was armed. */
  lemma BatchFacts(db: Db, actor: Id, items: seq<BatchItem>, targets: map<Id, BatchTarget>, now: Time)
    requires CommitReviewBatch(db, actor, items, targets, now).Ok?
    ensures FirstFailure(items, targets, actor).None? && DistinctIds(items)
    ensures var armed := ArmedTargets(items, |items|, targets);
            Arm(db, Operation(actor, ReviewRequestBatch, {actor} + BatchUsers(armed)), BatchManifest(armed)).None?
    ensures HasAuthority(db, actor)
    ensures forall i | 0 <= i < |items| :: RequestAuthor(db, items[i].versionId, actor)
  {
    hide Arm, BatchManifest, BatchUsers, ArmedTargets;
    assert items[..|items|] == items;
  }

  lemma BatchWrites(db: Db, actor: Id, items: seq<BatchItem>, targets: map<Id, BatchTarget>, now: Time)
    requires CommitReviewBatch(db, actor, items, targets, now).Ok?
    ensures forall i | 0 <= i < |items| :: items[i].versionId in db.versions && items[i].versionId in targets
    ensures CommitReviewBatch(db, actor, items, targets, now).value ==
            WithAudit(BatchEffect(db, actor, items, targets, now),
                      Audit(ReviewRequestBatch, None, Some(AdminAccount(actor)), None, None, [VersionStatus]))
  {
    hide Arm, BatchManifest, BatchUsers, ArmedTargets;
    FailureFree(items, targets, actor);
  }

  /** All targets of one question were read with one row of it. */
  lemma QuestionItemRead(s: Db, items: seq<BatchItem>, n: nat, v: Id)
    requires n <= |items|
    requires v in ArmedTargets(items, n, LoadBatchTargets(s, items))
    ensures v in s.versions && s.versions[v].questionId in s.questions
    ensures var armed := ArmedTargets(items, n, LoadBatchTargets(s, items));
            var q := s.versions[v].questionId;
            QuestionOf(armed, q) == QuestionItem(s.questions[q].rowVersion, s.questions[q].lifecycle)
  {
    var armed := ArmedTargets(items, n, LoadBatchTargets(s, items));
    var q := s.versions[v].questionId;
    var item := QuestionItem(s.questions[q].rowVersion, s.questions[q].lifecycle);
    var rows := set w | w in armed && armed[w].version.questionId == q
                  :: QuestionItem(armed[w].question.rowVersion, armed[w].question.lifecycle);
    assert rows == {item} by {
      assert armed[v].version.questionId == q;
      assert item in rows;
    }
  }

  /** Every armed target is the row and the question at commit. */
  lemma StaleBatchTarget(s: Db, db: Db, op: Operation, items: seq<BatchItem>, n: nat, v: Id)
    requires Follows(s, db) && n <= |items|
    requires v in ArmedTargets(items, n, LoadBatchTargets(s, items))
    requires Arm(db, op, BatchManifest(ArmedTargets(items, n, LoadBatchTargets(s, items)))).None?
    ensures v in db.versions && db.versions[v].questionId in db.questions
    ensures LoadBatchTargets(s, items)[v] == BatchTarget(db.versions[v], db.questions[db.versions[v].questionId])
  {
    hide Arm, Follows, QuestionOf;
    var armed := ArmedTargets(items, n, LoadBatchTargets(s, items));
    var m := BatchManifest(armed);
    var q := armed[v].version.questionId;
    QuestionItemRead(s, items, n, v);
    assert q in (set w | w in armed :: armed[w].version.questionId);
    ArmedVersion(db, op, m, v);
    ArmedQuestion(db, op, m, q);
    SameVersionRow(s, db, v, s.versions[v]);
    SameQuestionRow(s, db, q);
  }

  /** A batch that commits on earlier rows read exactly the rows of its own database. */
  lemma StaleBatch(s: Db, db: Db, actor: Id, items: seq<BatchItem>, now: Time)
    requires Follows(s, db)
    requires CommitReviewBatch(db, actor, items, LoadBatchTargets(s, items), now).Ok?
    ensures LoadBatchTargets(db, items) == LoadBatchTargets(s, items)
  {
    hide CommitReviewBatch, Follows, Arm, BatchManifest, BatchUsers;
    var targets := LoadBatchTargets(s, items);
    BatchFacts(db, actor, items, targets, now);
    FailureFree(items, targets, actor);
    var armed := ArmedTargets(items, |items|, targets);
    var op := Operation(actor, ReviewRequestBatch, {actor} + BatchUsers(armed));
    forall v | v in targets
      ensures v in LoadBatchTargets(db, items) && LoadBatchTargets(db, items)[v] == targets[v]
    {
      assert v in armed;
      StaleBatchTarget(s, db, op, items, |items|, v);
    }
    forall v | v in LoadBatchTargets(db, items) ensures v in targets {
      var i :| 0 <= i < |items| && items[i].versionId == v;
      assert ItemFailure(items[i], targets, actor).None?;
    }
  }

  /** A batch planned on the rows of its own database finds every item ready. */
  lemma BatchIsReady(db: Db, actor: Id, items: seq<BatchItem>, now: Time)
    requires CommitReviewBatch(db, actor, items, LoadBatchTargets(db, items), now).Ok?
    ensures BatchReady(db, actor, items, LoadBatchTargets(db, items)) && HasAuthority(db, actor)
  {
    hide CommitReviewBatch, Arm, BatchManifest, BatchUsers, ArmedTargets;
    var targets := LoadBatchTargets(db, items);
    BatchFacts(db, actor, items, targets, now);
    FailureFree(items, targets, actor);
    forall i | 0 <= i < |items|
      ensures items[i].versionId in db.versions && items[i].versionId in targets
      ensures targets[items[i].versionId].version == db.versions[items[i].versionId]
      ensures Editable(db.versions[items[i].versionId].status)
      ensures db.versions[items[i].versionId].creator.userId == Some(actor)
    {
      assert ItemFailure(items[i], targets, actor).None?;
    }
  }

  lemma BatchCommitKeeps(db: Db, actor: Id, items: seq<BatchItem>, now: Time)
    requires Inv(db)
    ensures var r := CommitReviewBatch(db, actor, items, LoadBatchTargets(db, items), now);
            r.Ok? ==> Inv(r.value)
  {
    hide CommitReviewBatch, Inv, BatchReady, LoadBatchTargets, BatchEffect;
    var targets := LoadBatchTargets(db, items);
    if CommitReviewBatch(db, actor, items, targets, now).Ok? {
      BatchIsReady(db, actor, items, now);
      BatchWrites(db, actor, items, targets, now);
      BatchEffectKeeps(db, actor, items, targets, now, |items|);
      assert items[..|items|] == items;
      InvAudit(BatchEffect(db, actor, items, targets, now),
               Audit(ReviewRequestBatch, None, Some(AdminAccount(actor)), None, None, [VersionStatus]));
    }
  }
}
