/** What an import and a batch of review requests answer on current rows. */
module ImportAnswers {
  import opened Common
  import opened ContentTables
  import opened ContentArm
  import opened ContentCommands
  import opened ReviewBatch
  import opened ContentInvariant
  import opened BatchPlanning
  import opened ContentMeaning
  import opened LifecycleAnswers
  import opened ContentAnswers

  // ----- import

  /** Each item is whole, with known tags, and the same as no stored version and no other item. */
  ghost predicate Importable(db: Db, items: seq<ImportItem>) {
    && (forall i | 0 <= i < |items| ::
          && Whole(items[i].content) && items[i].content.tags <= db.tags
          && forall v | v in db.versions :: !SameContent(db.versions[v].content, items[i].content))
    && forall i, j | 0 <= i < j < |items| :: !SameContent(items[i].content, items[j].content)
  }

  lemma ValidIsImportable(db: Db, items: seq<ImportItem>)
    ensures ImportValid(db, items) <==> Importable(db, items)
  {
    hide Whole, SameContent, Complete, FingerprintOf;
    forall i | 0 <= i < |items| ensures Complete(items[i].content) <==> Whole(items[i].content) {
      CompleteIsWhole(items[i].content);
    }
    forall i, v | 0 <= i < |items| && v in db.versions
      ensures FingerprintOf(db.versions[v].content) == FingerprintOf(items[i].content)
         <==> SameContent(db.versions[v].content, items[i].content)
    {
      FingerprintIdentifies(db.versions[v].content, items[i].content);
    }
    forall i, j | 0 <= i < j < |items|
      ensures FingerprintOf(items[i].content) == FingerprintOf(items[j].content)
         <==> SameContent(items[i].content, items[j].content)
    {
      FingerprintIdentifies(items[i].content, items[j].content);
    }
  }

  function CreationAudit(actor: Id, item: ImportItem): Audit {
    Audit(QuestionCreate, Some(item.questionId), Actor(actor), None, Some(1), [LifecycleStatus] + CREATED_FIELDS)
  }

  ghost predicate QuestionsInserted(db: Db, after: Db, actor: Id, items: seq<ImportItem>) {
    && (forall q | q in db.questions :: q in after.questions && after.questions[q] == db.questions[q])
    && (forall i | 0 <= i < |items| ::
          && items[i].questionId in after.questions
          && after.questions[items[i].questionId]
             == Question(Active, None, Creator(Some(actor), Some(actor), ActiveAdmin), 1))
    && (forall q | q in after.questions ::
          q in db.questions || exists i :: 0 <= i < |items| && items[i].questionId == q)
  }

  ghost predicate VersionsInserted(db: Db, after: Db, actor: Id, items: seq<ImportItem>) {
    && (forall v | v in db.versions :: v in after.versions && after.versions[v] == db.versions[v])
    && (forall i | 0 <= i < |items| ::
          && items[i].versionId in after.versions
          && after.versions[items[i].versionId] == Drafted(actor, items[i].questionId, 1, items[i].content))
    && (forall v | v in after.versions :: v in db.versions || exists i :: 0 <= i < |items| && items[i].versionId == v)
  }

  ghost predicate CreationsAudited(db: Db, after: Db, actor: Id, items: seq<ImportItem>) {
    && |after.audits| == |db.audits| + |items| && after.audits[..|db.audits|] == db.audits
    && forall i | 0 <= i < |items| :: after.audits[|db.audits| + i] == CreationAudit(actor, items[i])
  }

  /** One new question with its first draft and one audit row for each item; the rows before stay. */
  ghost predicate ItemsInserted(db: Db, after: Db, actor: Id, items: seq<ImportItem>) {
    && after == db.(questions := after.questions, versions := after.versions, audits := after.audits)
    && QuestionsInserted(db, after, actor, items)
    && VersionsInserted(db, after, actor, items)
    && CreationsAudited(db, after, actor, items)
  }

  lemma OneMoreQuestion(db: Db, before: Db, after: Db, actor: Id, items: seq<ImportItem>)
    requires |items| > 0 && FreshKeys(db, items) && DistinctKeys(items)
    requires QuestionsInserted(db, before, actor, items[..|items| - 1])
    requires var last := items[|items| - 1];
             QuestionCreated(before, after, actor, last.questionId, last.versionId, last.content)
    ensures QuestionsInserted(db, after, actor, items)
  {
    hide Drafted;
    var n := |items| - 1;
    forall i | 0 <= i < n ensures items[..n][i] == items[i] {
    }
    assert items[n].questionId in after.questions;
  }

  lemma OneMoreVersion(db: Db, before: Db, after: Db, actor: Id, items: seq<ImportItem>)
    requires |items| > 0 && FreshKeys(db, items) && DistinctKeys(items)
    requires VersionsInserted(db, before, actor, items[..|items| - 1])
    requires var last := items[|items| - 1];
             QuestionCreated(before, after, actor, last.questionId, last.versionId, last.content)
    ensures VersionsInserted(db, after, actor, items)
  {
    hide Drafted;
    var n := |items| - 1;
    forall i | 0 <= i < n ensures items[..n][i] == items[i] {
    }
    assert items[n].versionId in after.versions;
  }

  lemma OneMoreAudit(db: Db, before: Db, after: Db, actor: Id, items: seq<ImportItem>)
    requires |items| > 0 && CreationsAudited(db, before, actor, items[..|items| - 1])
    requires var last := items[|items| - 1];
             QuestionCreated(before, after, actor, last.questionId, last.versionId, last.content)
    ensures CreationsAudited(db, after, actor, items)
  {
    hide Drafted;
    var n := |items| - 1;
    assert after.audits == before.audits + [CreationAudit(actor, items[n])];
    forall i | 0 <= i < n ensures items[..n][i] == items[i] {
    }
  }

  lemma OneMoreItem(db: Db, before: Db, after: Db, actor: Id, items: seq<ImportItem>)
    requires |items| > 0 && FreshKeys(db, items) && DistinctKeys(items)
    requires ItemsInserted(db, before, actor, items[..|items| - 1])
    requires var last := items[|items| - 1];
             QuestionCreated(before, after, actor, last.questionId, last.versionId, last.content)
    ensures ItemsInserted(db, after, actor, items)
  {
    hide QuestionsInserted, VersionsInserted, CreationsAudited, FreshKeys, DistinctKeys;
    OneMoreQuestion(db, before, after, actor, items);
    OneMoreVersion(db, before, after, actor, items);
    OneMoreAudit(db, before, after, actor, items);
  }

  lemma {:induction false} InsertItemsWrites(db: Db, actor: Id, items: seq<ImportItem>)
    requires FreshKeys(db, items) && DistinctKeys(items)
    ensures ItemsInserted(db, InsertItems(db, actor, items), actor, items)
    decreases |items|
  {
    if |items| > 0 {
      hide InsertQuestion, ItemsInserted, QuestionCreated;
      var n := |items| - 1;
      InsertItemsWrites(db, actor, items[..n]);
      CreateWrites(InsertItems(db, actor, items[..n]), actor, items[n].questionId, items[n].versionId,
                   items[n].content);
      OneMoreItem(db, InsertItems(db, actor, items[..n]), InsertItems(db, actor, items), actor, items);
    }
  }

  /** The rows of a committed import: those of its items and one audit row of its own. */
  ghost predicate Imported(db: Db, after: Db, actor: Id, items: seq<ImportItem>) {
    && |after.audits| > 0
    && after.audits[|after.audits| - 1] == Audit(ImportApply, None, Actor(actor), None, None, [Field.ImportItems])
    && ItemsInserted(db, after.(audits := after.audits[..|after.audits| - 1]), actor, items)
  }

  /**
    * Every answer of an import: it commits exactly when an active administrator
    * gives items that are whole, known and new, to the bank and to one another.
    */
  lemma ImportAnswer(db: Db, actor: Id, items: seq<ImportItem>)
    ensures var r := CommitImport(db, actor, items, ImportValid(db, items));
            if !Importable(db, items) then r == Err(ValidationError)
            else if !(actor in db.users && db.users[actor] == User(Admin, ActiveAccount)) then r == Err(AuthorityLost)
            else if !(1 <= |ImportTags(items)| <= 1200) then r == Err(BadManifest)
            else if !FreshKeys(db, items) || !DistinctKeys(items) then r == Err(KeyTaken)
            else r.Ok? && Imported(db, r.value, actor, items)
  {
    hide Begin, Arm, Importable, ImportValid, ItemsInserted, InsertItems, FreshKeys, DistinctKeys, ImportTags;
    ValidIsImportable(db, items);
    NobodyBegins(db, actor, ImportApply);
    TagsArm(db, Operation(actor, ImportApply, {actor}), ImportTags(items), ImportApply);
    if Importable(db, items) {
      TagsAreKnown(db, items);
    }
    if FreshKeys(db, items) && DistinctKeys(items) {
      InsertItemsWrites(db, actor, items);
    }
    var inserted := InsertItems(db, actor, items);
    var last := Audit(ImportApply, None, Actor(actor), None, None, [Field.ImportItems]);
    assert (inserted.audits + [last])[..|inserted.audits|] == inserted.audits;
  }

  lemma TagsAreKnown(db: Db, items: seq<ImportItem>)
    requires Importable(db, items)
    ensures ImportTags(items) <= db.tags
  {
    hide Whole, SameContent;
  }

  // ----- a batch of review requests

  /** The item names a version of the actor as it is, in a state from which a review is requested. */
  ghost predicate Requestable(db: Db, actor: Id, item: BatchItem) {
    && item.versionId in db.versions
    && db.versions[item.versionId].creator.userId == Some(actor)
    && db.versions[item.versionId].rowVersion == item.expected
    && (db.versions[item.versionId].status == Draft || db.versions[item.versionId].status == ChangesRequested)
  }

  lemma ItemIsRequestable(db: Db, actor: Id, items: seq<BatchItem>, i: nat)
    requires Inv(db) && i < |items|
    ensures ItemFailure(items[i], LoadBatchTargets(db, items), actor).None? <==> Requestable(db, actor, items[i])
  {
    var v := items[i].versionId;
    if v in db.versions {
      TargetIsThere(db, v);
      if db.versions[v].status != Retired {
        OpenIsActive(db, v);
      }
    }
    hide Inv, LatestApprover, LoadVersionTarget;
  }

  /**
    * On current rows a batch of different versions commits exactly when every item
    * is requestable.
    */
  lemma BatchCommitsExactly(db: Db, actor: Id, items: seq<BatchItem>, now: Time)
    requires Inv(db) && actor in db.users && db.users[actor] == User(Admin, ActiveAccount)
    requires DistinctIds(items) && 1 <= |items| <= 20
    ensures CommitReviewBatch(db, actor, items, LoadBatchTargets(db, items), now).Ok? <==>
              forall i | 0 <= i < |items| :: Requestable(db, actor, items[i])
  {
    hide Inv, CommitReviewBatch, LoadBatchTargets, FirstFailure, ItemFailure, Requestable, DistinctIds;
    var targets := LoadBatchTargets(db, items);
    forall i | 0 <= i < |items|
      ensures ItemFailure(items[i], targets, actor).None? <==> Requestable(db, actor, items[i])
    {
      ItemIsRequestable(db, actor, items, i);
    }
    FirstFailureIsLowest(items, targets, actor);
    BatchRefinesItemChecks(db, actor, items, now);
  }
}
