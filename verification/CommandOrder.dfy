/** Every committed command moves the content tables forward in the order of ContentOrder. */
module CommandOrder {
  import opened Common
  import opened ContentTables
  import opened ContentArm
  import opened ContentCommands
  import opened ContentInvariant
  import opened ContentOrder
  import opened ContentPreservation
  import opened CommandPreservation
  import opened ReviewBatch

  /** The tables outside versions, reviews and questions are as they were. */
  ghost predicate RestKept(db: Db, after: Db) {
    && after.reports == db.reports && after.users == db.users && after.erased == db.erased
    && after.pinned == db.pinned && after.tags == db.tags
  }

  lemma Assemble(db: Db, after: Db)
    requires LogFollows(LogOf(db), LogOf(after)) && CatalogFollows(CatalogOf(db), CatalogOf(after))
             && RestKept(db, after)
    ensures Follows(db, after)
  {
  }

  lemma TransitionFollows(db: Db, operation: LifecycleOperation, actor: Id, id: Id, was: Version,
                          request: TransitionRequest, now: Time)
    requires id in db.versions && db.versions[id].rowVersion == was.rowVersion
    requires db.versions[id].status in Config(operation).fromStates
    ensures Follows(db, TransitionEffect(db, Config(operation), actor, id, was, request, now))
  {
    hide LogFollows, CatalogFollows;
    var after := TransitionEffect(db, Config(operation), actor, id, was, request, now);
    LogMove(LogOf(db), id, after.versions[id], after.reviews[|db.reviews|]);
    CatalogKept(CatalogOf(db), CatalogOf(after));
    Assemble(db, after);
  }

  lemma ReplacedFollows(db: Db, actor: Id, q: Id, previous: Option<Id>, previousRow: nat, now: Time)
    requires previous.Some? ==> previous.value in db.versions && db.versions[previous.value].status == Published
    ensures LogFollows(LogOf(db), LogOf(Replaced(db, actor, q, previous, previousRow, now)))
  {
    hide LogFollows;
    var after := Replaced(db, actor, q, previous, previousRow, now);
    if previous.Some? {
      LogMove(LogOf(db), previous.value, after.versions[previous.value], after.reviews[|db.reviews|]);
    } else {
      LogSelf(LogOf(db));
    }
  }

  lemma ReleasedFollows(db: Db, actor: Id, id: Id, q: Id, versionRow: nat, approver: Account, now: Time)
    requires id in db.versions && db.versions[id].status == Approved
    ensures LogFollows(LogOf(db), LogOf(Released(db, actor, id, q, versionRow, approver, now)))
  {
    hide LogFollows;
    var after := Released(db, actor, id, q, versionRow, approver, now);
    LogMove(LogOf(db), id, after.versions[id], after.reviews[|db.reviews|]);
  }

  /** A publication moves forward whatever version row it was planned on. */
  lemma PublishFollows(db: Db, actor: Id, id: Id, q: Id, previous: Option<Id>, previousRow: nat,
                       versionRow: nat, questionRow: nat, approver: Account, now: Time)
    requires Of(db.versions, id, q) && q in db.questions && db.versions[id].status == Approved
    requires previous.Some? ==> Of(db.versions, previous.value, q) && db.versions[previous.value].status == Published
    requires questionRow == db.questions[q].rowVersion
    ensures Follows(db, PublishEffect(db, actor, id, q, previous, previousRow, versionRow, questionRow, approver, now))
  {
    hide LogFollows, CatalogFollows;
    var first := Replaced(db, actor, q, previous, previousRow, now);
    var second := Released(first, actor, id, q, versionRow, approver, now);
    var after := PublishEffect(db, actor, id, q, previous, previousRow, versionRow, questionRow, approver, now);
    ReplacedFollows(db, actor, q, previous, previousRow, now);
    ReleasedFollows(first, actor, id, q, versionRow, approver, now);
    LogTwo(LogOf(db), LogOf(first), LogOf(second));
    assert LogOf(after) == LogOf(second);
    CatalogBumped(CatalogOf(db), CatalogOf(after), q);
    Assemble(db, after);
  }

  lemma RetireFollows(db: Db, actor: Id, id: Id, q: Id, versionRow: nat, questionRow: nat, now: Time)
    requires Of(db.versions, id, q) && q in db.questions && db.versions[id].status == Published
    requires questionRow == db.questions[q].rowVersion
    ensures Follows(db, RetireEffect(db, actor, id, q, versionRow, questionRow, now))
  {
    hide LogFollows, CatalogFollows;
    var after := RetireEffect(db, actor, id, q, versionRow, questionRow, now);
    LogMove(LogOf(db), id, after.versions[id], after.reviews[|db.reviews|]);
    CatalogBumped(CatalogOf(db), CatalogOf(after), q);
    Assemble(db, after);
  }

  lemma ArchivedCurrentFollows(db: Db, actor: Id, questionId: Id, current: Option<Id>, rows: map<Id, Version>,
                               now: Time)
    requires current.Some? ==> current.value in db.versions && current.value in rows
                               && db.versions[current.value].status == Published
    ensures LogFollows(LogOf(db), LogOf(ArchivedCurrent(db, actor, questionId, current, rows, now)))
  {
    hide LogFollows;
    var after := ArchivedCurrent(db, actor, questionId, current, rows, now);
    if current.Some? {
      LogMove(LogOf(db), current.value, after.versions[current.value], after.reviews[|db.reviews|]);
    } else {
      LogSelf(LogOf(db));
    }
  }

  lemma ArchivedCandidateFollows(db: Db, actor: Id, questionId: Id, candidate: Option<Id>, rows: map<Id, Version>,
                                 now: Time)
    requires candidate.Some? ==> candidate.value in db.versions && candidate.value in rows
                                 && rows[candidate.value] == db.versions[candidate.value]
                                 && OpenStatus(db.versions[candidate.value].status)
    ensures LogFollows(LogOf(db), LogOf(ArchivedCandidate(db, actor, questionId, candidate, rows, now)))
  {
    hide LogFollows;
    var after := ArchivedCandidate(db, actor, questionId, candidate, rows, now);
    if candidate.Some? {
      LogMove(LogOf(db), candidate.value, after.versions[candidate.value], after.reviews[|db.reviews|]);
    } else {
      LogSelf(LogOf(db));
    }
  }

  lemma ArchiveLog(db: Db, actor: Id, questionId: Id, questionRow: nat, current: Option<Id>, candidate: Option<Id>,
                   rows: map<Id, Version>, now: Time)
    requires Archivable(db, questionId, current, candidate, rows)
    ensures LogFollows(LogOf(db),
                       LogOf(ArchiveEffect(db, actor, questionId, questionRow, current, candidate, rows, now)))
  {
    hide LogFollows;
    var first := ArchivedCurrent(db, actor, questionId, current, rows, now);
    var second := ArchivedCandidate(first, actor, questionId, candidate, rows, now);
    ArchivedCurrentFollows(db, actor, questionId, current, rows, now);
    ArchivedCandidateFollows(first, actor, questionId, candidate, rows, now);
    LogTwo(LogOf(db), LogOf(first), LogOf(second));
    assert LogOf(ArchiveEffect(db, actor, questionId, questionRow, current, candidate, rows, now)) == LogOf(second);
  }

  lemma ArchiveFollows(db: Db, actor: Id, questionId: Id, questionRow: nat, current: Option<Id>, candidate: Option<Id>,
                       rows: map<Id, Version>, now: Time)
    requires Archivable(db, questionId, current, candidate, rows)
    requires questionRow == db.questions[questionId].rowVersion
    ensures Follows(db, ArchiveEffect(db, actor, questionId, questionRow, current, candidate, rows, now))
  {
    hide LogFollows, CatalogFollows;
    var after := ArchiveEffect(db, actor, questionId, questionRow, current, candidate, rows, now);
    ArchiveLog(db, actor, questionId, questionRow, current, candidate, rows, now);
    CatalogBumped(CatalogOf(db), CatalogOf(after), questionId);
    Assemble(db, after);
  }

  lemma InsertQuestionFollows(db: Db, actor: Id, questionId: Id, versionId: Id, content: Content)
    requires questionId !in db.questions && versionId !in db.versions
    ensures Follows(db, InsertQuestion(db, actor, questionId, versionId, content))
  {
    hide LogFollows, CatalogFollows;
    var after := InsertQuestion(db, actor, questionId, versionId, content);
    LogPut(LogOf(db), versionId, after.versions[versionId]);
    CatalogBumped(CatalogOf(db), CatalogOf(after), questionId);
    Assemble(db, after);
  }

  lemma InsertVersionFollows(db: Db, questionId: Id, versionId: Id, next: Question, version: Version)
    requires questionId in db.questions && versionId !in db.versions && version.questionId == questionId
    requires next.rowVersion == db.questions[questionId].rowVersion + 1
    ensures Follows(db, WithVersion(WithQuestion(db, questionId, next), versionId, version))
  {
    hide LogFollows, CatalogFollows;
    var after := WithVersion(WithQuestion(db, questionId, next), versionId, version);
    LogPut(LogOf(db), versionId, version);
    CatalogBumped(CatalogOf(db), CatalogOf(after), questionId);
    Assemble(db, after);
  }

  lemma UpdateFollows(db: Db, id: Id, content: Content, rowVersion: nat)
    requires id in db.versions && rowVersion > db.versions[id].rowVersion
    ensures Follows(db, WithVersion(db, id, db.versions[id].(content := content, rowVersion := rowVersion)))
  {
    hide LogFollows, CatalogFollows;
    var after := WithVersion(db, id, db.versions[id].(content := content, rowVersion := rowVersion));
    LogPut(LogOf(db), id, after.versions[id]);
    CatalogKept(CatalogOf(db), CatalogOf(after));
    Assemble(db, after);
  }

  lemma ReportWriteFollows(db: Db, id: Id, next: Report)
    requires id in db.reports ==> ReportFollows(db.reports[id], next)
    ensures Follows(db, WithReport(db, id, next))
  {
    LogSelf(LogOf(db));
    CatalogKept(CatalogOf(db), CatalogOf(db));
    ReportBumped(db.reports, id, next);
  }

  lemma AuditFollows(db: Db, after: Db, a: Audit)
    requires Follows(db, after)
    ensures Follows(db, WithAudit(after, a))
  {
    hide LogFollows, CatalogFollows, ReportsFollow;
    assert LogOf(WithAudit(after, a)) == LogOf(after) && CatalogOf(WithAudit(after, a)) == CatalogOf(after);
  }

  lemma {:induction false} InsertItemsFollows(db: Db, actor: Id, items: seq<ImportItem>, k: nat)
    requires Inv(db) && HasAuthority(db, actor) && k <= |items|
    requires ImportValid(db, items) && FreshKeys(db, items) && DistinctKeys(items)
    ensures Follows(db, InsertItems(db, actor, items[..k]))
    decreases k
  {
    hide Inv, ImportValid, InsertQuestion, HasAuthority, Follows, Imported;
    if k == 0 {
      assert items[..0] == [];
      FollowsSelf(db);
    } else {
      InsertItemsFollows(db, actor, items, k - 1);
      InsertItemsKeeps(db, actor, items, k - 1);
      var before := InsertItems(db, actor, items[..k - 1]);
      assert items[..k][..k - 1] == items[..k - 1];
      NewKeysFresh(db, before, items, k - 1);
      InsertQuestionFollows(before, actor, items[k - 1].questionId, items[k - 1].versionId, items[k - 1].content);
      FollowsTwo(db, before, InsertItems(db, actor, items[..k]));
    }
  }

  lemma {:induction false} BatchEffectFollows(db: Db, actor: Id, items: seq<BatchItem>, targets: map<Id, BatchTarget>,
                                              now: Time, k: nat)
    requires Inv(db) && actor in db.users && k <= |items| && BatchReady(db, actor, items, targets)
    ensures Follows(db, BatchEffect(db, actor, items[..k], targets, now))
    decreases k
  {
    hide Inv, Follows;
    if k == 0 {
      FollowsSelf(db);
    } else {
      BatchEffectFollows(db, actor, items, targets, now, k - 1);
      BatchEffectKeeps(db, actor, items, targets, now, k - 1);
      assert items[..k][..k - 1] == items[..k - 1];
      var before := BatchEffect(db, actor, items[..k - 1], targets, now);
      var item := items[k - 1];
      TransitionFollows(before, RequestContentReview, actor, item.versionId, targets[item.versionId].version,
                        TransitionRequest(item.expected, None, item.comment), now);
      FollowsTwo(db, before, BatchEffect(db, actor, items[..k], targets, now));
    }
  }
}
