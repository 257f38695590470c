/**
  * What one transaction leaves behind as evidence: the review log only grows,
  * with at most one new review for a version, and content changes only in an
  * editable version that gets no review.
  */
module ContentTrail {
  import opened Common
  import opened ContentTables
  import opened ContentArm
  import opened ContentCommands
  import opened ReviewBatch
  import opened AccountErasure
  import opened ContentInvariant
  import opened ContentOrder
  import opened ContentPreservation
  import opened CommandPreservation
  import opened ErasurePreservation

  /** Erasure may tombstone the accounts of a review and nothing else. */
  ghost predicate ReviewKept(r: Review, after: Review) {
    && after.versionId == r.versionId && after.action == r.action
    && after.fromState == r.fromState && after.toState == r.toState
  }

  ghost predicate LogKept(reviews: seq<Review>, after: seq<Review>) {
    && |reviews| <= |after|
    && forall i {:trigger ReviewKept(reviews[i], after[i])} | 0 <= i < |reviews| :: ReviewKept(reviews[i], after[i])
  }

  /** The reviews from the given index on are about different versions of the given set. */
  ghost predicate FreshTail(reviews: seq<Review>, start: nat, touched: set<Id>) {
    && (forall i | start <= i < |reviews| :: reviews[i].versionId in touched)
    && (forall i, j | start <= i < j < |reviews| :: reviews[i].versionId != reviews[j].versionId)
  }

  ghost predicate RowTraced(row: Version, next: Version) {
    && BirthStatus(next.creator) == BirthStatus(row.creator)
    && (row.publishedAt.Some? ==> next.publishedAt == row.publishedAt)
  }

  ghost predicate RowsTraced(versions: map<Id, Version>, after: map<Id, Version>) {
    && versions.Keys <= after.Keys
    && forall v {:trigger RowTraced(versions[v], after[v])} | v in versions :: RowTraced(versions[v], after[v])
  }

  ghost predicate SameContent(versions: map<Id, Version>, after: map<Id, Version>) {
    forall v | v in versions :: v in after && after[v].content == versions[v].content
  }

  /** Reviews are added for the touched versions; no content changes. */
  ghost predicate Moves(log: Log, after: Log, touched: set<Id>) {
    && LogKept(log.reviews, after.reviews)
    && FreshTail(after.reviews, |log.reviews|, touched)
    && RowsTraced(log.versions, after.versions)
    && SameContent(log.versions, after.versions)
    && after.versions.Keys == log.versions.Keys
  }

  /** No review is added; content changes only where the version is editable and stays as it is. */
  ghost predicate Edits(log: Log, after: Log) {
    && after.reviews == log.reviews
    && RowsTraced(log.versions, after.versions)
    && (forall v | v in log.versions && after.versions[v].content != log.versions[v].content ::
          Editable(log.versions[v].status) && after.versions[v].status == log.versions[v].status)
    && (forall v | v in after.versions && v !in log.versions ::
          after.versions[v].status == Draft && BirthStatus(after.versions[v].creator) == Draft)
  }

  ghost predicate Traced(log: Log, after: Log) {
    Edits(log, after) || exists touched: set<Id> :: Moves(log, after, touched)
  }

  lemma MovesTwo(a: Log, b: Log, c: Log, first: set<Id>, second: set<Id>)
    requires Moves(a, b, first) && Moves(b, c, second) && first !! second
    ensures Moves(a, c, first + second)
  {
    forall i | 0 <= i < |a.reviews| ensures ReviewKept(a.reviews[i], c.reviews[i]) {
      assert ReviewKept(a.reviews[i], b.reviews[i]) && ReviewKept(b.reviews[i], c.reviews[i]);
    }
    forall i | |a.reviews| <= i < |b.reviews|
      ensures c.reviews[i].versionId == b.reviews[i].versionId && c.reviews[i].versionId in first
    {
      assert ReviewKept(b.reviews[i], c.reviews[i]);
    }
    forall v | v in a.versions ensures RowTraced(a.versions[v], c.versions[v]) {
      assert RowTraced(a.versions[v], b.versions[v]) && RowTraced(b.versions[v], c.versions[v]);
    }
  }

  lemma MovesOne(log: Log, id: Id, next: Version, r: Review)
    requires id in log.versions && r.versionId == id
    requires next.content == log.versions[id].content && RowTraced(log.versions[id], next)
    ensures Moves(log, Log(log.versions[id := next], log.reviews + [r], log.erased), {id})
  {
    var after := Log(log.versions[id := next], log.reviews + [r], log.erased);
    forall i | 0 <= i < |log.reviews| ensures ReviewKept(log.reviews[i], after.reviews[i]) {
    }
    forall v | v in log.versions ensures RowTraced(log.versions[v], after.versions[v]) {
    }
  }

  lemma MovesNone(log: Log)
    ensures Moves(log, log, {})
  {
    forall v | v in log.versions ensures RowTraced(log.versions[v], log.versions[v]) {
    }
  }

  lemma EditsPut(log: Log, id: Id, next: Version)
    requires id in log.versions ==> RowTraced(log.versions[id], next)
    requires if id in log.versions then Editable(log.versions[id].status) && next.status == log.versions[id].status
             else next.status == Draft && BirthStatus(next.creator) == Draft
    ensures Edits(log, log.(versions := log.versions[id := next]))
  {
    var after := log.(versions := log.versions[id := next]);
    forall v | v in log.versions ensures RowTraced(log.versions[v], after.versions[v]) {
    }
  }

  lemma EditsNone(log: Log, after: Log)
    requires after.versions == log.versions && after.reviews == log.reviews
    ensures Edits(log, after)
  {
    forall v | v in log.versions ensures RowTraced(log.versions[v], after.versions[v]) {
    }
  }

  lemma EditsTwo(a: Log, b: Log, c: Log)
    requires Edits(a, b) && Edits(b, c)
    requires SameContent(b.versions, c.versions)
    ensures Edits(a, c)
    requires forall v | v in b.versions :: c.versions[v].status == b.versions[v].status
  {
    forall v | v in a.versions ensures RowTraced(a.versions[v], c.versions[v]) {
      assert RowTraced(a.versions[v], b.versions[v]) && RowTraced(b.versions[v], c.versions[v]);
    }
    forall v | v in c.versions && v !in a.versions
      ensures c.versions[v].status == Draft && BirthStatus(c.versions[v].creator) == Draft
    {
      if v in b.versions {
        assert RowTraced(b.versions[v], c.versions[v]);
      }
    }
  }

  // ----- commands

  lemma TransitionMoves(db: Db, operation: LifecycleOperation, actor: Id, id: Id, was: Version,
                        request: TransitionRequest, now: Time)
    requires id in db.versions
    ensures Moves(LogOf(db), LogOf(TransitionEffect(db, Config(operation), actor, id, was, request, now)), {id})
  {
    hide Moves;
    var after := TransitionEffect(db, Config(operation), actor, id, was, request, now);
    MovesOne(LogOf(db), id, after.versions[id], after.reviews[|db.reviews|]);
  }

  lemma PublishMoves(db: Db, actor: Id, id: Id, q: Id, previous: Option<Id>, previousRow: nat,
                     versionRow: nat, questionRow: nat, approver: Account, now: Time)
    requires Of(db.versions, id, q) && q in db.questions && db.versions[id].publishedAt.None?
    requires previous.Some? ==> previous.value in db.versions && previous.value != id
    ensures Traced(LogOf(db),
                   LogOf(PublishEffect(db, actor, id, q, previous, previousRow, versionRow, questionRow, approver,
                                       now)))
  {
    hide Moves;
    var first := Replaced(db, actor, q, previous, previousRow, now);
    var second := Released(first, actor, id, q, versionRow, approver, now);
    MovesOne(LogOf(first), id, second.versions[id], second.reviews[|first.reviews|]);
    if previous.Some? {
      MovesOne(LogOf(db), previous.value, first.versions[previous.value], first.reviews[|db.reviews|]);
      MovesTwo(LogOf(db), LogOf(first), LogOf(second), {previous.value}, {id});
    }
    assert LogOf(PublishEffect(db, actor, id, q, previous, previousRow, versionRow, questionRow, approver, now))
           == LogOf(second);
  }

  lemma RetireMoves(db: Db, actor: Id, id: Id, q: Id, versionRow: nat, questionRow: nat, now: Time)
    requires Of(db.versions, id, q) && q in db.questions
    ensures Moves(LogOf(db), LogOf(RetireEffect(db, actor, id, q, versionRow, questionRow, now)), {id})
  {
    hide Moves;
    var after := RetireEffect(db, actor, id, q, versionRow, questionRow, now);
    MovesOne(LogOf(db), id, after.versions[id], after.reviews[|db.reviews|]);
  }

  lemma ArchiveMoves(db: Db, actor: Id, questionId: Id, questionRow: nat, current: Option<Id>, candidate: Option<Id>,
                     rows: map<Id, Version>, now: Time)
    requires Archivable(db, questionId, current, candidate, rows)
    ensures Traced(LogOf(db), LogOf(ArchiveEffect(db, actor, questionId, questionRow, current, candidate, rows, now)))
  {
    hide Moves;
    var first := ArchivedCurrent(db, actor, questionId, current, rows, now);
    var second := ArchivedCandidate(first, actor, questionId, candidate, rows, now);
    assert LogOf(ArchiveEffect(db, actor, questionId, questionRow, current, candidate, rows, now)) == LogOf(second);
    MovesNone(LogOf(db));
    if current.Some? {
      MovesOne(LogOf(db), current.value, first.versions[current.value], first.reviews[|db.reviews|]);
    }
    if candidate.Some? {
      MovesOne(LogOf(first), candidate.value, second.versions[candidate.value], second.reviews[|first.reviews|]);
      MovesTwo(LogOf(db), LogOf(first), LogOf(second),
               if current.Some? then {current.value} else {}, {candidate.value});
    }
  }

  function ItemIds(items: seq<BatchItem>): set<Id> {
    set i | 0 <= i < |items| :: items[i].versionId
  }

  lemma {:induction false} BatchMoves(db: Db, actor: Id, items: seq<BatchItem>, targets: map<Id, BatchTarget>,
                                      now: Time)
    requires DistinctIds(items)
    requires forall i | 0 <= i < |items| :: items[i].versionId in db.versions && items[i].versionId in targets
    ensures Moves(LogOf(db), LogOf(BatchEffect(db, actor, items, targets, now)), ItemIds(items))
    decreases |items|
  {
    hide Moves;
    if |items| == 0 {
      MovesNone(LogOf(db));
      assert ItemIds(items) == {};
    } else {
      var n := |items| - 1;
      BatchMoves(db, actor, items[..n], targets, now);
      var before := BatchEffect(db, actor, items[..n], targets, now);
      var item := items[n];
      TransitionMoves(before, RequestContentReview, actor, item.versionId, targets[item.versionId].version,
                      TransitionRequest(item.expected, None, item.comment), now);
      assert item.versionId !in ItemIds(items[..n]);
      MovesTwo(LogOf(db), LogOf(before), LogOf(BatchEffect(db, actor, items, targets, now)), ItemIds(items[..n]),
               {item.versionId});
      assert ItemIds(items) == ItemIds(items[..n]) + {item.versionId};
    }
  }

  lemma {:induction false} InsertItemsEdits(db: Db, actor: Id, items: seq<ImportItem>, k: nat)
    requires Inv(db) && HasAuthority(db, actor) && k <= |items|
    requires ImportValid(db, items) && FreshKeys(db, items) && DistinctKeys(items)
    ensures Edits(LogOf(db), LogOf(InsertItems(db, actor, items[..k])))
    decreases k
  {
    hide Inv, ImportValid, HasAuthority, Edits, Imported;
    if k == 0 {
      assert items[..0] == [];
      EditsNone(LogOf(db), LogOf(db));
    } else {
      InsertItemsEdits(db, actor, items, k - 1);
      InsertItemsKeeps(db, actor, items, k - 1);
      var before := InsertItems(db, actor, items[..k - 1]);
      assert items[..k][..k - 1] == items[..k - 1];
      NewKeysFresh(db, before, items, k - 1);
      var item := items[k - 1];
      EditsPut(LogOf(before), item.versionId, NewVersion(actor, item.questionId, 1, item.content));
      EditsTwo(LogOf(db), LogOf(before), LogOf(InsertItems(db, actor, items[..k])));
    }
  }

  // ----- erasure

  function Members(order: seq<Id>): set<Id> {
    set v | v in order
  }

  lemma AbandonOneMoves(before: Db, id: Id, row: Version, user: Id, now: Time)
    requires id in before.versions && before.versions[id] == row && BirthStatus(row.creator) == Draft
    ensures Moves(LogOf(before), Log(before.versions[id := AbandonRow(row, now)],
                                     before.reviews + [AbandonReview(id, row, user, now)], before.erased), {id})
  {
    hide Moves;
    MovesOne(LogOf(before), id, AbandonRow(row, now), AbandonReview(id, row, user, now));
  }

  lemma {:induction false} AbandonMoves(db: Db, order: seq<Id>, user: Id, now: Time)
    requires forall i | 0 <= i < |order| :: order[i] in db.versions && OpenAuthored(db.versions[order[i]], user)
    requires forall i, j | 0 <= i < j < |order| :: order[i] != order[j]
    requires VersionsShaped(db.versions)
    ensures Moves(LogOf(db), LogOf(Abandon(db, order, user, now)), Members(order))
    decreases |order|
  {
    hide Moves, VersionsShaped, AbandonRow, AbandonReview, Members;
    if |order| == 0 {
      MovesNone(LogOf(db));
      MembersSplit(order);
    } else {
      var n := |order| - 1;
      AbandonMoves(db, order[..n], user, now);
      AbandonRows(db, order[..n], user, now);
      var before := Abandon(db, order[..n], user, now);
      assert order[n] !in order[..n];
      var row := db.versions[order[n]];
      OpenIsAuthored(db.versions, order[n]);
      AbandonOneMoves(before, order[n], row, user, now);
      MembersSplit(order);
      MovesTwo(LogOf(db), LogOf(before), LogOf(Abandon(db, order, user, now)), Members(order[..n]), {order[n]});
    }
  }

  lemma MembersSplit(order: seq<Id>)
    ensures |order| == 0 ==> Members(order) == {}
    ensures |order| > 0 ==> Members(order) == Members(order[..|order| - 1]) + {order[|order| - 1]}
    ensures |order| > 0 && order[|order| - 1] !in order[..|order| - 1] ==>
              Members(order[..|order| - 1]) !! {order[|order| - 1]}
  {
    assert |order| > 0 ==> order == order[..|order| - 1] + [order[|order| - 1]];
  }

  lemma OpenIsAuthored(versions: map<Id, Version>, v: Id)
    requires VersionsShaped(versions) && v in versions && versions[v].creator.actorId.Some?
    ensures BirthStatus(versions[v].creator) == Draft
  {
    assert VersionShape(versions[v]);
  }

  lemma EntombMoves(db: Db, user: Id, now: Time)
    requires VersionsShaped(db.versions) && NoneOpen(db.versions, user)
    ensures Moves(LogOf(db), LogOf(Entomb(db, user, now)), {})
  {
    hide VersionsShaped;
    var after := LogOf(Entomb(db, user, now));
    forall i | 0 <= i < |db.reviews| ensures ReviewKept(db.reviews[i], after.reviews[i]) {
    }
    forall v | v in db.versions ensures RowTraced(db.versions[v], after.versions[v]) {
      if AuthoredBy(db.versions[v].creator, user) {
        OpenIsAuthored(db.versions, v);
      }
    }
  }

  lemma EraseMoves(db: Db, user: Id, order: seq<Id>, now: Time)
    requires Inv(db) && LockOrder(db, order, user) && user in db.users
    ensures Traced(LogOf(db), LogOf(CommitErase(db, user, order, now).value))
  {
    hide Moves, AggregatesOk, ContentUnique, ReplaysOk, ReportsOk, ReviewsLegal, CandidatesLive, ReferencesLive,
         VersionsShaped;
    AbandonMoves(db, order, user, now);
    AbandonRows(db, order, user, now);
    var left := Abandon(db, order, user, now);
    LoopLeavesNoneOpen(db, order, user, now);
    AbandonShapes(db, order, user, now);
    EntombMoves(left, user, now);
    MovesTwo(LogOf(db), LogOf(left), LogOf(Entomb(left, user, now)), Members(order), {});
    assert LogOf(CommitErase(db, user, order, now).value) == LogOf(Entomb(left, user, now));
  }

  lemma AbandonShapes(db: Db, order: seq<Id>, user: Id, now: Time)
    requires Inv(db)
    requires forall i | 0 <= i < |order| :: order[i] in db.versions && OpenAuthored(db.versions[order[i]], user)
    requires forall i, j | 0 <= i < j < |order| :: order[i] != order[j]
    ensures VersionsShaped(Abandon(db, order, user, now).versions)
  {
    hide Inv, VersionsShaped, AggregatesOk;
    AbandonKeeps(db, order, user, now);
  }
}
