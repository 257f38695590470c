/**
  * Row versions count writes. The row version of a version is one for its birth,
  * one for each review, one for each update and one for the tombstone of a
  * closed version. A publication planned on an old target row breaks the count
  * downwards; nothing else breaks it.
  */
module ContentAccounting {
  import opened Common
  import opened ContentTables
  import opened ContentArm
  import opened ContentCommands
  import opened ReviewBatch
  import opened AccountErasure
  import opened ContentInvariant
  import opened ContentOrder
  import opened ContentPreservation
  import opened CommandPreservation
  import opened ErasurePreservation
  import opened PublishConcurrency
  import opened ReportConcurrency
  import opened BatchConcurrency
  import opened ContentEvents
  import opened ContentSteps
  import opened ContentRuns

  function ReviewCount(reviews: seq<Review>, id: Id): nat
    decreases |reviews|
  {
    if |reviews| == 0 then 0
    else ReviewCount(reviews[..|reviews| - 1], id) + if reviews[|reviews| - 1].versionId == id then 1 else 0
  }

  predicate IsUpdateOf(a: Audit, id: Id) {
    a.command == VersionUpdate && a.target == Some(id)
  }

  function UpdateCount(audits: seq<Audit>, id: Id): nat
    decreases |audits|
  {
    if |audits| == 0 then 0
    else UpdateCount(audits[..|audits| - 1], id) + if IsUpdateOf(audits[|audits| - 1], id) then 1 else 0
  }

  /** A closed version whose author was erased carries one tombstone write. */
  function TombstoneCount(row: Version): nat {
    if row.creator.standing == DeletedAdmin && row.retirement != Some(AuthorErasureAbandoned) then 1 else 0
  }

  /** The tables the count is about. */
  datatype Books = Books(versions: map<Id, Version>, reviews: seq<Review>, audits: seq<Audit>)

  function BooksOf(db: Db): Books {
    Books(db.versions, db.reviews, db.audits)
  }

  function Tally(b: Books, id: Id): nat
    requires id in b.versions
  {
    1 + ReviewCount(b.reviews, id) + UpdateCount(b.audits, id) + TombstoneCount(b.versions[id])
  }

  function Slack(b: Books, id: Id): int
    requires id in b.versions
  {
    Tally(b, id) - b.versions[id].rowVersion
  }

  /** Every review and every update audit names a stored version. */
  ghost predicate Named(b: Books) {
    && (forall i | 0 <= i < |b.reviews| :: b.reviews[i].versionId in b.versions)
    && (forall i, v | 0 <= i < |b.audits| && IsUpdateOf(b.audits[i], v) :: v in b.versions)
  }

  /** A row version that falls short of its writes by an amount. */
  datatype Drop = Drop(id: Id, amount: nat)

  function Short(id: Id, amount: nat): Option<Drop> {
    if amount == 0 then None else Some(Drop(id, amount))
  }

  function Lost(drop: Option<Drop>, v: Id): nat {
    if drop.Some? && drop.value.id == v then drop.value.amount else 0
  }

  /** The count of every version is kept, but for the dropped one, whose slack grows by exactly the amount. */
  ghost predicate Balance(b: Books, after: Books, drop: Option<Drop>) {
    && b.versions.Keys <= after.versions.Keys
    && Named(after)
    && (drop.Some? ==> drop.value.id in b.versions)
    && (forall v {:trigger Slack(after, v)} | v in after.versions ::
          Slack(after, v) == if v in b.versions then Slack(b, v) + Lost(drop, v) else 0)
  }

  lemma BalanceTwo(a: Books, b: Books, c: Books, drop: Option<Drop>)
    requires Balance(a, b, None) && Balance(b, c, drop)
    requires drop.Some? ==> drop.value.id in a.versions
    ensures Balance(a, c, drop)
  {
    hide Slack, Named;
    forall v | v in c.versions ensures Slack(c, v) == if v in a.versions then Slack(a, v) + Lost(drop, v) else 0 {
      assert v in b.versions ==> Slack(b, v) == Slack(b, v);
    }
  }

  lemma BalanceSelf(b: Books)
    requires Named(b)
    ensures Balance(b, b, None)
  {
  }

  lemma ReviewAppend(reviews: seq<Review>, r: Review, v: Id)
    ensures ReviewCount(reviews + [r], v) == ReviewCount(reviews, v) + if r.versionId == v then 1 else 0
  {
    assert (reviews + [r])[..|reviews|] == reviews;
  }

  lemma AuditAppend(audits: seq<Audit>, a: Audit, v: Id)
    ensures UpdateCount(audits + [a], v) == UpdateCount(audits, v) + if IsUpdateOf(a, v) then 1 else 0
  {
    assert (audits + [a])[..|audits|] == audits;
  }

  lemma {:induction false} NoReviews(reviews: seq<Review>, v: Id)
    requires forall i | 0 <= i < |reviews| :: reviews[i].versionId != v
    ensures ReviewCount(reviews, v) == 0
    decreases |reviews|
  {
    if |reviews| > 0 {
      NoReviews(reviews[..|reviews| - 1], v);
    }
  }

  lemma {:induction false} NoUpdates(audits: seq<Audit>, v: Id)
    requires forall i | 0 <= i < |audits| :: !IsUpdateOf(audits[i], v)
    ensures UpdateCount(audits, v) == 0
    decreases |audits|
  {
    if |audits| > 0 {
      NoUpdates(audits[..|audits| - 1], v);
    }
  }

  /** An audit that is not an update leaves the books as they are. */
  lemma BalanceAudit(b: Books, a: Audit)
    requires Named(b) && a.command != VersionUpdate
    ensures Balance(b, b.(audits := b.audits + [a]), None)
  {
    var after := b.(audits := b.audits + [a]);
    forall v | v in b.versions ensures Slack(after, v) == Slack(b, v) {
      AuditAppend(b.audits, a, v);
    }
  }

  /** One version moves with one review; what its row version does not grow by is dropped. */
  lemma BalanceMove(b: Books, id: Id, next: Version, r: Review)
    requires Named(b) && id in b.versions && r.versionId == id
    requires TombstoneCount(next) == TombstoneCount(b.versions[id])
    requires next.rowVersion <= b.versions[id].rowVersion + 1
    ensures var after := Books(b.versions[id := next], b.reviews + [r], b.audits);
            Balance(b, after, Short(id, b.versions[id].rowVersion + 1 - next.rowVersion))
  {
    var after := Books(b.versions[id := next], b.reviews + [r], b.audits);
    forall v | v in b.versions
      ensures v != id ==> Slack(after, v) == Slack(b, v)
      ensures v == id ==> Slack(after, v) == Slack(b, v) + b.versions[id].rowVersion + 1 - next.rowVersion
    {
      ReviewAppend(b.reviews, r, v);
    }
  }

  lemma BalanceInsert(b: Books, id: Id, row: Version)
    requires Named(b) && id !in b.versions && row.rowVersion == 1 && TombstoneCount(row) == 0
    ensures Balance(b, b.(versions := b.versions[id := row]), None)
  {
    var after := b.(versions := b.versions[id := row]);
    NoReviews(b.reviews, id);
    NoUpdates(b.audits, id);
    assert Slack(after, id) == 0;
    forall v | v in b.versions ensures Slack(after, v) == Slack(b, v) {
    }
  }

  lemma BalanceUpdate(b: Books, id: Id, next: Version, a: Audit)
    requires Named(b) && id in b.versions && IsUpdateOf(a, id)
    requires TombstoneCount(next) == TombstoneCount(b.versions[id])
    requires next.rowVersion == b.versions[id].rowVersion + 1
    ensures Balance(b, Books(b.versions[id := next], b.reviews, b.audits + [a]), None)
  {
    var after := Books(b.versions[id := next], b.reviews, b.audits + [a]);
    forall v | v in b.versions ensures Slack(after, v) == Slack(b, v) {
      AuditAppend(b.audits, a, v);
    }
  }

  // ----- commands

  lemma TransitionBalance(db: Db, operation: LifecycleOperation, actor: Id, id: Id, was: Version,
                          request: TransitionRequest, now: Time)
    requires Named(BooksOf(db)) && id in db.versions && was.rowVersion == db.versions[id].rowVersion
    ensures Balance(BooksOf(db), BooksOf(TransitionEffect(db, Config(operation), actor, id, was, request, now)), None)
  {
    hide Balance, Slack;
    var config := Config(operation);
    var after := TransitionEffect(db, config, actor, id, was, request, now);
    var next, r, a := after.versions[id], after.reviews[|db.reviews|], after.audits[|db.audits|];
    BalanceMove(BooksOf(db), id, next, r);
    var middle := Books(db.versions[id := next], db.reviews + [r], db.audits);
    NamedAfter(BooksOf(db), middle);
    BalanceAudit(middle, a);
    BalanceTwo(BooksOf(db), middle, BooksOf(after), None);
  }

  lemma NamedAfter(b: Books, after: Books)
    requires Balance(b, after, None)
    ensures Named(after)
  {
  }

  lemma ReplacedBalance(db: Db, actor: Id, q: Id, previous: Option<Id>, previousRow: nat, now: Time)
    requires Named(BooksOf(db))
    requires previous.Some? ==> previous.value in db.versions && db.versions[previous.value].rowVersion == previousRow
                                && db.versions[previous.value].retirement.None?
    ensures Balance(BooksOf(db), BooksOf(Replaced(db, actor, q, previous, previousRow, now)), None)
  {
    hide Balance, Slack;
    if previous.Some? {
      var after := Replaced(db, actor, q, previous, previousRow, now);
      BalanceMove(BooksOf(db), previous.value, after.versions[previous.value], after.reviews[|db.reviews|]);
    } else {
      BalanceSelf(BooksOf(db));
    }
  }

  /** A publication drops exactly what the target row has grown by since it was read. */
  lemma PublishBalance(db: Db, actor: Id, id: Id, q: Id, previous: Option<Id>, previousRow: nat,
                       versionRow: nat, questionRow: nat, approver: Account, now: Time)
    requires Named(BooksOf(db)) && id in db.versions && q in db.questions && db.versions[id].retirement.None?
    requires previous.Some? ==> previous.value in db.versions && previous.value != id
                                && db.versions[previous.value].rowVersion == previousRow
                                && db.versions[previous.value].retirement.None?
    requires versionRow <= db.versions[id].rowVersion
    ensures var after := PublishEffect(db, actor, id, q, previous, previousRow, versionRow, questionRow, approver, now);
            Balance(BooksOf(db), BooksOf(after), Short(id, db.versions[id].rowVersion - versionRow))
  {
    hide Balance, Slack;
    var first := Replaced(db, actor, q, previous, previousRow, now);
    var second := Released(first, actor, id, q, versionRow, approver, now);
    var after := PublishEffect(db, actor, id, q, previous, previousRow, versionRow, questionRow, approver, now);
    ReplacedBalance(db, actor, q, previous, previousRow, now);
    NamedAfter(BooksOf(db), BooksOf(first));
    BalanceMove(BooksOf(first), id, second.versions[id], second.reviews[|first.reviews|]);
    var drop := Short(id, db.versions[id].rowVersion - versionRow);
    BalanceTwo(BooksOf(db), BooksOf(first), BooksOf(second), drop);
    var a := after.audits[|db.audits|];
    assert BooksOf(after) == BooksOf(second).(audits := second.audits + [a]);
    BalanceThenAudit(BooksOf(db), BooksOf(second), a, drop);
  }

  lemma BalanceThenAudit(b: Books, m: Books, a: Audit, drop: Option<Drop>)
    requires Balance(b, m, drop) && a.command != VersionUpdate
    ensures Balance(b, m.(audits := m.audits + [a]), drop)
  {
    hide Slack;
    var after := m.(audits := m.audits + [a]);
    BalanceAudit(m, a);
    forall v | v in after.versions
      ensures Slack(after, v) == if v in b.versions then Slack(b, v) + Lost(drop, v) else 0
    {
      assert Slack(after, v) == Slack(m, v);
    }
  }

  lemma RetireBalance(db: Db, actor: Id, id: Id, q: Id, questionRow: nat, now: Time)
    requires Named(BooksOf(db)) && id in db.versions && q in db.questions && db.versions[id].retirement.None?
    ensures Balance(BooksOf(db), BooksOf(RetireEffect(db, actor, id, q, db.versions[id].rowVersion, questionRow, now)),
                    None)
  {
    hide Balance, Slack;
    var after := RetireEffect(db, actor, id, q, db.versions[id].rowVersion, questionRow, now);
    var next, r, a := after.versions[id], after.reviews[|db.reviews|], after.audits[|db.audits|];
    BalanceMove(BooksOf(db), id, next, r);
    BalanceThenAudit(BooksOf(db), Books(db.versions[id := next], db.reviews + [r], db.audits), a, None);
  }

  lemma ArchivedCurrentBalance(db: Db, actor: Id, questionId: Id, current: Option<Id>, rows: map<Id, Version>,
                               now: Time)
    requires Named(BooksOf(db))
    requires current.Some? ==> current.value in db.versions && current.value in rows
                               && rows[current.value].rowVersion == db.versions[current.value].rowVersion
                               && db.versions[current.value].retirement.None?
    ensures Balance(BooksOf(db), BooksOf(ArchivedCurrent(db, actor, questionId, current, rows, now)), None)
  {
    hide Balance, Slack;
    if current.Some? {
      var after := ArchivedCurrent(db, actor, questionId, current, rows, now);
      BalanceMove(BooksOf(db), current.value, after.versions[current.value], after.reviews[|db.reviews|]);
    } else {
      BalanceSelf(BooksOf(db));
    }
  }

  lemma ArchivedCandidateBalance(db: Db, actor: Id, questionId: Id, candidate: Option<Id>, rows: map<Id, Version>,
                                 now: Time)
    requires Named(BooksOf(db))
    requires candidate.Some? ==> candidate.value in db.versions && candidate.value in rows
                                 && rows[candidate.value] == db.versions[candidate.value]
                                 && db.versions[candidate.value].retirement.None?
    ensures Balance(BooksOf(db), BooksOf(ArchivedCandidate(db, actor, questionId, candidate, rows, now)), None)
  {
    hide Balance, Slack;
    if candidate.Some? {
      var after := ArchivedCandidate(db, actor, questionId, candidate, rows, now);
      BalanceMove(BooksOf(db), candidate.value, after.versions[candidate.value], after.reviews[|db.reviews|]);
    } else {
      BalanceSelf(BooksOf(db));
    }
  }

  lemma ArchiveBalance(db: Db, actor: Id, questionId: Id, questionRow: nat, current: Option<Id>, candidate: Option<Id>,
                       rows: map<Id, Version>, now: Time)
    requires Named(BooksOf(db)) && Archivable(db, questionId, current, candidate, rows)
    requires current.Some? ==> rows[current.value].rowVersion == db.versions[current.value].rowVersion
                               && db.versions[current.value].retirement.None?
    requires candidate.Some? ==> db.versions[candidate.value].retirement.None?
    ensures Balance(BooksOf(db),
                    BooksOf(ArchiveEffect(db, actor, questionId, questionRow, current, candidate, rows, now)), None)
  {
    hide Balance, Slack;
    var first := ArchivedCurrent(db, actor, questionId, current, rows, now);
    var second := ArchivedCandidate(first, actor, questionId, candidate, rows, now);
    var after := ArchiveEffect(db, actor, questionId, questionRow, current, candidate, rows, now);
    ArchivedCurrentBalance(db, actor, questionId, current, rows, now);
    NamedAfter(BooksOf(db), BooksOf(first));
    ArchivedCandidateBalance(first, actor, questionId, candidate, rows, now);
    BalanceTwo(BooksOf(db), BooksOf(first), BooksOf(second), None);
    var a := after.audits[|db.audits|];
    assert BooksOf(after) == BooksOf(second).(audits := second.audits + [a]);
    BalanceThenAudit(BooksOf(db), BooksOf(second), a, None);
  }

  lemma {:induction false} BatchBalance(db: Db, actor: Id, items: seq<BatchItem>, targets: map<Id, BatchTarget>,
                                        now: Time, k: nat)
    requires Inv(db) && actor in db.users && Named(BooksOf(db)) && k <= |items| && BatchReady(db, actor, items, targets)
    ensures Balance(BooksOf(db), BooksOf(BatchEffect(db, actor, items[..k], targets, now)), None)
    decreases k
  {
    hide Inv, Balance, Slack, Named, TransitionEffect;
    if k == 0 {
      BalanceSelf(BooksOf(db));
    } else {
      BatchBalance(db, actor, items, targets, now, k - 1);
      BatchEffectKeeps(db, actor, items, targets, now, k - 1);
      assert items[..k][..k - 1] == items[..k - 1];
      var before := BatchEffect(db, actor, items[..k - 1], targets, now);
      var item := items[k - 1];
      NamedAfter(BooksOf(db), BooksOf(before));
      TransitionBalance(before, RequestContentReview, actor, item.versionId, targets[item.versionId].version,
                        TransitionRequest(item.expected, None, item.comment), now);
      BalanceTwo(BooksOf(db), BooksOf(before), BooksOf(BatchEffect(db, actor, items[..k], targets, now)), None);
    }
  }

  lemma {:induction false} InsertItemsBalance(db: Db, actor: Id, items: seq<ImportItem>, k: nat)
    requires Inv(db) && HasAuthority(db, actor) && Named(BooksOf(db)) && k <= |items|
    requires ImportValid(db, items) && FreshKeys(db, items) && DistinctKeys(items)
    ensures Balance(BooksOf(db), BooksOf(InsertItems(db, actor, items[..k])), None)
    decreases k
  {
    hide Inv, ImportValid, HasAuthority, Balance, Imported, Slack, Named;
    if k == 0 {
      assert items[..0] == [];
      BalanceSelf(BooksOf(db));
    } else {
      InsertItemsBalance(db, actor, items, k - 1);
      InsertItemsKeeps(db, actor, items, k - 1);
      var before := InsertItems(db, actor, items[..k - 1]);
      assert items[..k][..k - 1] == items[..k - 1];
      NewKeysFresh(db, before, items, k - 1);
      NamedAfter(BooksOf(db), BooksOf(before));
      var item := items[k - 1];
      InsertQuestionBalance(before, actor, item.questionId, item.versionId, item.content);
      BalanceTwo(BooksOf(db), BooksOf(before), BooksOf(InsertItems(db, actor, items[..k])), None);
    }
  }

  lemma InsertQuestionBalance(db: Db, actor: Id, questionId: Id, versionId: Id, content: Content)
    requires Named(BooksOf(db)) && versionId !in db.versions
    ensures Balance(BooksOf(db), BooksOf(InsertQuestion(db, actor, questionId, versionId, content)), None)
  {
    hide Balance, Slack;
    var row := NewVersion(actor, questionId, 1, content);
    BalanceInsert(BooksOf(db), versionId, row);
    BalanceThenAudit(BooksOf(db), BooksOf(db).(versions := db.versions[versionId := row]),
                     InsertQuestion(db, actor, questionId, versionId, content).audits[|db.audits|], None);
  }

  // ----- erasure

  lemma {:induction false} ReviewCountErased(reviews: seq<Review>, user: Id, v: Id)
    ensures ReviewCount(EraseReviews(reviews, user), v) == ReviewCount(reviews, v)
    decreases |reviews|
  {
    if |reviews| > 0 {
      var n := |reviews| - 1;
      ReviewCountErased(reviews[..n], user, v);
      assert EraseReviews(reviews, user)[..n] == EraseReviews(reviews[..n], user);
    }
  }

  lemma {:induction false} UpdateCountErased(audits: seq<Audit>, user: Id, v: Id)
    ensures UpdateCount(EraseAudits(audits, user), v) == UpdateCount(audits, v)
    decreases |audits|
  {
    if |audits| > 0 {
      var n := |audits| - 1;
      UpdateCountErased(audits[..n], user, v);
      assert EraseAudits(audits, user)[..n] == EraseAudits(audits[..n], user);
    }
  }

  lemma {:induction false} AbandonBalance(db: Db, order: seq<Id>, user: Id, now: Time)
    requires Named(BooksOf(db))
    requires forall i | 0 <= i < |order| :: order[i] in db.versions && OpenAuthored(db.versions[order[i]], user)
    requires forall i, j | 0 <= i < j < |order| :: order[i] != order[j]
    requires forall i | 0 <= i < |order| :: TombstoneCount(db.versions[order[i]]) == 0
    ensures Balance(BooksOf(db), BooksOf(Abandon(db, order, user, now)), None)
    decreases |order|
  {
    hide Balance, Slack, Named;
    if |order| == 0 {
      BalanceSelf(BooksOf(db));
    } else {
      var n := |order| - 1;
      AbandonBalance(db, order[..n], user, now);
      AbandonRows(db, order[..n], user, now);
      var before := Abandon(db, order[..n], user, now);
      assert order[n] !in order[..n];
      var row := db.versions[order[n]];
      NamedAfter(BooksOf(db), BooksOf(before));
      BalanceMove(BooksOf(before), order[n], AbandonRow(row, now), AbandonReview(order[n], row, user, now));
      var middle := Books(before.versions[order[n] := AbandonRow(row, now)],
                          before.reviews + [AbandonReview(order[n], row, user, now)], before.audits);
      BalanceThenAudit(BooksOf(before), middle, AbandonAudit(order[n], row), None);
      BalanceTwo(BooksOf(db), BooksOf(before), BooksOf(Abandon(db, order, user, now)), None);
    }
  }

  /** The tombstone write of a closed version is the one the tombstone counts. */
  lemma EntombBalance(db: Db, user: Id, now: Time)
    requires Named(BooksOf(db)) && NoneOpen(db.versions, user)
    requires forall v | v in db.versions && AuthoredBy(db.versions[v].creator, user)
             && db.versions[v].creator.userId == Some(user) ::
               TombstoneCount(db.versions[v]) == 0 && db.versions[v].retirement != Some(AuthorErasureAbandoned)
    ensures Balance(BooksOf(db), BooksOf(Entomb(db, user, now)), None)
  {
    var after := BooksOf(Entomb(db, user, now));
    forall v | v in db.versions ensures Slack(after, v) == Slack(BooksOf(db), v) {
      ReviewCountErased(db.reviews, user, v);
      UpdateCountErased(db.audits, user, v);
    }
  }

  lemma LiveIsUntombed(db: Db, v: Id)
    requires Inv(db) && v in db.versions && db.versions[v].creator.userId.Some?
    ensures TombstoneCount(db.versions[v]) == 0 && db.versions[v].retirement != Some(AuthorErasureAbandoned)
  {
    HomeOf(db, v);
  }

  lemma EraseBalance(db: Db, user: Id, order: seq<Id>, now: Time)
    requires Inv(db) && Named(BooksOf(db)) && LockOrder(db, order, user) && user in db.users
    ensures Balance(BooksOf(db), BooksOf(CommitErase(db, user, order, now).value), None)
  {
    hide Inv, Balance, Slack, Named, TombstoneCount;
    forall v | v in db.versions && OpenAuthored(db.versions[v], user) ensures TombstoneCount(db.versions[v]) == 0 {
      OpenIsLive(db, v);
      LiveIsUntombed(db, v);
    }
    AbandonBalance(db, order, user, now);
    AbandonRows(db, order, user, now);
    var left := Abandon(db, order, user, now);
    LoopLeavesNoneOpen(db, order, user, now);
    forall v | v in left.versions && left.versions[v].creator.userId == Some(user)
      ensures TombstoneCount(left.versions[v]) == 0 && left.versions[v].retirement != Some(AuthorErasureAbandoned)
    {
      assert left.versions[v] == db.versions[v];
      LiveIsUntombed(db, v);
    }
    NamedAfter(BooksOf(db), BooksOf(left));
    EntombBalance(left, user, now);
    BalanceTwo(BooksOf(db), BooksOf(left), BooksOf(Entomb(left, user, now)), None);
    BalanceThenAudit(BooksOf(db), BooksOf(Entomb(left, user, now)),
                     Audit(ErasureAbandon, None, None, None, None, [AuthorTombstone]), None);
  }

  lemma OpenIsLive(db: Db, v: Id)
    requires Inv(db) && v in db.versions && OpenStatus(db.versions[v].status)
    ensures db.versions[v].creator.userId.Some?
  {
    hide AggregatesOk, ContentUnique, ReplaysOk, ReviewsLegal, ReportsOk, VersionsShaped;
    assert CandidateLive(db.users, db.versions[v]);
  }

  // ----- one transaction

  /** The two reads of a publication saw the target with one row version. */
  ghost predicate Coherent(h: seq<Db>, e: Event) {
    ReadTwice(h, e) ==> h[e.aggregateAt].versions[e.id].rowVersion == h[e.targetAt].versions[e.id].rowVersion
  }

  predicate ReadTwice(h: seq<Db>, e: Event) {
    e.Publish? && e.targetAt < |h| && e.aggregateAt < |h|
    && e.id in h[e.targetAt].versions && e.id in h[e.aggregateAt].versions
  }

  /** What a step takes from a row version: as much as the target grew between the two reads of a publication. */
  function DropOf(h: seq<Db>, e: Event): Option<Drop> {
    if ReadTwice(h, e) && h[e.aggregateAt].versions[e.id].rowVersion > h[e.targetAt].versions[e.id].rowVersion
    then Some(Drop(e.id, h[e.aggregateAt].versions[e.id].rowVersion - h[e.targetAt].versions[e.id].rowVersion))
    else None
  }

  /** The target is a stored version at both reads and at the commit, and has not changed since the second one. */
  lemma PublishRead(s: Db, g: Db, db: Db, actor: Id, id: Id, expectedQuestion: nat, expected: nat, now: Time)
    requires Inv(s) && Inv(g) && Inv(db) && Follows(s, g) && Follows(g, db)
    requires CommitPublish(db, actor, id, expectedQuestion, expected, LoadVersionTarget(s, id),
                           AggregateRead(g, LoadVersionTarget(s, id)), now).Ok?
    ensures id in s.versions && id in g.versions && id in db.versions
    ensures s.versions[id].rowVersion == expected <= g.versions[id].rowVersion == db.versions[id].rowVersion
  {
    hide Inv, Follows, CommitPublish, LoadLifecycleVersions;
    var target := LoadVersionTarget(s, id);
    var aggregate := AggregateRead(g, target);
    PublishFacts(db, actor, id, expectedQuestion, expected, target, aggregate, now);
    StalePublishRows(s, g, db, actor, id, expectedQuestion, expected, now);
    ApprovedStatus(db, actor, id, expectedQuestion, expected, target, aggregate, now);
    FollowsTwo(s, g, db);
    RowVersionGrew(s, db, id);
    AggregateRow(g, s.versions[id].questionId, id);
  }

  /** A publication takes from its target what the target has grown by since the expected row version. */
  lemma PublishTakes(db: Db, actor: Id, id: Id, expectedQuestion: nat, expected: nat,
                     target: Option<VersionTarget>, aggregate: map<Id, Version>, now: Time, next: Db)
    requires Inv(db) && Named(BooksOf(db)) && id in db.versions && expected <= db.versions[id].rowVersion
    requires CommitPublish(db, actor, id, expectedQuestion, expected, target, aggregate, now) == Ok(next)
    ensures Balance(BooksOf(db), BooksOf(next), Short(id, db.versions[id].rowVersion - expected))
  {
    hide Inv, CommitPublish, Balance, Slack, Named, PublishEffect, PublishReferenced, LoadVersionTarget;
    PublishFacts(db, actor, id, expectedQuestion, expected, target, aggregate, now);
    HomeOf(db, id);
    var previous := PreviousCurrent(target.value, aggregate);
    if previous.Some? { HomeOf(db, previous.value); }
    var previousRow := if previous.Some? then aggregate[previous.value].rowVersion else 0;
    PublishBalance(db, actor, id, target.value.version.questionId, previous, previousRow, expected, expectedQuestion,
                   target.value.approver.value, now);
  }

  lemma PublishCounts(s: Db, g: Db, db: Db, actor: Id, id: Id, expectedQuestion: nat, expected: nat, now: Time,
                      next: Db)
    requires Inv(s) && Inv(g) && Inv(db) && Follows(s, g) && Follows(g, db) && Named(BooksOf(db))
    requires CommitPublish(db, actor, id, expectedQuestion, expected, LoadVersionTarget(s, id),
                           AggregateRead(g, LoadVersionTarget(s, id)), now) == Ok(next)
    ensures id in s.versions && id in g.versions && s.versions[id].rowVersion <= g.versions[id].rowVersion
    ensures Balance(BooksOf(db), BooksOf(next), Short(id, g.versions[id].rowVersion - s.versions[id].rowVersion))
  {
    hide Inv, Follows, CommitPublish, Balance, Named, AggregateRead, LoadVersionTarget;
    PublishRead(s, g, db, actor, id, expectedQuestion, expected, now);
    var target := LoadVersionTarget(s, id);
    PublishTakes(db, actor, id, expectedQuestion, expected, target, AggregateRead(g, target), now, next);
  }

  lemma AggregateRow(g: Db, q: Id, id: Id)
    requires id in LoadLifecycleVersions(g, q)
    ensures id in g.versions && LoadLifecycleVersions(g, q)[id] == g.versions[id]
  {
  }

  lemma RowVersionGrew(s: Db, db: Db, id: Id)
    requires Follows(s, db) && id in s.versions && id in db.versions
    requires s.versions[id].status == db.versions[id].status
    ensures s.versions[id].rowVersion <= db.versions[id].rowVersion
  {
    assert VersionFollows(s.versions[id], db.versions[id]);
  }

  lemma CreateCounts(db: Db, e: Event, next: Db)
    requires (e.CreateQuestion? || e.Import?) && Inv(db) && Named(BooksOf(db)) && Commits([db], e, next)
    ensures Balance(BooksOf(db), BooksOf(next), None)
  {
    hide Inv, Arm, ContentCheck, ImportValid, Balance, Slack, Named, InsertItems;
    match e {
      case CreateQuestion(actor, questionId, versionId, content, seen) =>
        InsertQuestionBalance(db, actor, questionId, versionId, content);
      case Import(actor, imported, validSeen) =>
        InsertItemsBalance(db, actor, imported, |imported|);
        assert imported[..|imported|] == imported;
        BalanceThenAudit(BooksOf(db), BooksOf(InsertItems(db, actor, imported)), next.audits[|next.audits| - 1], None);
    }
  }

  lemma CreateVersionCounts(db: Db, actor: Id, questionId: Id, versionId: Id, expected: nat, content: Content,
                            target: Option<QuestionTarget>, seen: ContentSeen, next: Db)
    requires Named(BooksOf(db))
    requires CommitCreateVersion(db, actor, questionId, versionId, expected, content, target, seen) == Ok(next)
    ensures Balance(BooksOf(db), BooksOf(next), None)
  {
    hide CommitCreateVersion, Balance, Slack, Named, ContentCheck;
    CreateVersionFacts(db, actor, questionId, versionId, expected, content, target, seen);
    var row := NewVersion(actor, questionId, target.value.maximum + 1, content);
    BalanceInsert(BooksOf(db), versionId, row);
    BalanceThenAudit(BooksOf(db), BooksOf(db).(versions := db.versions[versionId := row]), next.audits[|db.audits|],
                     None);
  }

  lemma UpdateCounts(db: Db, actor: Id, id: Id, expected: nat, content: Content, target: Option<VersionTarget>,
                     options: map<Id, Choice>, tagsRead: set<Id>, seen: ContentSeen, next: Db)
    requires Named(BooksOf(db))
    requires CommitUpdate(db, actor, id, expected, content, target, options, tagsRead, seen) == Ok(next)
    ensures Balance(BooksOf(db), BooksOf(next), None)
  {
    hide CommitUpdate, Balance, Slack, Named, ContentCheck, ChangedFields;
    UpdateFacts(db, actor, id, expected, content, target, options, tagsRead, seen);
    BalanceUpdate(BooksOf(db), id, next.versions[id], next.audits[|db.audits|]);
  }

  lemma TransitionCounts(db: Db, operation: LifecycleOperation, actor: Id, id: Id, request: TransitionRequest,
                         target: Option<VersionTarget>, now: Time, next: Db)
    requires Named(BooksOf(db)) && CommitTransition(db, operation, actor, id, request, target, now) == Ok(next)
    ensures Balance(BooksOf(db), BooksOf(next), None)
  {
    hide CommitTransition, Balance, Slack, Named;
    TransitionFacts(db, operation, actor, id, request, target, now);
    TransitionBalance(db, operation, actor, id, target.value.version, request, now);
  }

  lemma RetireCounts(db: Db, actor: Id, id: Id, expectedQuestion: nat, expected: nat, target: Option<VersionTarget>,
                     now: Time, next: Db)
    requires Inv(db) && Named(BooksOf(db))
             && CommitRetire(db, actor, id, expectedQuestion, expected, target, now) == Ok(next)
    ensures Balance(BooksOf(db), BooksOf(next), None)
  {
    hide Inv, CommitRetire, Balance, Slack, Named;
    RetireFacts(db, actor, id, expectedQuestion, expected, target, now);
    HomeOf(db, id);
    RetireBalance(db, actor, id, db.versions[id].questionId, expectedQuestion, now);
  }

  lemma ArchiveCounts(s: Db, g: Db, db: Db, actor: Id, questionId: Id, request: ArchiveRequest,
                      target: Option<QuestionTarget>, now: Time, next: Db)
    requires Inv(g) && Inv(db) && Follows(s, g) && Follows(g, db) && IsQuestionTarget(s, questionId, target)
    requires Named(BooksOf(db))
    requires CommitArchive(db, actor, questionId, request, target, LoadLifecycleVersions(g, questionId), now)
             == Ok(next)
    ensures Balance(BooksOf(db), BooksOf(next), None)
  {
    hide Inv, Follows, CommitArchive, CandidateExpected, CandidateOf, OpenCandidates, IsQuestionTarget,
         AuthorSnapshot, Balance, Slack, Named, ArchiveEffect;
    StaleArchive(s, g, db, actor, questionId, request, target, now);
    var aggregate := LoadLifecycleVersions(db, questionId);
    ArchiveFacts(db, actor, questionId, request, target, aggregate, now);
    ArchiveWrites(db, actor, questionId, request, target, aggregate, now);
    ArchiveReads(db, questionId, target);
    var current, candidate := ArchiveCurrent(target.value, aggregate), CandidateOf(aggregate);
    ArchiveRowsFit(db, questionId, request, current, aggregate);
    if current.Some? { HomeOf(db, current.value); }
    if candidate.Some? { HomeOf(db, candidate.value); }
    ArchiveBalance(db, actor, questionId, request.expected, current, candidate, aggregate, now);
  }

  lemma BatchCounts(s: Db, db: Db, actor: Id, items: seq<BatchItem>, now: Time, next: Db)
    requires Inv(db) && Follows(s, db) && Named(BooksOf(db))
    requires CommitReviewBatch(db, actor, items, LoadBatchTargets(s, items), now) == Ok(next)
    ensures Balance(BooksOf(db), BooksOf(next), None)
  {
    hide Inv, Follows, CommitReviewBatch, BatchReady, LoadBatchTargets, BatchEffect, Balance, Slack, Named;
    StaleBatch(s, db, actor, items, now);
    var targets := LoadBatchTargets(db, items);
    BatchIsReady(db, actor, items, now);
    BatchWrites(db, actor, items, targets, now);
    BatchBalance(db, actor, items, targets, now, |items|);
    assert items[..|items|] == items;
    BalanceThenAudit(BooksOf(db), BooksOf(BatchEffect(db, actor, items, targets, now)), next.audits[|next.audits| - 1],
                     None);
  }

  lemma ReportCounts(db: Db, next: Db, a: Audit)
    requires Named(BooksOf(db)) && a.command != VersionUpdate
    requires BooksOf(next) == BooksOf(db).(audits := db.audits + [a])
    ensures Balance(BooksOf(db), BooksOf(next), None)
  {
    hide Balance, Slack, Named;
    BalanceAudit(BooksOf(db), a);
  }

  lemma TriageCounts(db: Db, actor: Id, id: Id, expected: nat, target: Option<ReportTarget>, next: Db)
    requires Named(BooksOf(db)) && CommitTriage(db, actor, id, expected, target) == Ok(next)
    ensures Balance(BooksOf(db), BooksOf(next), None)
  {
    hide Balance, Named, CommitTriage;
    CommandPreservation.TriageFacts(db, actor, id, expected, target);
    ReportCounts(db, next, next.audits[|db.audits|]);
  }

  lemma ResolveCounts(db: Db, actor: Id, id: Id, request: ResolveRequest, outer: set<Id>, target: Option<ReportTarget>,
                      remediation: Option<Version>, now: Time, next: Db)
    requires Named(BooksOf(db)) && CommitResolve(db, actor, id, request, outer, target, remediation, now) == Ok(next)
    ensures Balance(BooksOf(db), BooksOf(next), None)
  {
    hide Balance, Named, CommitResolve;
    CommandPreservation.ResolveFacts(db, actor, id, request, outer, target, remediation, now);
    ReportCounts(db, next, next.audits[|db.audits|]);
  }

  lemma OtherCounts(db: Db, e: Event, next: Db)
    requires e.SignUp? || e.SetRole? || e.RequestErasure? || e.Pin? || e.SubmitReport? || e.RedactReport?
    requires Named(BooksOf(db)) && Commits([db], e, next)
    ensures Balance(BooksOf(db), BooksOf(next), None)
  {
    hide Balance, Slack, Named, NewReport, OpenVersionsOf, CommitCreateQuestion, CommitCreateVersion, CommitUpdate,
         CommitTransition, CommitPublish, CommitRetire, CommitArchive, CommitReviewBatch, CommitImport, CommitTriage,
         CommitResolve, LoadVersionTarget, IsQuestionTarget, LoadReportTarget, LoadBatchTargets, LoadLifecycleVersions,
         VersionRow, LockOrder, CommitErase;
    BalanceSelf(BooksOf(db));
  }

  /**
    * Any committed transaction keeps the count of every version, but a
    * publication whose reads disagree: it takes from its target exactly what the
    * target grew by between them.
    */
  lemma StepCounts(h: seq<Db>, e: Event, next: Db)
    requires History(h) && Commits(h, e, next) && Named(BooksOf(h[|h| - 1]))
    ensures Balance(BooksOf(h[|h| - 1]), BooksOf(next), DropOf(h, e))
    ensures e.Publish? ==>
              ReadTwice(h, e) && h[e.targetAt].versions[e.id].rowVersion <= h[e.aggregateAt].versions[e.id].rowVersion
  {
    hide Inv, Follows, Balance, Slack, Named, LoadVersionTarget, IsQuestionTarget, LoadReportTarget, LoadBatchTargets,
         LoadLifecycleVersions, VersionRow, LockOrder, CommitErase, OpenVersionsOf, NewReport, CommitCreateQuestion,
         CommitCreateVersion, CommitUpdate, CommitTransition, CommitPublish, CommitRetire, CommitArchive,
         CommitReviewBatch, CommitImport, CommitTriage, CommitResolve;
    var db := h[|h| - 1];
    match e {
      case CreateQuestion(_, _, _, _, _) => CreateCounts(db, e, next);
      case CreateVersion(actor, questionId, versionId, expected, content, target, seen, targetAt) =>
        CreateVersionCounts(db, actor, questionId, versionId, expected, content, target, seen, next);
      case Update(actor, id, expected, content, seen, targetAt, optionsAt, tagsAt) =>
        UpdateCounts(db, actor, id, expected, content, LoadVersionTarget(h[targetAt], id),
                     OptionsRead(h[optionsAt], id), TagsRead(h[tagsAt], id), seen, next);
      case Transition(operation, actor, id, request, targetAt, now) =>
        TransitionCounts(db, operation, actor, id, request, LoadVersionTarget(h[targetAt], id), now, next);
      case Publish(actor, id, expectedQuestion, expected, targetAt, aggregateAt, now) =>
        PublishCounts(h[targetAt], h[aggregateAt], db, actor, id, expectedQuestion, expected, now, next);
      case Retire(actor, id, expectedQuestion, expected, targetAt, now) =>
        RetireCounts(db, actor, id, expectedQuestion, expected, LoadVersionTarget(h[targetAt], id), now, next);
      case Archive(actor, questionId, archival, target, targetAt, aggregateAt, now) =>
        ArchiveCounts(h[targetAt], h[aggregateAt], db, actor, questionId, archival, target, now, next);
      case RequestBatch(actor, items, targetAt, now) =>
        BatchCounts(h[targetAt], db, actor, items, now, next);
      case Import(_, _, _) => CreateCounts(db, e, next);
      case Triage(actor, id, expected, targetAt) =>
        TriageCounts(db, actor, id, expected, LoadReportTarget(h[targetAt], id), next);
      case Resolve(actor, id, resolution, outer, targetAt, remediationAt, now) =>
        ResolveCounts(db, actor, id, resolution, outer, LoadReportTarget(h[targetAt], id),
                      VersionRow(h[remediationAt], resolution.remediation), now, next);
      case Erase(user, order, now) => EraseCounts(db, user, order, now, next);
      case _ => OtherCounts(db, e, next);
    }
  }

  lemma EraseCounts(db: Db, user: Id, order: seq<Id>, now: Time, next: Db)
    requires Inv(db) && Named(BooksOf(db)) && LockOrder(db, order, user)
             && CommitErase(db, user, order, now) == Some(next)
    ensures Balance(BooksOf(db), BooksOf(next), None)
  {
    hide Inv, Balance, Slack, Named, LockOrder;
    EraseBalance(db, user, order, now);
  }

  // ----- runs

  /** What the first k steps have taken from the row version of a version. */
  function TotalDrop(h: seq<Db>, events: seq<Event>, k: nat, v: Id): nat
    requires |h| == |events| + 1 && k <= |events|
  {
    if k == 0 then 0 else TotalDrop(h, events, k - 1, v) + Lost(DropOf(h[..k], events[k - 1]), v)
  }

  ghost predicate Accounted(h: seq<Db>, events: seq<Event>, k: nat, v: Id)
    requires |h| == |events| + 1 && k <= |events|
  {
    TotalDrop(h, events, k, v) == if v in h[k].versions then Slack(BooksOf(h[k]), v) else 0
  }

  /** Every publication of the version among the first k events had reads that agree. */
  ghost predicate CoherentFor(h: seq<Db>, events: seq<Event>, k: nat, v: Id)
    requires |h| == |events| + 1 && k <= |events|
  {
    forall i | 0 <= i < k && events[i].Publish? && events[i].id == v :: Coherent(h[..i + 1], events[i])
  }

  lemma BalanceAdds(b: Books, after: Books, drop: Option<Drop>, v: Id, total: nat)
    requires Balance(b, after, drop) && total == if v in b.versions then Slack(b, v) else 0
    ensures Named(after)
    ensures total + Lost(drop, v) == if v in after.versions then Slack(after, v) else 0
  {
    assert v in after.versions ==> Slack(after, v) == if v in b.versions then Slack(b, v) + Lost(drop, v) else 0;
  }

  lemma {:induction false} RunCounts(h: seq<Db>, events: seq<Event>, k: nat, v: Id)
    requires Run(h, events) && k <= |events|
    ensures Named(BooksOf(h[k])) && Accounted(h, events, k, v)
    ensures TotalDrop(h, events, k, v) == 0 <==> CoherentFor(h, events, k, v)
    decreases k
  {
    hide Inv, Follows, Commits, Named, Slack, Balance;
    if k == 0 {
      SeedCounts(h[0], v);
    } else {
      RunCounts(h, events, k - 1, v);
      RunHistory(h, events, k - 1);
      assert Stepped(h, events, k - 1);
      StepCounts(h[..k], events[k - 1], h[k]);
      BalanceAdds(BooksOf(h[k - 1]), BooksOf(h[k]), DropOf(h[..k], events[k - 1]), v, TotalDrop(h, events, k - 1, v));
      OneMoreEvent(h, events, k, v);
    }
  }

  lemma OneMoreEvent(h: seq<Db>, events: seq<Event>, k: nat, v: Id)
    requires |h| == |events| + 1 && 0 < k <= |events|
    requires var e, g := events[k - 1], h[..k];
             e.Publish? ==>
               ReadTwice(g, e) && g[e.targetAt].versions[e.id].rowVersion <= g[e.aggregateAt].versions[e.id].rowVersion
    ensures CoherentFor(h, events, k, v) <==>
              CoherentFor(h, events, k - 1, v) && Lost(DropOf(h[..k], events[k - 1]), v) == 0
  {
    hide Coherent, DropOf, ReadTwice;
    assert h[..(k - 1) + 1] == h[..k];
    if events[k - 1].Publish? {
      CoherentDropsNothing(h[..k], events[k - 1]);
    } else {
      OnlyPublicationsDrop(h[..k], events[k - 1]);
    }
  }

  lemma OnlyPublicationsDrop(h: seq<Db>, e: Event)
    ensures !e.Publish? ==> DropOf(h, e).None?
  {
  }

  lemma CoherentDropsNothing(h: seq<Db>, e: Event)
    requires ReadTwice(h, e) && h[e.targetAt].versions[e.id].rowVersion <= h[e.aggregateAt].versions[e.id].rowVersion
    ensures Coherent(h, e) <==> Lost(DropOf(h, e), e.id) == 0
    ensures forall v | v != e.id :: Lost(DropOf(h, e), v) == 0
  {
  }

  lemma SeedCounts(db: Db, v: Id)
    requires Seeded(db)
    ensures Named(BooksOf(db)) && (v in db.versions ==> Slack(BooksOf(db), v) == 0)
  {
    hide ContentUnique, VersionsShaped;
  }

  /**
    * In every state of every run a row version and what publications took from
    * it make up the number of writes; so the row version is that number exactly
    * when every publication of this version had reads that agree.
    */
  lemma RowVersionsCountWrites(h: seq<Db>, events: seq<Event>, k: nat, v: Id)
    requires Run(h, events) && k < |h| && v in h[k].versions
    ensures h[k].versions[v].rowVersion + TotalDrop(h, events, k, v) == Tally(BooksOf(h[k]), v)
    ensures h[k].versions[v].rowVersion == Tally(BooksOf(h[k]), v) <==> CoherentFor(h, events, k, v)
  {
    hide Stepped, Seeded, Coherent, Tally, Named, CoherentFor, TotalDrop;
    RunCounts(h, events, k, v);
  }
}
