/**
  * Erasing one user: the open versions of the author are retired with review
  * evidence, and every live reference to the user becomes a tombstone.
  */
module AccountErasure {
  import opened Common
  import opened ContentTables
  import opened ContentCommands

  predicate AuthoredBy(c: Creator, user: Id) {
    c.actorId == Some(user)
  }

  predicate OpenAuthored(row: Version, user: Id) {
    AuthoredBy(row.creator, user) && OpenStatus(row.status)
  }

  function OpenVersionsOf(db: Db, user: Id): set<Id> {
    set v | v in db.versions && OpenAuthored(db.versions[v], user)
  }

  function Tombstone(c: Creator): Creator {
    c.(userId := None, standing := DeletedAdmin)
  }

  /** An open version of the author is abandoned. */
  function AbandonRow(row: Version, now: Time): Version {
    row.(status := Retired, retirement := Some(AuthorErasureAbandoned), retiredAt := Some(now),
         rowVersion := row.rowVersion + 1, creator := Tombstone(row.creator))
  }

  /** What erasure does to one version row. */
  function EraseVersion(row: Version, user: Id, now: Time): Version {
    if OpenAuthored(row, user) then AbandonRow(row, now)
    else if AuthoredBy(row.creator, user) && row.creator.userId == Some(user) then
      row.(creator := Tombstone(row.creator), rowVersion := row.rowVersion + 1)
    else row
  }

  predicate AbandonedAt(row: Version, questionId: Id, now: Time) {
    row.questionId == questionId && row.retirement == Some(AuthorErasureAbandoned) && row.retiredAt == Some(now)
  }

  /** What erasure does to one question row, given the versions already erased. */
  function EraseQuestion(row: Question, id: Id, versions: map<Id, Version>, user: Id, now: Time): Question {
    if AuthoredBy(row.creator, user) then row.(creator := Tombstone(row.creator), rowVersion := row.rowVersion + 1)
    else if exists v | v in versions :: AbandonedAt(versions[v], id, now) then row.(rowVersion := row.rowVersion + 1)
    else row
  }

  function EraseStanding(s: Label): Label {
    if s == ActiveUser || s == DeletedUser then DeletedUser else DeletedAdmin
  }

  function EraseAccount(a: Account, user: Id): Account {
    if a.actorId == user then Account(None, a.actorId, EraseStanding(a.standing)) else a
  }

  function EraseOptional(a: Option<Account>, user: Id): Option<Account> {
    if a.Some? then Some(EraseAccount(a.value, user)) else None
  }

  function EraseReview(r: Review, user: Id): Review {
    r.(actor := EraseOptional(r.actor, user), counterpart := EraseOptional(r.counterpart, user))
  }

  function EraseReviews(reviews: seq<Review>, user: Id): (r: seq<Review>)
    ensures |r| == |reviews|
    ensures forall i | 0 <= i < |r| :: r[i] == EraseReview(reviews[i], user)
  {
    seq(|reviews|, i requires 0 <= i < |reviews| => EraseReview(reviews[i], user))
  }

  function EraseAudits(audits: seq<Audit>, user: Id): (r: seq<Audit>)
    ensures |r| == |audits|
    ensures forall i | 0 <= i < |r| :: r[i] == audits[i].(actor := EraseOptional(audits[i].actor, user))
  {
    seq(|audits|, i requires 0 <= i < |audits| => audits[i].(actor := EraseOptional(audits[i].actor, user)))
  }

  function EraseReport(r: Report, user: Id): Report {
    var filed := r.reporter.actorId == user;
    var handled := r.assignee.Some? && r.assignee.value.actorId == user;
    if filed || handled then
      r.(reporter := EraseAccount(r.reporter, user),
         assignee := if handled then Some(Account(None, user, DeletedAdmin)) else r.assignee,
         description := if filed then None else r.description, rowVersion := r.rowVersion + 1)
    else r
  }

  /** The SYSTEM review of one abandoned version. */
  function AbandonReview(id: Id, row: Version, user: Id, now: Time): Review {
    Review(id, row.questionId, ErasureAbandoned, row.status, Retired, None,
           Some(Account(None, user, DeletedAdmin)), Some(AuthorErasure), None, now)
  }

  function AbandonAudit(id: Id, row: Version): Audit {
    Audit(ErasureAbandon, Some(id), None, Some(row.rowVersion), Some(row.rowVersion + 1),
          [VersionStatus, AuthorTombstone])
  }

  /** The abandonment loop over the locked open versions, in lock order. */
  function Abandon(db: Db, order: seq<Id>, user: Id, now: Time): (r: Db)
    requires forall i | 0 <= i < |order| :: order[i] in db.versions
    ensures r.versions.Keys == db.versions.Keys
    decreases |order|
  {
    if |order| == 0 then db
    else
      var n := |order| - 1;
      var before := Abandon(db, order[..n], user, now);
      var row := db.versions[order[n]];
      WithAudit(
        WithReview(
          WithVersion(before, order[n], AbandonRow(row, now)),
          AbandonReview(order[n], row, user, now)),
        AbandonAudit(order[n], row))
  }

  predicate LockOrder(db: Db, order: seq<Id>, user: Id) {
    && (forall i | 0 <= i < |order| :: order[i] in OpenVersionsOf(db, user))
    && (forall v | v in OpenVersionsOf(db, user) :: v in order)
    && (forall i, j | 0 <= i < j < |order| :: order[i] != order[j])
  }

  function ErasedVersions(versions: map<Id, Version>, user: Id, now: Time): map<Id, Version> {
    map v | v in versions :: EraseVersion(versions[v], user, now)
  }

  function ErasedQuestions(questions: map<Id, Question>, versions: map<Id, Version>, user: Id,
                           now: Time): map<Id, Question>
  {
    map q | q in questions :: EraseQuestion(questions[q], q, versions, user, now)
  }

  function ErasedReports(reports: map<Id, Report>, user: Id): map<Id, Report> {
    map r | r in reports :: EraseReport(reports[r], user)
  }

  /** The tombstone statements after the loop, and the deletion of the user row. */
  function Entomb(db: Db, user: Id, now: Time): Db {
    var versions := ErasedVersions(db.versions, user, now);
    db.(versions := versions,
        questions := ErasedQuestions(db.questions, versions, user, now),
        reviews := EraseReviews(db.reviews, user),
        audits := EraseAudits(db.audits, user),
        reports := ErasedReports(db.reports, user),
        users := db.users - {user},
        erased := db.erased + {user})
  }

  /** Erasing a confirmed user; None when the user row is gone already. */
  function CommitErase(db: Db, user: Id, order: seq<Id>, now: Time): Option<Db>
    requires LockOrder(db, order, user)
  {
    if user !in db.users then None
    else
      var entombed := Entomb(Abandon(db, order, user, now), user, now);
      Some(if |order| == 0 then entombed
           else WithAudit(entombed, Audit(ErasureAbandon, None, None, None, None, [AuthorTombstone])))
  }
}
