/**
  * What erasing a user does to every row, said on the rows: the free text of the
  * user goes, every live reference to the user becomes a tombstone, the open
  * versions of the user are closed, and nothing else changes.
  */
module ErasureRows {
  import opened Common
  import opened ContentTables
  import opened AccountErasure
  import opened ContentInvariant
  import opened ContentPreservation
  import opened ErasurePreservation

  // ----- one row of each table

  /** The account no longer names a live user; it keeps its actor and the deleted label of its role. */
  ghost predicate DeletedForm(was: Account, next: Account) {
    && next.userId.None? && next.actorId == was.actorId
    && (was.standing in {ActiveUser, DeletedUser} ==> next.standing == DeletedUser)
    && (was.standing in {ActiveAdmin, DeletedAdmin} ==> next.standing == DeletedAdmin)
  }

  /** Nothing changes about an account but that of the user. */
  ghost predicate AccountAfter(was: Account, next: Account, user: Id) {
    if was.actorId == user then DeletedForm(was, next) else next == was
  }

  ghost predicate OptionalAfter(was: Option<Account>, next: Option<Account>, user: Id) {
    if was.Some? then next.Some? && AccountAfter(was.value, next.value, user) else next.None?
  }

  /** The creator is known by the actor only. */
  ghost predicate CreatorGone(was: Creator, next: Creator) {
    next == Creator(None, was.actorId, DeletedAdmin)
  }

  ghost predicate VersionAfter(was: Version, next: Version, user: Id, now: Time) {
    if was.creator.actorId != Some(user) then next == was
    else
      && CreatorGone(was.creator, next.creator)
      && (if was.status == Published || was.status == Retired
          then next == was.(creator := next.creator, rowVersion := was.rowVersion + 1)
          else next == was.(creator := next.creator, rowVersion := was.rowVersion + 1, status := Retired,
                            retirement := Some(AuthorErasureAbandoned), retiredAt := Some(now)))
  }

  /** Whether a version of the question was closed by an erasure at this moment. */
  ghost predicate LosesVersion(versions: map<Id, Version>, q: Id, user: Id, now: Time) {
    exists v ::
      && v in versions && versions[v].questionId == q
      && (|| (versions[v].creator.actorId == Some(user)
              && versions[v].status != Published && versions[v].status != Retired)
          || (versions[v].retirement == Some(AuthorErasureAbandoned) && versions[v].retiredAt == Some(now)))
  }

  ghost predicate QuestionAfter(db: Db, q: Id, next: Question, user: Id, now: Time)
    requires q in db.questions
  {
    var was := db.questions[q];
    if was.creator.actorId == Some(user) then
      CreatorGone(was.creator, next.creator)
      && next == was.(creator := next.creator, rowVersion := was.rowVersion + 1)
    else next == if LosesVersion(db.versions, q, user, now) then was.(rowVersion := was.rowVersion + 1) else was
  }

  /**
    * The reporter's text goes with the reporter; a report the user only handled
    * keeps its text and its reporter and loses the handler; any other report stays.
    */
  ghost predicate ReportAfter(was: Report, next: Report, user: Id) {
    var filed := was.reporter.actorId == user;
    var handled := was.assignee.Some? && was.assignee.value.actorId == user;
    && AccountAfter(was.reporter, next.reporter, user)
    && next.description == (if filed then None else was.description)
    && next.assignee == (if handled then Some(Account(None, user, DeletedAdmin)) else was.assignee)
    && next.rowVersion == was.rowVersion + (if filed || handled then 1 else 0)
    && next == was.(reporter := next.reporter, description := next.description, assignee := next.assignee,
                    rowVersion := next.rowVersion)
  }

  ghost predicate ReviewAfter(was: Review, next: Review, user: Id) {
    && OptionalAfter(was.actor, next.actor, user) && OptionalAfter(was.counterpart, next.counterpart, user)
    && next == was.(actor := next.actor, counterpart := next.counterpart)
  }

  ghost predicate AuditAfter(was: Audit, next: Audit, user: Id) {
    OptionalAfter(was.actor, next.actor, user) && next == was.(actor := next.actor)
  }

  // ----- the logs

  /** The SYSTEM evidence that a version of the user was given up. */
  ghost predicate GivenUp(id: Id, was: Version, r: Review, a: Audit, user: Id, now: Time) {
    && r == Review(id, was.questionId, ErasureAbandoned, was.status, Retired, None,
                   Some(Account(None, user, DeletedAdmin)), Some(AuthorErasure), None, now)
    && a == Audit(ErasureAbandon, Some(id), None, Some(was.rowVersion), Some(was.rowVersion + 1),
                  [VersionStatus, AuthorTombstone])
  }

  /** Each closed version has its review and its audit row at its place behind the old ones. */
  ghost predicate Evidence(db: Db, reviews: seq<Review>, audits: seq<Audit>, user: Id, order: seq<Id>, now: Time)
    requires forall i | 0 <= i < |order| :: order[i] in db.versions
  {
    && |reviews| >= |db.reviews| + |order| && |audits| >= |db.audits| + |order|
    && forall i | 0 <= i < |order| ::
         GivenUp(order[i], db.versions[order[i]], reviews[|db.reviews| + i], audits[|db.audits| + i], user, now)
  }

  /** The logs keep their rows but for the user's name, and grow by one row of evidence for each closed version. */
  ghost predicate LogsAfter(db: Db, next: Db, user: Id, order: seq<Id>, now: Time)
    requires forall i | 0 <= i < |order| :: order[i] in db.versions
  {
    && |next.reviews| == |db.reviews| + |order|
    && |next.audits| == |db.audits| + |order| + (if |order| == 0 then 0 else 1)
    && (forall i | 0 <= i < |db.reviews| :: ReviewAfter(db.reviews[i], next.reviews[i], user))
    && (forall i | 0 <= i < |db.audits| :: AuditAfter(db.audits[i], next.audits[i], user))
    && Evidence(db, next.reviews, next.audits, user, order, now)
    && (|order| > 0 ==>
          next.audits[|next.audits| - 1] == Audit(ErasureAbandon, None, None, None, None, [AuthorTombstone]))
  }

  /** The loop only appends evidence, in lock order. */
  ghost predicate Appended(db: Db, after: Db, user: Id, order: seq<Id>, now: Time)
    requires forall i | 0 <= i < |order| :: order[i] in db.versions
  {
    && |after.reviews| == |db.reviews| + |order| && after.reviews[..|db.reviews|] == db.reviews
    && |after.audits| == |db.audits| + |order| && after.audits[..|db.audits|] == db.audits
    && Evidence(db, after.reviews, after.audits, user, order, now)
  }

  lemma {:induction false} AbandonAppends(db: Db, order: seq<Id>, user: Id, now: Time)
    requires forall i | 0 <= i < |order| :: order[i] in db.versions
    ensures Appended(db, Abandon(db, order, user, now), user, order, now)
    decreases |order|
  {
    hide AbandonRow, AbandonReview, AbandonAudit, Evidence;
    if |order| > 0 {
      var n := |order| - 1;
      AbandonAppends(db, order[..n], user, now);
      var before := Abandon(db, order[..n], user, now);
      EvidenceGrows(db, before.reviews, before.audits, user, order, now);
    } else {
      assert Evidence(db, db.reviews, db.audits, user, order, now) by {
        NoEvidence(db, user, order, now);
      }
    }
  }

  lemma NoEvidence(db: Db, user: Id, order: seq<Id>, now: Time)
    requires order == []
    ensures Evidence(db, db.reviews, db.audits, user, order, now)
  {
  }

  lemma EvidenceGrows(db: Db, reviews: seq<Review>, audits: seq<Audit>, user: Id, order: seq<Id>, now: Time)
    requires (forall i | 0 <= i < |order| :: order[i] in db.versions) && |order| > 0
    requires |reviews| == |db.reviews| + |order| - 1 && |audits| == |db.audits| + |order| - 1
    requires Evidence(db, reviews, audits, user, order[..|order| - 1], now)
    ensures var id := order[|order| - 1];
            Evidence(db, reviews + [AbandonReview(id, db.versions[id], user, now)],
                     audits + [AbandonAudit(id, db.versions[id])], user, order, now)
  {
    var n := |order| - 1;
    EvidenceIsGiven(order[n], db.versions[order[n]], user, now);
    hide GivenUp, AbandonReview, AbandonAudit;
    assert forall i | 0 <= i < n :: order[..n][i] == order[i];
  }

  lemma EvidenceIsGiven(id: Id, row: Version, user: Id, now: Time)
    ensures GivenUp(id, row, AbandonReview(id, row, user, now), AbandonAudit(id, row), user, now)
  {
  }

  /** The new evidence already names the user as deleted. */
  lemma EvidenceStays(id: Id, row: Version, r: Review, a: Audit, user: Id, now: Time)
    requires GivenUp(id, row, r, a, user, now)
    ensures GivenUp(id, row, EraseReview(r, user), a.(actor := EraseOptional(a.actor, user)), user, now)
  {
  }

  lemma ErasedReview(r: Review, user: Id)
    ensures ReviewAfter(r, EraseReview(r, user), user)
  {
  }

  lemma ErasedAudit(a: Audit, user: Id)
    ensures AuditAfter(a, a.(actor := EraseOptional(a.actor, user)), user)
  {
  }

  lemma LogsEntombed(db: Db, order: seq<Id>, user: Id, now: Time)
    requires LockOrder(db, order, user) && user in db.users
    ensures forall i | 0 <= i < |order| :: order[i] in db.versions
    ensures var left, next := Abandon(db, order, user, now), CommitErase(db, user, order, now).value;
            && next.reviews == EraseReviews(left.reviews, user)
            && next.audits
               == EraseAudits(left.audits, user)
                  + if |order| == 0 then [] else [Audit(ErasureAbandon, None, None, None, None, [AuthorTombstone])]
  {
    OrderIsStored(db, order, user);
    hide LockOrder, Abandon, ErasedVersions, ErasedQuestions, ErasedReports, EraseReviews, EraseAudits;
  }

  lemma ReviewsKept(was: seq<Review>, left: seq<Review>, user: Id)
    requires was <= left
    ensures forall i | 0 <= i < |was| :: ReviewAfter(was[i], EraseReviews(left, user)[i], user)
  {
    hide ReviewAfter, EraseReview;
    forall i | 0 <= i < |was| ensures ReviewAfter(was[i], EraseReviews(left, user)[i], user) {
      ErasedReview(left[i], user);
    }
  }

  lemma AuditsKept(was: seq<Audit>, left: seq<Audit>, user: Id)
    requires was <= left
    ensures forall i | 0 <= i < |was| :: AuditAfter(was[i], EraseAudits(left, user)[i], user)
  {
    hide AuditAfter, EraseOptional;
    forall i | 0 <= i < |was| ensures AuditAfter(was[i], EraseAudits(left, user)[i], user) {
      ErasedAudit(left[i], user);
    }
  }

  lemma EvidenceKept(db: Db, reviews: seq<Review>, audits: seq<Audit>, user: Id, order: seq<Id>, now: Time)
    requires forall i | 0 <= i < |order| :: order[i] in db.versions
    requires Evidence(db, reviews, audits, user, order, now)
    ensures Evidence(db, EraseReviews(reviews, user), EraseAudits(audits, user), user, order, now)
  {
    hide GivenUp, EraseReview, EraseOptional;
    var m, n := |db.reviews|, |db.audits|;
    forall i | 0 <= i < |order|
      ensures GivenUp(order[i], db.versions[order[i]], EraseReviews(reviews, user)[m + i],
                      EraseAudits(audits, user)[n + i], user, now)
    {
      EvidenceStays(order[i], db.versions[order[i]], reviews[m + i], audits[n + i], user, now);
    }
  }

  lemma LogsFollow(db: Db, left: Db, next: Db, user: Id, order: seq<Id>, now: Time)
    requires forall i | 0 <= i < |order| :: order[i] in db.versions
    requires Appended(db, left, user, order, now)
    requires next.reviews == EraseReviews(left.reviews, user)
    requires next.audits
          == EraseAudits(left.audits, user)
             + if |order| == 0 then [] else [Audit(ErasureAbandon, None, None, None, None, [AuthorTombstone])]
    ensures LogsAfter(db, next, user, order, now)
  {
    hide EraseReviews, EraseAudits, GivenUp, ReviewAfter, AuditAfter;
    ReviewsKept(db.reviews, left.reviews, user);
    AuditsKept(db.audits, left.audits, user);
    EvidenceKept(db, left.reviews, left.audits, user, order, now);
  }

  lemma LogsErased(db: Db, order: seq<Id>, user: Id, now: Time)
    requires LockOrder(db, order, user) && user in db.users
    ensures LogsAfter(db, CommitErase(db, user, order, now).value, user, order, now)
  {
    LogsEntombed(db, order, user, now);
    AbandonAppends(db, order, user, now);
    hide *;
    LogsFollow(db, Abandon(db, order, user, now), CommitErase(db, user, order, now).value, user, order, now);
  }

  lemma OrderIsStored(db: Db, order: seq<Id>, user: Id)
    requires LockOrder(db, order, user)
    ensures forall i | 0 <= i < |order| :: order[i] in db.versions
  {
  }

  // ----- all tables

  /** Every table after the erasure, row by row. */
  ghost predicate UserErased(db: Db, next: Db, user: Id, order: seq<Id>, now: Time)
    requires forall i | 0 <= i < |order| :: order[i] in db.versions
  {
    && next.users == db.users - {user} && next.erased == db.erased + {user}
    && next.pinned == db.pinned && next.tags == db.tags
    && next.versions.Keys == db.versions.Keys
    && (forall v | v in db.versions :: VersionAfter(db.versions[v], next.versions[v], user, now))
    && next.questions.Keys == db.questions.Keys
    && (forall q | q in db.questions :: QuestionAfter(db, q, next.questions[q], user, now))
    && next.reports.Keys == db.reports.Keys
    && (forall r | r in db.reports :: ReportAfter(db.reports[r], next.reports[r], user))
    && LogsAfter(db, next, user, order, now)
  }

  lemma VersionsAfter(db: Db, order: seq<Id>, user: Id, now: Time)
    requires Inv(db) && LockOrder(db, order, user) && user in db.users
    ensures var next := CommitErase(db, user, order, now).value;
            && next.versions == ErasedVersions(db.versions, user, now)
            && forall v | v in db.versions :: VersionAfter(db.versions[v], next.versions[v], user, now)
  {
    EraseRows(db, user, order, now);
    hide LockOrder, CommitErase, Inv, VersionAfter, EraseVersion;
    forall v | v in db.versions
      ensures VersionAfter(db.versions[v], EraseVersion(db.versions[v], user, now), user, now)
    {
      ErasedVersion(db, v, user, now);
    }
  }

  lemma ErasedVersion(db: Db, v: Id, user: Id, now: Time)
    requires Inv(db) && v in db.versions && user in db.users
    ensures VersionAfter(db.versions[v], EraseVersion(db.versions[v], user, now), user, now)
  {
    hide Inv, Complete, QuestionOk, LifecycleShape, QuestionShape;
    HomeOf(db, v);
    ErasedAreGone(db);
  }

  lemma ErasedAreGone(db: Db)
    requires Inv(db)
    ensures db.users.Keys !! db.erased
  {
  }

  lemma ErasedQuestion(db: Db, q: Id, user: Id, now: Time)
    requires Inv(db) && q in db.questions
    ensures QuestionAfter(db, q, EraseQuestion(db.questions[q], q, ErasedVersions(db.versions, user, now), user, now),
                          user, now)
  {
    QuestionLive(db, q);
    QuestionLoses(db.versions, q, user, now);
    hide Inv, QuestionOk, VersionsShaped, LosesVersion, ErasedVersions, AbandonedAt;
  }

  lemma QuestionLoses(versions: map<Id, Version>, q: Id, user: Id, now: Time)
    ensures var erased := ErasedVersions(versions, user, now);
            LosesVersion(versions, q, user, now) <==> exists v | v in erased :: AbandonedAt(erased[v], q, now)
  {
    var erased := ErasedVersions(versions, user, now);
    if LosesVersion(versions, q, user, now) {
      var v :| v in versions && versions[v].questionId == q &&
        (|| (versions[v].creator.actorId == Some(user) && versions[v].status != Published
             && versions[v].status != Retired)
         || (versions[v].retirement == Some(AuthorErasureAbandoned) && versions[v].retiredAt == Some(now)));
      assert AbandonedAt(erased[v], q, now);
    }
  }

  lemma OtherTables(db: Db, order: seq<Id>, user: Id, now: Time)
    requires LockOrder(db, order, user) && user in db.users
    ensures var next := CommitErase(db, user, order, now).value;
            && next.questions == ErasedQuestions(db.questions, next.versions, user, now)
            && next.reports == ErasedReports(db.reports, user)
            && next.users == db.users - {user} && next.erased == db.erased + {user}
            && next.pinned == db.pinned && next.tags == db.tags
  {
    hide OpenVersionsOf, EraseQuestion, EraseReport;
    OrderIsStored(db, order, user);
    AbandonLeavesRest(db, order, user, now);
  }

  lemma {:induction false} AbandonLeavesRest(db: Db, order: seq<Id>, user: Id, now: Time)
    requires forall i | 0 <= i < |order| :: order[i] in db.versions
    ensures var left := Abandon(db, order, user, now);
            left == db.(versions := left.versions, reviews := left.reviews, audits := left.audits)
    decreases |order|
  {
    if |order| > 0 {
      AbandonLeavesRest(db, order[..|order| - 1], user, now);
    }
  }

  lemma ErasedReport(was: Report, user: Id)
    ensures ReportAfter(was, EraseReport(was, user), user)
  {
  }

  /** A committed erasure leaves every row of every table as stated, and commits exactly when the user is there. */
  lemma EraseAnswer(db: Db, user: Id, order: seq<Id>, now: Time)
    requires Inv(db) && LockOrder(db, order, user)
    ensures forall i | 0 <= i < |order| :: order[i] in db.versions
    ensures var next := CommitErase(db, user, order, now);
            if user in db.users then next.Some? && UserErased(db, next.value, user, order, now) else next.None?
  {
    OrderIsStored(db, order, user);
    hide LogsAfter, VersionAfter, QuestionAfter, ReportAfter, EraseVersion, EraseQuestion, EraseReport;
    if user in db.users {
      VersionsAfter(db, order, user, now);
      OtherTables(db, order, user, now);
      LogsErased(db, order, user, now);
      hide Inv, LockOrder;
      forall q | q in db.questions ensures QuestionAfter(db, q, ErasedQuestions(db.questions,
        ErasedVersions(db.versions, user, now), user, now)[q], user, now)
      {
        ErasedQuestion(db, q, user, now);
      }
      forall r | r in db.reports ensures ReportAfter(db.reports[r], ErasedReports(db.reports, user)[r], user) {
        ErasedReport(db.reports[r], user);
      }
    }
  }
}
