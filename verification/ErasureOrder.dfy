/** Erasing a user moves the content tables forward in the order of ContentOrder. */
module ErasureOrder {
  import opened Common
  import opened ContentTables
  import opened AccountErasure
  import opened ContentInvariant
  import opened ContentOrder
  import opened ErasurePreservation

  lemma {:induction false} ApproverErased(reviews: seq<Review>, user: Id, v: Id)
    ensures LatestApprover(EraseReviews(reviews, user), v) == EraseOptional(LatestApprover(reviews, v), user)
    decreases |reviews|
  {
    if |reviews| > 0 {
      var n := |reviews| - 1;
      ApproverErased(reviews[..n], user, v);
      assert EraseReviews(reviews, user)[..n] == EraseReviews(reviews[..n], user);
    }
  }

  lemma {:induction false} ApproverLive(users: set<Id>, erased: set<Id>, reviews: seq<Review>, v: Id)
    requires ReviewsLive(users, erased, reviews)
    ensures OptionalLive(users, erased, LatestApprover(reviews, v))
    decreases |reviews|
  {
    if |reviews| > 0 {
      var n := |reviews| - 1;
      assert ReviewLive(users, erased, reviews[n]);
      forall i | 0 <= i < n ensures ReviewLive(users, erased, reviews[..n][i]) {
        assert ReviewLive(users, erased, reviews[i]);
      }
      ApproverLive(users, erased, reviews[..n], v);
    }
  }

  /** Abandonment approves nothing. */
  lemma {:induction false} AbandonApprover(db: Db, order: seq<Id>, user: Id, now: Time, v: Id)
    requires forall i | 0 <= i < |order| :: order[i] in db.versions
    ensures LatestApprover(Abandon(db, order, user, now).reviews, v) == LatestApprover(db.reviews, v)
    decreases |order|
  {
    if |order| > 0 {
      var n := |order| - 1;
      AbandonApprover(db, order[..n], user, now, v);
      var before := Abandon(db, order[..n], user, now);
      var r := AbandonReview(order[n], db.versions[order[n]], user, now);
      assert (before.reviews + [r])[..|before.reviews|] == before.reviews;
    }
  }

  lemma {:induction false} AbandonLog(db: Db, order: seq<Id>, user: Id, now: Time)
    requires forall i | 0 <= i < |order| :: order[i] in db.versions && OpenAuthored(db.versions[order[i]], user)
    requires forall i, j | 0 <= i < j < |order| :: order[i] != order[j]
    ensures LogFollows(LogOf(db), LogOf(Abandon(db, order, user, now)))
    decreases |order|
  {
    hide LogFollows;
    if |order| == 0 {
      LogSelf(LogOf(db));
    } else {
      var n := |order| - 1;
      AbandonLog(db, order[..n], user, now);
      AbandonRows(db, order[..n], user, now);
      var before := Abandon(db, order[..n], user, now);
      assert order[n] !in order[..n];
      var row := db.versions[order[n]];
      LogMove(LogOf(before), order[n], AbandonRow(row, now), AbandonReview(order[n], row, user, now));
      LogTwo(LogOf(db), LogOf(before), LogOf(Abandon(db, order, user, now)));
    }
  }

  /** The tombstones bump every closed row they touch; the review log keeps every actor id. */
  lemma EntombLog(db: Db, user: Id, now: Time)
    requires NoneOpen(db.versions, user)
    requires forall v :: LatestApprover(db.reviews, v).Some? && LatestApprover(db.reviews, v).value.actorId == user ==>
                           LatestApprover(db.reviews, v).value.userId == Some(user)
    ensures LogFollows(LogOf(db), LogOf(Entomb(db, user, now)))
  {
    var after := LogOf(Entomb(db, user, now));
    forall v | v in db.versions
      ensures VersionFollows(db.versions[v], after.versions[v]) && ApproverKept(LogOf(db), after, v)
    {
      ApproverErased(db.reviews, user, v);
    }
  }

  /** A question that loses an open version is bumped. */
  lemma EraseCatalog(db: Db, user: Id, now: Time)
    ensures var versions := ErasedVersions(db.versions, user, now);
            CatalogFollows(CatalogOf(db),
                           Catalog(ErasedQuestions(db.questions, versions, user, now), versions))
  {
    var versions := ErasedVersions(db.versions, user, now);
    var after := Catalog(ErasedQuestions(db.questions, versions, user, now), versions);
    forall q | q in db.questions ensures QuestionFollows(CatalogOf(db), after, q) {
      if after.questions[q].rowVersion == db.questions[q].rowVersion {
        assert forall v | v in versions :: !AbandonedAt(versions[v], q, now);
        assert forall v :: OpenOf(versions, v, q) <==> OpenOf(db.versions, v, q);
      }
    }
  }

  lemma EraseReportsFollow(reports: map<Id, Report>, user: Id)
    ensures ReportsFollow(reports, ErasedReports(reports, user))
  {
  }

  /** An approver who is the present user is referenced by id. */
  lemma LiveApprovers(db: Db, order: seq<Id>, user: Id, now: Time)
    requires Inv(db) && LockOrder(db, order, user) && user in db.users
    ensures forall v ::
              var a := LatestApprover(Abandon(db, order, user, now).reviews, v);
              a.Some? && a.value.actorId == user ==> a.value.userId == Some(user)
  {
    hide VersionsShaped, QuestionsShaped, CandidatesLive, ReviewsLegal, ReplaysOk, ReportsOk, ContentUnique,
         AggregatesOk;
    var left := Abandon(db, order, user, now);
    forall v
      ensures var a := LatestApprover(left.reviews, v); a.Some? && a.value.actorId == user ==>
                a.value.userId == Some(user)
    {
      AbandonApprover(db, order, user, now, v);
      ApproverLive(db.users.Keys, db.erased, db.reviews, v);
    }
  }

  lemma EraseFollows(db: Db, user: Id, order: seq<Id>, now: Time)
    requires Inv(db) && LockOrder(db, order, user) && user in db.users
    ensures Follows(db, CommitErase(db, user, order, now).value)
  {
    hide LogFollows, CatalogFollows, ReportsFollow, NoneOpen, Inv, ErasedVersions, ErasedQuestions, ErasedReports;
    AbandonLog(db, order, user, now);
    AbandonRows(db, order, user, now);
    EraseRows(db, user, order, now);
    var left := Abandon(db, order, user, now);
    LoopLeavesNoneOpen(db, order, user, now);
    LiveApprovers(db, order, user, now);
    EntombLog(left, user, now);
    LogTwo(LogOf(db), LogOf(left), LogOf(Entomb(left, user, now)));
    EraseCatalog(db, user, now);
    EraseReportsFollow(db.reports, user);
    AbandonRest(db, order, user, now);
  }

  lemma {:induction false} AbandonRest(db: Db, order: seq<Id>, user: Id, now: Time)
    requires forall i | 0 <= i < |order| :: order[i] in db.versions
    ensures var left := Abandon(db, order, user, now);
            left.pinned == db.pinned && left.tags == db.tags
    decreases |order|
  {
    if |order| > 0 {
      AbandonRest(db, order[..|order| - 1], user, now);
    }
  }
}
