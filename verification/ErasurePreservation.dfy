/** Erasing a user keeps the invariant of the content tables. */
module ErasurePreservation {
  import opened Common
  import opened ContentTables
  import opened AccountErasure
  import opened ContentInvariant
  import opened ContentPreservation

  // ----- the abandonment loop

  lemma OneMoreErased(db: Db, user: Id)
    requires RowsOk(db, db.erased)
    ensures RowsOk(db, db.erased + {user})
  {
    var e := db.erased + {user};
    forall v | v in db.versions ensures CreatorLive(db.users.Keys, e, db.versions[v].creator) {
      assert CreatorLive(db.users.Keys, db.erased, db.versions[v].creator);
    }
    forall q | q in db.questions ensures CreatorLive(db.users.Keys, e, db.questions[q].creator) {
      assert CreatorLive(db.users.Keys, db.erased, db.questions[q].creator);
    }
    forall i | 0 <= i < |db.reviews| ensures ReviewLive(db.users.Keys, e, db.reviews[i]) {
      assert ReviewLive(db.users.Keys, db.erased, db.reviews[i]);
    }
    forall r | r in db.reports ensures ReportLive(db.users.Keys, e, db.reports[r]) {
      assert ReportLive(db.users.Keys, db.erased, db.reports[r]);
    }
  }

  /** One abandoned version with its SYSTEM review. */
  lemma AbandonOneKeeps(db: Db, erased: set<Id>, id: Id, user: Id, now: Time)
    requires RowsOk(db, erased) && user in erased
    requires id in db.versions && OpenAuthored(db.versions[id], user)
    ensures RowsOk(Advance(db, id, AbandonRow(db.versions[id], now), AbandonReview(id, db.versions[id], user, now)),
                   erased)
  {
    hide Complete;
    var row := db.versions[id];
    var next := AbandonRow(row, now);
    var r := AbandonReview(id, row, user, now);
    assert VersionShape(row) && CandidateLive(db.users, row);
    assert VersionShape(next) && Continues(row, next);
    ReportsContinue(db.reports, db.versions, db.versions[id := next]);
    ReplaysMove(db.reviews, db.versions, r, id, next);
    assert db.versions[id := next].Keys == db.versions.Keys;
    ReviewsAppend(db.users.Keys, erased, db.versions.Keys, db.reviews, r);
    UniqueFrame(db.versions, db.versions[id := next]);
  }

  lemma AbandonOneAggregates(questions: map<Id, Question>, versions: map<Id, Version>, id: Id, now: Time)
    requires AggregatesOk(questions, versions) && id in versions && versions[id].questionId in questions
    requires OpenStatus(versions[id].status)
    ensures AggregatesOk(questions, versions[id := AbandonRow(versions[id], now)])
  {
    var q := versions[id].questionId;
    var after := versions[id := AbandonRow(versions[id], now)];
    assert QuestionOk(versions, q, questions[q]);
    assert Of(versions, id, q);
    assert forall v :: Of(after, v, q) <==> Of(versions, v, q);
    assert CurrentOk(after, q, questions[q].current);
    QuestionMoved(versions, after, q, questions[q], questions[q]);
    AggregatesExcept(questions, versions, after, q, questions[q]);
    assert questions[q := questions[q]] == questions;
  }

  /** What the loop has done after the given prefix of the lock order. */
  ghost predicate Abandoned(db: Db, after: Db, order: seq<Id>, now: Time) {
    && after.questions == db.questions && after.reports == db.reports
    && after.users == db.users && after.erased == db.erased
    && after.versions.Keys == db.versions.Keys
    && forall v | v in db.versions ::
         after.versions[v] == if v in order then AbandonRow(db.versions[v], now) else db.versions[v]
  }

  lemma {:induction false} AbandonRows(db: Db, order: seq<Id>, user: Id, now: Time)
    requires forall i | 0 <= i < |order| :: order[i] in db.versions
    ensures Abandoned(db, Abandon(db, order, user, now), order, now)
    decreases |order|
  {
    if |order| > 0 {
      var n := |order| - 1;
      AbandonRows(db, order[..n], user, now);
      assert order == order[..n] + [order[n]];
    }
  }

  lemma {:induction false} AbandonKeeps(db: Db, order: seq<Id>, user: Id, now: Time)
    requires Inv(db)
    requires forall i | 0 <= i < |order| :: order[i] in db.versions && OpenAuthored(db.versions[order[i]], user)
    requires forall i, j | 0 <= i < j < |order| :: order[i] != order[j]
    ensures var after := Abandon(db, order, user, now);
            RowsOk(after, db.erased + {user}) && AggregatesOk(after.questions, after.versions)
    decreases |order|
  {
    if |order| == 0 {
      OneMoreErased(db, user);
    } else {
      var n := |order| - 1;
      AbandonKeeps(db, order[..n], user, now);
      AbandonRows(db, order[..n], user, now);
      var before := Abandon(db, order[..n], user, now);
      assert order[n] !in order[..n];
      assert before.versions[order[n]] == db.versions[order[n]];
      AbandonOneKeeps(before, db.erased + {user}, order[n], user, now);
      AbandonOneAggregates(before.questions, before.versions, order[n], now);
    }
  }

  ghost predicate NoneOpen(versions: map<Id, Version>, user: Id) {
    forall v | v in versions :: !OpenAuthored(versions[v], user)
  }

  /** The loop goes over every open version of the author. */
  lemma LoopLeavesNoneOpen(db: Db, order: seq<Id>, user: Id, now: Time)
    requires LockOrder(db, order, user)
    ensures NoneOpen(Abandon(db, order, user, now).versions, user)
  {
    AbandonRows(db, order, user, now);
    var left := Abandon(db, order, user, now);
    forall v | v in left.versions ensures !OpenAuthored(left.versions[v], user) {
      assert OpenAuthored(db.versions[v], user) ==> v in OpenVersionsOf(db, user);
    }
  }

  // ----- the tombstones

  lemma {:induction false} ReplayErased(reviews: seq<Review>, user: Id, id: Id, start: Status)
    ensures Replay(EraseReviews(reviews, user), id, start) == Replay(reviews, id, start)
    decreases |reviews|
  {
    if |reviews| > 0 {
      var n := |reviews| - 1;
      ReplayErased(reviews[..n], user, id, start);
      assert EraseReviews(reviews, user)[..n] == EraseReviews(reviews[..n], user);
    }
  }

  lemma AccountErased(users: set<Id>, erased: set<Id>, a: Option<Account>, user: Id)
    requires OptionalLive(users, erased, a) && user in erased
    ensures OptionalLive(users - {user}, erased, EraseOptional(a, user))
  {
  }

  lemma CreatorErased(users: set<Id>, erased: set<Id>, c: Creator, user: Id)
    requires CreatorLive(users, erased, c) && CreatorShape(c) && user in erased
    ensures CreatorLive(users - {user}, erased, if AuthoredBy(c, user) then Tombstone(c) else c)
    ensures CreatorShape(if AuthoredBy(c, user) then Tombstone(c) else c)
  {
  }

  lemma ReviewsErased(users: set<Id>, erased: set<Id>, versions: map<Id, Version>, reviews: seq<Review>, user: Id)
    requires ReviewsLive(users, erased, reviews) && ReviewsLegal(reviews, versions.Keys) && user in erased
    ensures ReviewsLive(users - {user}, erased, EraseReviews(reviews, user))
    ensures ReviewsLegal(EraseReviews(reviews, user), versions.Keys)
  {
    var after := EraseReviews(reviews, user);
    forall i | 0 <= i < |after|
      ensures ReviewLive(users - {user}, erased, after[i]) && LegalReview(after[i]) && after[i].versionId in versions
    {
      assert ReviewLive(users, erased, reviews[i]) && LegalReview(reviews[i]);
      AccountErased(users, erased, reviews[i].actor, user);
      AccountErased(users, erased, reviews[i].counterpart, user);
    }
  }

  lemma ReportsErased(users: set<Id>, erased: set<Id>, reports: map<Id, Report>, user: Id)
    requires ReportsLive(users, erased, reports) && user in erased
    ensures ReportsLive(users - {user}, erased, ErasedReports(reports, user))
  {
    var after := ErasedReports(reports, user);
    forall r | r in after ensures ReportLive(users - {user}, erased, after[r]) {
      assert ReportLive(users, erased, reports[r]);
      AccountErased(users, erased, Some(reports[r].reporter), user);
      AccountErased(users, erased, reports[r].assignee, user);
    }
  }


  /** With no open version left, erasure tombstones the creator of a row and touches nothing else. */
  lemma RowErased(users: map<Id, User>, erased: set<Id>, row: Version, user: Id, now: Time)
    requires VersionShape(row) && CreatorLive(users.Keys, erased, row.creator) && CandidateLive(users, row)
    requires user in erased && !OpenAuthored(row, user)
    ensures VersionShape(EraseVersion(row, user, now))
    ensures CreatorLive(users.Keys - {user}, erased, EraseVersion(row, user, now).creator)
    ensures CandidateLive(users - {user}, EraseVersion(row, user, now))
    ensures Continues(row, EraseVersion(row, user, now))
    ensures EraseVersion(row, user, now).status == row.status && EraseVersion(row, user, now).content == row.content
    ensures BirthStatus(EraseVersion(row, user, now).creator) == BirthStatus(row.creator)
  {
    CreatorErased(users.Keys, erased, row.creator, user);
  }

  lemma VersionsErased(db: Db, erased: set<Id>, user: Id, now: Time)
    requires RowsOk(db, erased) && user in erased && NoneOpen(db.versions, user)
    ensures var after := ErasedVersions(db.versions, user, now);
            && VersionsShaped(after)
            && VersionsLive(db.users.Keys - {user}, erased, after)
            && CandidatesLive(db.users - {user}, after)
            && AllContinue(db.versions, after)
            && (forall v | v in after ::
                  after[v].status == db.versions[v].status && after[v].content == db.versions[v].content)
            && (forall v | v in after :: BirthStatus(after[v].creator) == BirthStatus(db.versions[v].creator))
  {
    forall v | v in db.versions
      ensures VersionShape(db.versions[v]) && CreatorLive(db.users.Keys, erased, db.versions[v].creator)
      ensures CandidateLive(db.users, db.versions[v])
    {
    }
    forall v | v in db.versions
      ensures var row, next := db.versions[v], EraseVersion(db.versions[v], user, now);
              && VersionShape(next) && CreatorLive(db.users.Keys - {user}, erased, next.creator)
              && CandidateLive(db.users - {user}, next) && Continues(row, next)
              && next.status == row.status && next.content == row.content
              && BirthStatus(next.creator) == BirthStatus(row.creator)
    {
      RowErased(db.users, erased, db.versions[v], user, now);
    }
  }

  lemma QuestionsErased(db: Db, erased: set<Id>, versions: map<Id, Version>, user: Id, now: Time)
    requires RowsOk(db, erased) && user in erased
    ensures var after := ErasedQuestions(db.questions, versions, user, now);
            QuestionsShaped(after) && QuestionsLive(db.users.Keys - {user}, erased, after)
  {
    var after := ErasedQuestions(db.questions, versions, user, now);
    forall q | q in after
      ensures QuestionShape(after[q]) && CreatorLive(db.users.Keys - {user}, erased, after[q].creator)
    {
      assert QuestionShape(db.questions[q]) && CreatorLive(db.users.Keys, erased, db.questions[q].creator);
      CreatorErased(db.users.Keys, erased, db.questions[q].creator, user);
    }
  }

  lemma AggregatesErased(questions: map<Id, Question>, versions: map<Id, Version>, after: map<Id, Version>, user: Id,
                         now: Time)
    requires AggregatesOk(questions, versions) && after.Keys == versions.Keys
    requires AllContinue(versions, after)
    requires forall v | v in after :: after[v].status == versions[v].status
    ensures AggregatesOk(ErasedQuestions(questions, after, user, now), after)
  {
    forall q | q in questions ensures QuestionOk(after, q, EraseQuestion(questions[q], q, after, user, now)) {
      assert QuestionOk(versions, q, questions[q]);
      assert forall v :: Of(after, v, q) <==> Of(versions, v, q);
      var next := EraseQuestion(questions[q], q, after, user, now);
      assert next.current == questions[q].current && next.lifecycle == questions[q].lifecycle;
      QuestionMoved(versions, after, q, questions[q], next);
    }
  }

  lemma ReplaysErased(reviews: seq<Review>, versions: map<Id, Version>, after: map<Id, Version>, user: Id)
    requires ReplaysOk(reviews, versions) && after.Keys == versions.Keys
    requires forall v | v in after :: after[v].status == versions[v].status
    requires forall v | v in after :: BirthStatus(after[v].creator) == BirthStatus(versions[v].creator)
    ensures ReplaysOk(EraseReviews(reviews, user), after)
  {
    forall v | v in after ensures ReplayOk(EraseReviews(reviews, user), v, after[v]) {
      assert ReplayOk(reviews, v, versions[v]);
      ReplayErased(reviews, user, v, BirthStatus(versions[v].creator));
    }
  }

  lemma ReportRowsErased(reports: map<Id, Report>, versions: map<Id, Version>, user: Id)
    requires ReportsOk(reports, versions)
    ensures ReportsOk(ErasedReports(reports, user), versions)
  {
    forall r | r in reports ensures ReportOk(versions, EraseReport(reports[r], user)) {
      assert ReportOk(versions, reports[r]);
    }
  }

  lemma EntombKeeps(db: Db, user: Id, now: Time)
    requires RowsOk(db, db.erased + {user}) && AggregatesOk(db.questions, db.versions)
    requires db.users.Keys !! db.erased && NoneOpen(db.versions, user)
    ensures Inv(Entomb(db, user, now))
  {
    var erased := db.erased + {user};
    var after := ErasedVersions(db.versions, user, now);
    VersionsErased(db, erased, user, now);
    QuestionsErased(db, erased, after, user, now);
    ReviewsErased(db.users.Keys, erased, db.versions, db.reviews, user);
    ReportsErased(db.users.Keys, erased, db.reports, user);
    ReportRowsErased(db.reports, db.versions, user);
    ReportsContinue(ErasedReports(db.reports, user), db.versions, after);
    ReplaysErased(db.reviews, db.versions, after, user);
    UniqueFrame(db.versions, after);
    AggregatesErased(db.questions, db.versions, after, user, now);
    assert after.Keys == db.versions.Keys;
    assert (db.users - {user}).Keys == db.users.Keys - {user};
  }

  /** Erasing a confirmed user keeps the invariant, open versions of the author included. */
  lemma EraseKeeps(db: Db, user: Id, order: seq<Id>, now: Time)
    requires Inv(db) && LockOrder(db, order, user)
    requires CommitErase(db, user, order, now).Some?
    ensures Inv(CommitErase(db, user, order, now).value)
  {
    hide RowsOk, AggregatesOk, NoneOpen;
    AbandonKeeps(db, order, user, now);
    AbandonRows(db, order, user, now);
    var left := Abandon(db, order, user, now);
    LoopLeavesNoneOpen(db, order, user, now);
    EntombKeeps(left, user, now);
    InvAudit(Entomb(left, user, now), Audit(ErasureAbandon, None, None, None, None, [AuthorTombstone]));
  }

  // ----- what erasure writes

  /** The loop followed by the tombstones maps every row on its own. */
  lemma EraseRows(db: Db, user: Id, order: seq<Id>, now: Time)
    requires LockOrder(db, order, user) && user in db.users
    ensures CommitErase(db, user, order, now).value.versions == ErasedVersions(db.versions, user, now)
  {
    AbandonRows(db, order, user, now);
    var left := Abandon(db, order, user, now);
    forall v | v in db.versions
      ensures EraseVersion(left.versions[v], user, now) == EraseVersion(db.versions[v], user, now)
    {
      assert OpenAuthored(db.versions[v], user) <==> v in OpenVersionsOf(db, user);
    }
  }

  /** Erasure bumps every version of the author exactly once and leaves all others alone. */
  lemma EraseBumpsOnce(db: Db, user: Id, order: seq<Id>, now: Time)
    requires Inv(db) && LockOrder(db, order, user) && user in db.users
    ensures var after := CommitErase(db, user, order, now).value.versions;
            && after.Keys == db.versions.Keys
            && forall v | v in after ::
                 if AuthoredBy(db.versions[v].creator, user)
                 then && after[v].rowVersion == db.versions[v].rowVersion + 1
                      && after[v].content == db.versions[v].content
                      && after[v].creator.userId.None?
                      && after[v].status
                         == (if OpenStatus(db.versions[v].status) then Retired else db.versions[v].status)
                 else after[v] == db.versions[v]
  {
    EraseRows(db, user, order, now);
    forall v | v in db.versions
      ensures AuthoredBy(db.versions[v].creator, user) ==> db.versions[v].creator.userId == Some(user)
    {
      assert VersionShape(db.versions[v]) && CreatorLive(db.users.Keys, db.erased, db.versions[v].creator);
    }
  }
}
