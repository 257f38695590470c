/**
  * What holds of the content tables in every committed state. Each part reads
  * only the tables it is about, so a write to any other table keeps it.
  */
module ContentInvariant {
  import opened Common
  import opened ContentTables

  // ----- row shapes

  ghost predicate CreatorShape(c: Creator) {
    match c.standing
    case SystemSeed => c.userId.None? && c.actorId.None?
    case ActiveAdmin => c.userId.Some? && c.actorId == c.userId
    case DeletedAdmin => c.userId.None? && c.actorId.Some?
    case _ => false
  }

  /** The time stamps and the retirement kind agree with the status. */
  ghost predicate LifecycleShape(row: Version) {
    if OpenStatus(row.status) then row.publishedAt.None? && row.retiredAt.None? && row.retirement.None?
    else if row.status == Published then row.publishedAt.Some? && row.retiredAt.None? && row.retirement.None?
    else
      && row.retiredAt.Some?
      && row.retirement.Some?
      && (row.retirement == Some(PublishedRetirement) <==> row.publishedAt.Some?)
  }

  ghost predicate VersionShape(row: Version) {
    && CreatorShape(row.creator)
    && LifecycleShape(row)
    && Complete(row.content)
    && row.number > 0
    && row.rowVersion > 0
    && (row.retirement == Some(AuthorErasureAbandoned) ==> row.creator.standing == DeletedAdmin)
  }

  ghost predicate VersionsShaped(versions: map<Id, Version>) {
    forall v {:trigger VersionShape(versions[v])} | v in versions :: VersionShape(versions[v])
  }

  ghost predicate QuestionShape(row: Question) {
    CreatorShape(row.creator) && row.rowVersion > 0
  }

  ghost predicate QuestionsShaped(questions: map<Id, Question>) {
    forall q {:trigger QuestionShape(questions[q])} | q in questions :: QuestionShape(questions[q])
  }

  ghost predicate Housed(versions: map<Id, Version>, questions: set<Id>) {
    forall v | v in versions :: versions[v].questionId in questions
  }

  // ----- users

  /** A live reference names a user; a tombstone names an erased one. */
  ghost predicate CreatorLive(users: set<Id>, erased: set<Id>, c: Creator) {
    && (c.userId.Some? ==> c.userId.value in users)
    && (c.userId.None? && c.actorId.Some? ==> c.actorId.value in erased)
  }

  ghost predicate AccountLive(users: set<Id>, erased: set<Id>, a: Account) {
    if a.userId.Some? then a.userId == Some(a.actorId) && a.actorId in users
    else a.actorId in erased
  }

  ghost predicate OptionalLive(users: set<Id>, erased: set<Id>, a: Option<Account>) {
    a.Some? ==> AccountLive(users, erased, a.value)
  }

  ghost predicate VersionsLive(users: set<Id>, erased: set<Id>, versions: map<Id, Version>) {
    forall v {:trigger CreatorLive(users, erased, versions[v].creator)} | v in versions ::
      CreatorLive(users, erased, versions[v].creator)
  }

  ghost predicate QuestionsLive(users: set<Id>, erased: set<Id>, questions: map<Id, Question>) {
    forall q {:trigger CreatorLive(users, erased, questions[q].creator)} | q in questions ::
      CreatorLive(users, erased, questions[q].creator)
  }

  ghost predicate ReviewLive(users: set<Id>, erased: set<Id>, r: Review) {
    OptionalLive(users, erased, r.actor) && OptionalLive(users, erased, r.counterpart)
  }

  ghost predicate ReviewsLive(users: set<Id>, erased: set<Id>, reviews: seq<Review>) {
    forall i {:trigger ReviewLive(users, erased, reviews[i])} | 0 <= i < |reviews| ::
      ReviewLive(users, erased, reviews[i])
  }

  ghost predicate ReportLive(users: set<Id>, erased: set<Id>, r: Report) {
    AccountLive(users, erased, r.reporter) && OptionalLive(users, erased, r.assignee)
  }

  ghost predicate ReportsLive(users: set<Id>, erased: set<Id>, reports: map<Id, Report>) {
    forall r {:trigger ReportLive(users, erased, reports[r])} | r in reports :: ReportLive(users, erased, reports[r])
  }

  ghost predicate ReferencesLive(users: set<Id>, erased: set<Id>, db: Db) {
    && VersionsLive(users, erased, db.versions)
    && QuestionsLive(users, erased, db.questions)
    && ReviewsLive(users, erased, db.reviews)
    && ReportsLive(users, erased, db.reports)
  }

  /** Every open candidate has a live author whose account is active. */
  ghost predicate CandidateLive(users: map<Id, User>, row: Version) {
    OpenStatus(row.status) ==>
      && row.creator.userId.Some?
      && row.creator.userId.value in users
      && users[row.creator.userId.value].status == ActiveAccount
  }

  ghost predicate CandidatesLive(users: map<Id, User>, versions: map<Id, Version>) {
    forall v {:trigger CandidateLive(users, versions[v])} | v in versions :: CandidateLive(users, versions[v])
  }

  // ----- review log

  ghost predicate LegalReview(r: Review) {
    match r.action
    case Requested => Editable(r.fromState) && r.toState == InReview && r.counterpart.None?
    case RequestedChanges => r.fromState == InReview && r.toState == ChangesRequested && r.counterpart.Some?
                             && r.actor.Some? && r.actor.value.actorId != r.counterpart.value.actorId
    case ApprovedVersion => r.fromState == InReview && r.toState == Approved && r.counterpart.Some? && r.actor.Some?
    case ApprovalWithdrawn => r.fromState == Approved && r.toState == ChangesRequested && r.counterpart.Some?
    case PublishedVersion => r.fromState == Approved && r.toState == Published && r.counterpart.Some?
    case RetiredVersion => r.fromState == Published && r.toState == Retired && r.counterpart.None?
    case ArchiveAbandoned => OpenStatus(r.fromState) && r.toState == Retired && r.counterpart.Some?
    case ErasureAbandoned => OpenStatus(r.fromState) && r.toState == Retired && r.actor.None?
  }

  ghost predicate ReviewsLegal(reviews: seq<Review>, versions: set<Id>) {
    forall i {:trigger LegalReview(reviews[i])} | 0 <= i < |reviews| ::
      LegalReview(reviews[i]) && reviews[i].versionId in versions
  }

  /** A seeded version starts published, every other version as a draft. */
  function BirthStatus(c: Creator): Status {
    if c.standing == SystemSeed then Published else Draft
  }

  /** Folds the reviews of one version; None when a from-state does not fit. */
  function Replay(reviews: seq<Review>, id: Id, start: Status): Option<Status>
    decreases |reviews|
  {
    if |reviews| == 0 then Some(start)
    else
      var before := Replay(reviews[..|reviews| - 1], id, start);
      var last := reviews[|reviews| - 1];
      if last.versionId != id then before
      else if before == Some(last.fromState) then Some(last.toState)
      else None
  }

  ghost predicate ReplayOk(reviews: seq<Review>, v: Id, row: Version) {
    Replay(reviews, v, BirthStatus(row.creator)) == Some(row.status)
  }

  ghost predicate ReplaysOk(reviews: seq<Review>, versions: map<Id, Version>) {
    forall v {:trigger ReplayOk(reviews, v, versions[v])} | v in versions :: ReplayOk(reviews, v, versions[v])
  }

  // ----- reports

  /** The version is, or once was, the published content of its question. */
  ghost predicate PublishedLineage(row: Version) {
    || row.status == Published
    || (row.status == Retired && row.retirement == Some(PublishedRetirement) && row.publishedAt.Some?)
  }

  ghost predicate ReportOk(versions: map<Id, Version>, r: Report) {
    && r.versionId in versions
    && versions[r.versionId].questionId == r.questionId
    && (r.remediation.Some? ==>
          && r.status == Resolved
          && r.remediation.value in versions
          && versions[r.remediation.value].questionId == r.questionId
          && versions[r.remediation.value].number > versions[r.versionId].number
          && PublishedLineage(versions[r.remediation.value]))
  }

  ghost predicate ReportsOk(reports: map<Id, Report>, versions: map<Id, Version>) {
    forall r {:trigger ReportOk(versions, reports[r])} | r in reports :: ReportOk(versions, reports[r])
  }

  // ----- content

  /** Two versions of different questions never hold the same content. */
  ghost predicate Apart(row: Version, other: Version) {
    row.questionId != other.questionId ==> FingerprintOf(row.content) != FingerprintOf(other.content)
  }

  ghost predicate ContentUnique(versions: map<Id, Version>) {
    forall v, w {:trigger Apart(versions[v], versions[w])} | v in versions && w in versions ::
      Apart(versions[v], versions[w])
  }

  // ----- the question aggregate

  ghost predicate Of(versions: map<Id, Version>, v: Id, q: Id) {
    v in versions && versions[v].questionId == q
  }

  ghost predicate OpenOf(versions: map<Id, Version>, v: Id, q: Id) {
    Of(versions, v, q) && OpenStatus(versions[v].status)
  }

  ghost predicate OneOpen(versions: map<Id, Version>, q: Id) {
    forall v, w | OpenOf(versions, v, q) && OpenOf(versions, w, q) :: v == w
  }

  /** The current reference names the one published version, and is empty when there is none. */
  ghost predicate CurrentOk(versions: map<Id, Version>, q: Id, current: Option<Id>) {
    && (current.Some? ==> Of(versions, current.value, q))
    && (forall v | Of(versions, v, q) :: versions[v].status == Published <==> current == Some(v))
  }

  ghost predicate ArchiveOk(versions: map<Id, Version>, q: Id, row: Question) {
    row.lifecycle == Archived ==> row.current.None? && forall v | Of(versions, v, q) :: versions[v].status == Retired
  }

  ghost predicate Numbered(versions: map<Id, Version>, q: Id, n: nat) {
    exists v :: Of(versions, v, q) && versions[v].number == n
  }

  /** Numbers are distinct, start at 1 and leave no gap. */
  ghost predicate NumberingOk(versions: map<Id, Version>, q: Id) {
    && (forall v, w | Of(versions, v, q) && Of(versions, w, q) && versions[v].number == versions[w].number :: v == w)
    && Numbered(versions, q, 1)
    && (forall v | Of(versions, v, q) && versions[v].number > 1 :: Numbered(versions, q, versions[v].number - 1))
  }

  ghost predicate QuestionOk(versions: map<Id, Version>, q: Id, row: Question) {
    && OneOpen(versions, q)
    && CurrentOk(versions, q, row.current)
    && ArchiveOk(versions, q, row)
    && NumberingOk(versions, q)
  }

  ghost predicate AggregatesOk(questions: map<Id, Question>, versions: map<Id, Version>) {
    forall q {:trigger QuestionOk(versions, q, questions[q])} | q in questions :: QuestionOk(versions, q, questions[q])
  }

  // ----- the invariant

  /** The rules about single rows and what they name, for a given set of erased users. */
  ghost predicate RowsOk(db: Db, erased: set<Id>) {
    && VersionsShaped(db.versions)
    && QuestionsShaped(db.questions)
    && Housed(db.versions, db.questions.Keys)
    && ReferencesLive(db.users.Keys, erased, db)
    && CandidatesLive(db.users, db.versions)
    && ReviewsLegal(db.reviews, db.versions.Keys)
    && ReplaysOk(db.reviews, db.versions)
    && ReportsOk(db.reports, db.versions)
    && ContentUnique(db.versions)
  }

  ghost predicate RowsInv(db: Db) {
    RowsOk(db, db.erased) && db.users.Keys !! db.erased
  }

  ghost predicate Inv(db: Db) {
    RowsInv(db) && AggregatesOk(db.questions, db.versions)
  }

  // ----- the parts under one replaced row

  lemma ReplayAppend(reviews: seq<Review>, r: Review, id: Id, start: Status)
    ensures r.versionId != id ==> Replay(reviews + [r], id, start) == Replay(reviews, id, start)
    ensures r.versionId == id && Replay(reviews, id, start) == Some(r.fromState) ==>
              Replay(reviews + [r], id, start) == Some(r.toState)
  {
    assert (reviews + [r])[..|reviews + [r]| - 1] == reviews;
  }

  /** A version no review names replays to its birth status. */
  lemma {:induction false} ReplayAbsent(reviews: seq<Review>, id: Id, start: Status)
    requires forall i | 0 <= i < |reviews| :: reviews[i].versionId != id
    ensures Replay(reviews, id, start) == Some(start)
    decreases |reviews|
  {
    if |reviews| > 0 {
      ReplayAbsent(reviews[..|reviews| - 1], id, start);
    }
  }

  /** One version moves with the review that witnesses the move. */
  lemma ReplaysMove(reviews: seq<Review>, versions: map<Id, Version>, r: Review, id: Id, next: Version)
    requires ReplaysOk(reviews, versions) && id in versions
    requires r.versionId == id && r.fromState == versions[id].status && r.toState == next.status
    requires BirthStatus(next.creator) == BirthStatus(versions[id].creator)
    ensures ReplaysOk(reviews + [r], versions[id := next])
  {
    var after := versions[id := next];
    forall v | v in after ensures ReplayOk(reviews + [r], v, after[v]) {
      assert ReplayOk(reviews, v, versions[v]);
      ReplayAppend(reviews, r, v, BirthStatus(versions[v].creator));
    }
  }

  /** The next row of a version keeps its place; published lineage is never lost. */
  ghost predicate Continues(row: Version, next: Version) {
    && next.questionId == row.questionId
    && next.number == row.number
    && (PublishedLineage(row) ==> PublishedLineage(next))
  }

  ghost predicate AllContinue(versions: map<Id, Version>, after: map<Id, Version>) {
    forall v | v in versions :: v in after && Continues(versions[v], after[v])
  }

  lemma ReportsContinue(reports: map<Id, Report>, versions: map<Id, Version>, after: map<Id, Version>)
    requires ReportsOk(reports, versions) && AllContinue(versions, after)
    ensures ReportsOk(reports, after)
  {
    forall r | r in reports ensures ReportOk(after, reports[r]) {
      assert ReportOk(versions, reports[r]);
    }
  }

  /** A question none of whose versions changed keeps its aggregate rules. */
  lemma QuestionFrame(versions: map<Id, Version>, after: map<Id, Version>, q: Id, row: Question)
    requires QuestionOk(versions, q, row)
    requires forall v :: Of(after, v, q) <==> Of(versions, v, q)
    requires forall v | Of(after, v, q) && v in versions :: after[v] == versions[v]
    ensures QuestionOk(after, q, row)
  {
    forall n: nat | Numbered(versions, q, n) ensures Numbered(after, q, n) {
      var v :| Of(versions, v, q) && versions[v].number == n;
      assert Of(after, v, q);
    }
    assert NumberingOk(after, q);
    forall v, w | OpenOf(after, v, q) && OpenOf(after, w, q) ensures v == w {
      assert OpenOf(versions, v, q) && OpenOf(versions, w, q);
    }
    assert OneOpen(after, q);
  }

  /** A question keeps its rules when its versions only leave the open states and its current reference follows them. */
  lemma QuestionMoved(versions: map<Id, Version>, after: map<Id, Version>, q: Id, row: Question, next: Question)
    requires QuestionOk(versions, q, row)
    requires forall v :: Of(after, v, q) <==> Of(versions, v, q)
    requires forall v | Of(after, v, q) && v in versions ::
               after[v].number == versions[v].number && (OpenStatus(after[v].status) ==> OpenStatus(versions[v].status))
    requires CurrentOk(after, q, next.current) && ArchiveOk(after, q, next)
    ensures QuestionOk(after, q, next)
  {
    forall n: nat | Numbered(versions, q, n) ensures Numbered(after, q, n) {
      var v :| Of(versions, v, q) && versions[v].number == n;
      assert Of(after, v, q);
    }
    forall v, w | OpenOf(after, v, q) && OpenOf(after, w, q) ensures v == w {
      assert OpenOf(versions, v, q) && OpenOf(versions, w, q);
    }
  }

  /** Content stays unique while no version changes its content or its question. */
  lemma UniqueFrame(versions: map<Id, Version>, after: map<Id, Version>)
    requires ContentUnique(versions)
    requires forall v | v in after ::
               v in versions && after[v].questionId == versions[v].questionId && after[v].content == versions[v].content
    ensures ContentUnique(after)
  {
    forall v, w | v in after && w in after ensures Apart(after[v], after[w]) {
      assert Apart(versions[v], versions[w]);
    }
  }

  lemma UniquePut(versions: map<Id, Version>, id: Id, row: Version)
    requires ContentUnique(versions)
    requires forall v | v in versions :: Apart(row, versions[v])
    ensures ContentUnique(versions[id := row])
  {
    var after := versions[id := row];
    forall v, w | v in after && w in after ensures Apart(after[v], after[w]) {
      if v != id && w != id {
        assert Apart(versions[v], versions[w]);
      }
    }
  }

  /** Only the question whose versions changed has anything to show. */
  lemma AggregatesExcept(questions: map<Id, Question>, versions: map<Id, Version>, after: map<Id, Version>, q: Id,
                         row: Question)
    requires AggregatesOk(questions, versions)
    requires forall v | v in versions && versions[v].questionId != q :: v in after && after[v] == versions[v]
    requires forall v | v in after && after[v].questionId != q :: v in versions && versions[v].questionId != q
    requires QuestionOk(after, q, row)
    ensures AggregatesOk(questions[q := row], after)
  {
    forall k | k in questions && k != q ensures QuestionOk(after, k, questions[k]) {
      assert forall v :: Of(after, v, k) <==> Of(versions, v, k);
      QuestionFrame(versions, after, k, questions[k]);
    }
  }
}
