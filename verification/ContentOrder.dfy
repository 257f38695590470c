/**
  * The order the committed states form: a row with the row version it had is the
  * row it was. This is what lets a command trust rows it read earlier.
  */
module ContentOrder {
  import opened Common
  import opened ContentTables
  import opened ContentInvariant

  /** Open, published, retired: a version never goes back. */
  function Phase(s: Status): nat {
    if OpenStatus(s) then 0 else if s == Published then 1 else 2
  }

  /** The same account, unless its user was erased in between. */
  ghost predicate SameOrErased(a: Option<Account>, b: Option<Account>, erased: set<Id>) {
    || a == b
    || (a.Some? && b.Some? && a.value.userId == Some(a.value.actorId) && a.value.actorId in erased
        && b.value.actorId == a.value.actorId && b.value.userId.None?)
  }

  /**
    * Row versions alone do not order the rows of a version: a publication
    * planned on an old row writes a smaller one. The phase comes first.
    */
  ghost predicate VersionFollows(row: Version, next: Version) {
    && next.questionId == row.questionId
    && next.number == row.number
    && next.creator.actorId == row.creator.actorId
    && Phase(row.status) <= Phase(next.status)
    && (Phase(row.status) == Phase(next.status) ==> row.rowVersion <= next.rowVersion)
    && (Phase(row.status) == Phase(next.status) && row.rowVersion == next.rowVersion ==> next == row)
  }

  ghost predicate VersionsFollow(versions: map<Id, Version>, after: map<Id, Version>) {
    && versions.Keys <= after.Keys
    && forall v {:trigger VersionFollows(versions[v], after[v])} | v in versions ::
         VersionFollows(versions[v], after[v])
  }

  /** What is compared of two states about versions: their rows and the review log. */
  datatype Log = Log(versions: map<Id, Version>, reviews: seq<Review>, erased: set<Id>)

  function LogOf(db: Db): Log {
    Log(db.versions, db.reviews, db.erased)
  }

  /** A version that kept its row kept its latest approver. */
  ghost predicate ApproverKept(log: Log, after: Log, v: Id)
    requires v in log.versions && v in after.versions
  {
    log.versions[v] == after.versions[v] ==>
      SameOrErased(LatestApprover(log.reviews, v), LatestApprover(after.reviews, v), after.erased)
  }

  /** Versions move forward and keep their evidence; this chains over the writes of one command. */
  ghost predicate LogFollows(log: Log, after: Log) {
    && VersionsFollow(log.versions, after.versions)
    && (forall v {:trigger ApproverKept(log, after, v)} | v in log.versions :: ApproverKept(log, after, v))
    && log.erased <= after.erased
  }

  /** The question rows with the versions they are about. */
  datatype Catalog = Catalog(questions: map<Id, Question>, versions: map<Id, Version>)

  function CatalogOf(db: Db): Catalog {
    Catalog(db.questions, db.versions)
  }

  /** A question with the row version it had has the row, the versions and the open versions it had. */
  ghost predicate QuestionFollows(c: Catalog, after: Catalog, q: Id)
    requires q in c.questions && q in after.questions
  {
    && c.questions[q].rowVersion <= after.questions[q].rowVersion
    && (c.questions[q].rowVersion == after.questions[q].rowVersion ==>
          && after.questions[q] == c.questions[q]
          && (forall v :: Of(after.versions, v, q) <==> Of(c.versions, v, q))
          && (forall v :: OpenOf(after.versions, v, q) <==> OpenOf(c.versions, v, q)))
  }

  ghost predicate CatalogFollows(c: Catalog, after: Catalog) {
    && c.questions.Keys <= after.questions.Keys
    && forall q {:trigger QuestionFollows(c, after, q)} | q in c.questions :: QuestionFollows(c, after, q)
  }

  ghost predicate ReportFollows(row: Report, next: Report) {
    && next.questionId == row.questionId
    && next.versionId == row.versionId
    && row.rowVersion <= next.rowVersion
    && (row.rowVersion == next.rowVersion ==> next == row)
  }

  ghost predicate ReportsFollow(reports: map<Id, Report>, after: map<Id, Report>) {
    && reports.Keys <= after.Keys
    && forall r {:trigger ReportFollows(reports[r], after[r])} | r in reports :: ReportFollows(reports[r], after[r])
  }

  ghost predicate Follows(db: Db, after: Db) {
    && LogFollows(LogOf(db), LogOf(after))
    && CatalogFollows(CatalogOf(db), CatalogOf(after))
    && ReportsFollow(db.reports, after.reports)
    && db.tags <= after.tags
    && db.pinned <= after.pinned
  }

  lemma FollowsSelf(db: Db)
    ensures Follows(db, db)
  {
  }

  lemma LogTwo(a: Log, b: Log, c: Log)
    requires LogFollows(a, b) && LogFollows(b, c)
    ensures LogFollows(a, c)
  {
    forall v | v in a.versions ensures VersionFollows(a.versions[v], c.versions[v]) && ApproverKept(a, c, v) {
      assert VersionFollows(a.versions[v], b.versions[v]) && VersionFollows(b.versions[v], c.versions[v]);
      assert ApproverKept(a, b, v) && ApproverKept(b, c, v);
    }
  }

  lemma CatalogTwo(a: Catalog, b: Catalog, c: Catalog)
    requires CatalogFollows(a, b) && CatalogFollows(b, c)
    ensures CatalogFollows(a, c)
  {
    forall q | q in a.questions ensures QuestionFollows(a, c, q) {
      assert QuestionFollows(a, b, q) && QuestionFollows(b, c, q);
    }
  }

  lemma ReportsTwo(a: map<Id, Report>, b: map<Id, Report>, c: map<Id, Report>)
    requires ReportsFollow(a, b) && ReportsFollow(b, c)
    ensures ReportsFollow(a, c)
  {
    forall r | r in a ensures ReportFollows(a[r], c[r]) {
      assert ReportFollows(a[r], b[r]) && ReportFollows(b[r], c[r]);
    }
  }

  /** The order is transitive: it holds across any number of committed transactions. */
  lemma FollowsTwo(a: Db, b: Db, c: Db)
    requires Follows(a, b) && Follows(b, c)
    ensures Follows(a, c)
  {
    hide LogFollows, CatalogFollows, ReportsFollow;
    LogTwo(LogOf(a), LogOf(b), LogOf(c));
    CatalogTwo(CatalogOf(a), CatalogOf(b), CatalogOf(c));
    ReportsTwo(a.reports, b.reports, c.reports);
  }

  // ----- single writes

  lemma ApproverAppend(reviews: seq<Review>, r: Review, v: Id)
    ensures r.versionId != v ==> LatestApprover(reviews + [r], v) == LatestApprover(reviews, v)
    ensures r.versionId == v && r.action == ApprovedVersion ==> LatestApprover(reviews + [r], v) == r.actor
  {
    assert (reviews + [r])[..|reviews + [r]| - 1] == reviews;
  }

  /** One version moves forward with a review about it. */
  lemma LogMove(log: Log, id: Id, next: Version, r: Review)
    requires id in log.versions && r.versionId == id
    requires VersionFollows(log.versions[id], next) && next != log.versions[id]
    ensures LogFollows(log, Log(log.versions[id := next], log.reviews + [r], log.erased))
  {
    var after := Log(log.versions[id := next], log.reviews + [r], log.erased);
    forall v | v in log.versions
      ensures VersionFollows(log.versions[v], after.versions[v]) && ApproverKept(log, after, v)
    {
      ApproverAppend(log.reviews, r, v);
    }
  }

  /** A version row is added or moved forward without a review. */
  lemma LogPut(log: Log, id: Id, next: Version)
    requires id in log.versions ==> VersionFollows(log.versions[id], next)
    ensures LogFollows(log, log.(versions := log.versions[id := next]))
  {
    var after := log.(versions := log.versions[id := next]);
    forall v | v in log.versions
      ensures VersionFollows(log.versions[v], after.versions[v]) && ApproverKept(log, after, v)
    {
    }
  }

  lemma LogSelf(log: Log)
    ensures LogFollows(log, log)
  {
  }

  /** No question row is written and no version changes its place or its openness. */
  lemma CatalogKept(c: Catalog, after: Catalog)
    requires after.questions == c.questions && after.versions.Keys == c.versions.Keys
    requires forall v | v in c.versions ::
               after.versions[v].questionId == c.versions[v].questionId
               && (OpenStatus(after.versions[v].status) <==> OpenStatus(c.versions[v].status))
    ensures CatalogFollows(c, after)
  {
    forall q | q in c.questions ensures QuestionFollows(c, after, q) {
    }
  }

  /** One question row is bumped and versions change under that question only. */
  lemma CatalogBumped(c: Catalog, after: Catalog, q: Id)
    requires q in after.questions && after.questions == c.questions[q := after.questions[q]]
    requires q in c.questions ==> c.questions[q].rowVersion < after.questions[q].rowVersion
    requires forall v | v in c.versions && c.versions[v].questionId != q ::
               v in after.versions && after.versions[v] == c.versions[v]
    requires forall v | v in after.versions && after.versions[v].questionId != q ::
               v in c.versions && c.versions[v].questionId != q
    ensures CatalogFollows(c, after)
  {
    forall k | k in c.questions ensures QuestionFollows(c, after, k) {
    }
  }

  lemma ReportBumped(reports: map<Id, Report>, id: Id, next: Report)
    requires id in reports ==> ReportFollows(reports[id], next)
    ensures ReportsFollow(reports, reports[id := next])
  {
  }
}
