/** Each write of the commands keeps the invariant of the content tables. */
module ContentPreservation {
  import opened Common
  import opened ContentTables
  import opened ContentArm
  import opened ContentCommands
  import opened ContentInvariant

  // ----- single writes

  /** The next row of a version under review evidence. */
  ghost predicate Advances(row: Version, next: Version) {
    && next.content == row.content
    && next.creator == row.creator
    && Continues(row, next)
    && VersionShape(next)
    && (OpenStatus(next.status) ==> OpenStatus(row.status))
  }

  ghost predicate Witnesses(db: Db, r: Review, id: Id, row: Version, next: Version) {
    && r.versionId == id
    && r.fromState == row.status
    && r.toState == next.status
    && LegalReview(r)
    && ReviewLive(db.users.Keys, db.erased, r)
  }

  /** One version row replaced together with its review. */
  function Advance(db: Db, id: Id, next: Version, r: Review): Db {
    WithReview(WithVersion(db, id, next), r)
  }

  lemma VersionReplaced(db: Db, id: Id, next: Version)
    requires RowsInv(db) && id in db.versions
    requires VersionShape(next) && Continues(db.versions[id], next)
    requires next.creator == db.versions[id].creator
    requires OpenStatus(next.status) ==> OpenStatus(db.versions[id].status)
    ensures VersionsShaped(db.versions[id := next]) && Housed(db.versions[id := next], db.questions.Keys)
    ensures VersionsLive(db.users.Keys, db.erased, db.versions[id := next])
    ensures CandidatesLive(db.users, db.versions[id := next])
    ensures ReportsOk(db.reports, db.versions[id := next])
  {
    assert CreatorLive(db.users.Keys, db.erased, db.versions[id].creator);
    assert CandidateLive(db.users, db.versions[id]);
    ReportsContinue(db.reports, db.versions, db.versions[id := next]);
  }

  lemma ReviewsAppend(users: set<Id>, erased: set<Id>, versions: set<Id>, reviews: seq<Review>, r: Review)
    requires ReviewsLegal(reviews, versions) && ReviewsLive(users, erased, reviews)
    requires LegalReview(r) && r.versionId in versions && ReviewLive(users, erased, r)
    ensures ReviewsLegal(reviews + [r], versions) && ReviewsLive(users, erased, reviews + [r])
  {
    var after := reviews + [r];
    forall i | 0 <= i < |after|
      ensures LegalReview(after[i]) && after[i].versionId in versions && ReviewLive(users, erased, after[i])
    {
      if i < |reviews| {
        assert after[i] == reviews[i] && LegalReview(reviews[i]) && ReviewLive(users, erased, reviews[i]);
      }
    }
  }

  /** Moving one version with its review keeps every row rule. */
  lemma RowsAdvance(db: Db, id: Id, next: Version, r: Review)
    requires RowsInv(db) && id in db.versions
    requires Advances(db.versions[id], next) && Witnesses(db, r, id, db.versions[id], next)
    ensures RowsInv(Advance(db, id, next, r))
  {
    VersionReplaced(db, id, next);
    ReplaysMove(db.reviews, db.versions, r, id, next);
    assert db.versions[id := next].Keys == db.versions.Keys;
    ReviewsAppend(db.users.Keys, db.erased, db.versions.Keys, db.reviews, r);
    UniqueFrame(db.versions, db.versions[id := next]);
  }

  lemma RowsQuestion(db: Db, q: Id, next: Question)
    requires RowsInv(db)
    requires QuestionShape(next) && CreatorLive(db.users.Keys, db.erased, next.creator)
    ensures RowsInv(WithQuestion(db, q, next))
  {
  }

  lemma InvAudit(db: Db, a: Audit)
    requires Inv(db)
    ensures Inv(WithAudit(db, a))
  {
  }

  /** What the invariant says about one version and its question. */
  lemma HomeOf(db: Db, id: Id)
    requires Inv(db) && id in db.versions
    ensures var q := db.versions[id].questionId;
            && q in db.questions
            && VersionShape(db.versions[id]) && CreatorLive(db.users.Keys, db.erased, db.versions[id].creator)
            && QuestionShape(db.questions[q]) && CreatorLive(db.users.Keys, db.erased, db.questions[q].creator)
            && QuestionOk(db.versions, q, db.questions[q])
  {
    hide ContentUnique, ReplaysOk, ReportsOk, ReviewsLegal, Complete;
    var q := db.versions[id].questionId;
    assert QuestionOk(db.versions, q, db.questions[q]) && QuestionShape(db.questions[q])
           && VersionShape(db.versions[id]);
  }

  lemma QuestionLive(db: Db, q: Id)
    requires Inv(db) && q in db.questions
    ensures QuestionShape(db.questions[q]) && CreatorLive(db.users.Keys, db.erased, db.questions[q].creator)
    ensures QuestionOk(db.versions, q, db.questions[q]) && VersionsShaped(db.versions)
  {
    hide ContentUnique, ReplaysOk, ReportsOk, ReviewsLegal, Complete;
  }

  // ----- review transitions

  lemma InPlaceQuestion(versions: map<Id, Version>, q: Id, row: Question, id: Id, next: Version)
    requires QuestionOk(versions, q, row) && Of(versions, id, q)
    requires next.questionId == q && next.number == versions[id].number
    requires next.status == versions[id].status || (OpenStatus(next.status) && OpenStatus(versions[id].status))
    ensures QuestionOk(versions[id := next], q, row)
  {
    hide NumberingOk, Numbered, OneOpen;
    var after := versions[id := next];
    assert forall v :: Of(after, v, q) <==> Of(versions, v, q);
    assert CurrentOk(after, q, row.current);
    QuestionMoved(versions, after, q, row, row);
  }

  /** A version changes within its question without being published, retired or reopened. */
  lemma InPlaceAggregates(db: Db, id: Id, next: Version)
    requires AggregatesOk(db.questions, db.versions) && id in db.versions && db.versions[id].questionId in db.questions
    requires next.questionId == db.versions[id].questionId && next.number == db.versions[id].number
    requires next.status == db.versions[id].status || (OpenStatus(next.status) && OpenStatus(db.versions[id].status))
    ensures AggregatesOk(db.questions, db.versions[id := next])
  {
    hide QuestionOk;
    var q := next.questionId;
    assert QuestionOk(db.versions, q, db.questions[q]);
    InPlaceQuestion(db.versions, q, db.questions[q], id, next);
    AggregatesExcept(db.questions, db.versions, db.versions[id := next], q, db.questions[q]);
    assert db.questions[q := db.questions[q]] == db.questions;
  }

  /** A move between open states, with its review, keeps the invariant. */
  lemma OpenMoveKeeps(db: Db, id: Id, next: Version, r: Review)
    requires Inv(db) && id in db.versions
    requires OpenStatus(db.versions[id].status) && OpenStatus(next.status)
    requires Advances(db.versions[id], next) && Witnesses(db, r, id, db.versions[id], next)
    ensures Inv(Advance(db, id, next, r))
  {
    hide RowsOk, QuestionOk;
    HomeOf(db, id);
    RowsAdvance(db, id, next, r);
    InPlaceAggregates(db, id, next);
  }


  lemma TransitionKeeps(db: Db, operation: LifecycleOperation, actor: Id, id: Id, request: TransitionRequest, now: Time)
    requires Inv(db) && id in db.versions && actor in db.users
    requires db.versions[id].status in Config(operation).fromStates
    requires AuthorSnapshot(db.versions[id].creator).Some?
    requires operation == RequestQuestionChanges ==> db.versions[id].creator.userId != Some(actor)
    ensures Inv(TransitionEffect(db, Config(operation), actor, id, db.versions[id], request, now))
  {
    hide RowsOk, Complete;
    HomeOf(db, id);
    var config := Config(operation);
    var was := db.versions[id];
    var next := was.(status := config.toState, rowVersion := was.rowVersion + 1);
    var r := Review(id, was.questionId, config.action, was.status, config.toState, Some(AdminAccount(actor)),
                    if config.authorOnly then None else AuthorSnapshot(was.creator),
                    request.reason, request.comment, now);
    assert Advances(was, next);
    assert Witnesses(db, r, id, was, next);
    OpenMoveKeeps(db, id, next, r);
    InvAudit(Advance(db, id, next, r),
             Audit(config.command, Some(id), Some(AdminAccount(actor)),
                   Some(was.rowVersion), Some(was.rowVersion + 1), [VersionStatus]));
  }

  // ----- publish, retire, archive

  lemma RetiredAdvances(row: Version, rowVersion: nat, now: Time)
    requires VersionShape(row) && row.status == Published && rowVersion > 0
    ensures Advances(row, RetiredRow(row, rowVersion, now))
  {
  }

  /** The first half of a publication: the version it replaces is retired. */
  function Replaced(db: Db, actor: Id, q: Id, previous: Option<Id>, previousRow: nat, now: Time): Db
    requires previous.Some? ==> previous.value in db.versions
  {
    if previous.None? then db
    else Advance(db, previous.value, RetiredRow(db.versions[previous.value], previousRow + 1, now),
                 RetiredReview(previous.value, q, actor, PublishedReplacement, now))
  }

  /** The second half: the approved version is published. */
  function Released(db: Db, actor: Id, id: Id, q: Id, versionRow: nat, approver: Account, now: Time): Db
    requires id in db.versions
  {
    Advance(db, id, PublishedRow(db.versions[id], versionRow + 1, now),
            Review(id, q, PublishedVersion, Approved, Published, Some(AdminAccount(actor)), Some(approver), None, None,
                   now))
  }

  lemma ReplacedKeeps(db: Db, actor: Id, q: Id, previous: Option<Id>, previousRow: nat, now: Time)
    requires RowsInv(db) && actor in db.users
    requires previous.Some? ==> previous.value in db.versions && db.versions[previous.value].status == Published
    ensures RowsInv(Replaced(db, actor, q, previous, previousRow, now))
  {
    if previous.Some? {
      var p := previous.value;
      var row := db.versions[p];
      assert VersionShape(row);
      var r := RetiredReview(p, q, actor, PublishedReplacement, now);
      RetiredAdvances(row, previousRow + 1, now);
      assert Witnesses(db, r, p, row, RetiredRow(row, previousRow + 1, now));
      RowsAdvance(db, p, RetiredRow(row, previousRow + 1, now), r);
    }
  }

  lemma ReleasedKeeps(db: Db, actor: Id, id: Id, q: Id, versionRow: nat, approver: Account, now: Time)
    requires RowsInv(db) && id in db.versions && actor in db.users
    requires db.versions[id].status == Approved
    requires AccountLive(db.users.Keys, db.erased, approver)
    ensures RowsInv(Released(db, actor, id, q, versionRow, approver, now))
  {
    var row := db.versions[id];
    assert VersionShape(row);
    var next := PublishedRow(row, versionRow + 1, now);
    var r := Review(id, q, PublishedVersion, Approved, Published, Some(AdminAccount(actor)), Some(approver), None,
                    None, now);
    assert Advances(row, next) && Witnesses(db, r, id, row, next);
    RowsAdvance(db, id, next, r);
  }

  /** After a publication the question refers to the new version and nothing else is published. */
  lemma PublishCurrent(versions: map<Id, Version>, after: map<Id, Version>, q: Id, row: Question, next: Question,
                       id: Id)
    requires QuestionOk(versions, q, row) && Of(versions, id, q) && versions[id].status == Approved
    requires after.Keys == versions.Keys
    requires forall v | v in versions && v != id && row.current != Some(v) :: after[v] == versions[v]
    requires forall v | v in versions :: Continues(versions[v], after[v])
    requires row.current.Some? ==> after[row.current.value].status == Retired
    requires after[id].status == Published
    requires next.lifecycle == row.lifecycle && next.current == Some(id)
    ensures QuestionOk(after, q, next)
  {
    assert row.lifecycle == Active;
    assert forall v :: Of(after, v, q) <==> Of(versions, v, q);
    assert CurrentOk(after, q, Some(id));
    QuestionMoved(versions, after, q, row, next);
  }

  /** With the row rules settled, only the aggregate of the written question is left. */
  lemma AggregateSettled(db: Db, after: Db, q: Id)
    requires Inv(db) && RowsInv(after) && q in after.questions
    requires after.questions == db.questions[q := after.questions[q]]
    requires forall v | v in db.versions && db.versions[v].questionId != q ::
               v in after.versions && after.versions[v] == db.versions[v]
    requires forall v | v in after.versions && after.versions[v].questionId != q ::
               v in db.versions && db.versions[v].questionId != q
    requires QuestionOk(after.versions, q, after.questions[q])
    ensures Inv(after)
  {
    AggregatesExcept(db.questions, db.versions, after.versions, q, after.questions[q]);
  }

  lemma HomesStay(versions: map<Id, Version>, after: map<Id, Version>)
    requires after.Keys == versions.Keys && forall v | v in versions :: Continues(versions[v], after[v])
    ensures forall v | v in versions :: after[v].questionId == versions[v].questionId
  {
  }

  lemma PublishSettled(db: Db, second: Db, q: Id, next: Question, id: Id)
    requires Inv(db) && RowsInv(second)
    requires second.questions == db.questions && second.users == db.users && second.erased == db.erased
    requires Of(db.versions, id, q) && q in db.questions && db.versions[id].status == Approved
    requires second.versions.Keys == db.versions.Keys
    requires forall v | v in db.versions && v != id && db.questions[q].current != Some(v) ::
               second.versions[v] == db.versions[v]
    requires forall v | v in db.versions :: Continues(db.versions[v], second.versions[v])
    requires db.questions[q].current.Some? ==>
               Of(second.versions, db.questions[q].current.value, q)
               && second.versions[db.questions[q].current.value].status == Retired
    requires second.versions[id].status == Published
    requires next == db.questions[q].(current := Some(id), rowVersion := next.rowVersion) && next.rowVersion > 0
    ensures Inv(WithQuestion(second, q, next))
  {
    hide RowsInv, Continues, AggregatesOk, QuestionOk, Inv;
    var row := db.questions[q];
    HomesStay(db.versions, second.versions);
    QuestionLive(db, q);
    RowsQuestion(second, q, next);
    PublishCurrent(db.versions, second.versions, q, row, next, id);
    AggregateSettled(db, WithQuestion(second, q, next), q);
  }

  /**
    * A publication keeps the invariant whatever row versions it writes, so one
    * planned on old rows keeps it too.
    */
  lemma PublishKeeps(db: Db, actor: Id, id: Id, previous: Option<Id>, previousRow: nat, versionRow: nat,
                     questionRow: nat, approver: Account, now: Time)
    requires Inv(db) && id in db.versions && actor in db.users
    requires db.versions[id].status == Approved
    requires previous == db.questions[db.versions[id].questionId].current
    requires previous.Some? ==> previous.value in db.versions && db.versions[previous.value].status == Published
    requires AccountLive(db.users.Keys, db.erased, approver)
    ensures Inv(PublishEffect(db, actor, id, db.versions[id].questionId, previous, previousRow, versionRow,
                              questionRow, approver, now))
  {
    var q := db.versions[id].questionId;
    var first := Replaced(db, actor, q, previous, previousRow, now);
    var second := Released(first, actor, id, q, versionRow, approver, now);
    var next := db.questions[q].(current := Some(id), rowVersion := questionRow + 1);
    var effect := PublishEffect(db, actor, id, q, previous, previousRow, versionRow, questionRow, approver, now);
    assert effect == WithQuestion(second, q, next).(audits := effect.audits);
    PublishReady(db, id, q, previous);
    PublishHalves(db, actor, id, q, previous, previousRow, versionRow, approver, now);
    ReplacedKeeps(db, actor, q, previous, previousRow, now);
    ReleasedKeeps(first, actor, id, q, versionRow, approver, now);
    PublishSettled(db, second, q, next, id);
  }

  lemma PublishReady(db: Db, id: Id, q: Id, previous: Option<Id>)
    requires Inv(db) && Of(db.versions, id, q) && previous == db.questions[q].current
    ensures VersionShape(db.versions[id])
    ensures previous.Some? ==> Of(db.versions, previous.value, q) && VersionShape(db.versions[previous.value])
  {
    assert QuestionOk(db.versions, q, db.questions[q]);
  }

  /** The version rows after both halves of a publication. */
  lemma PublishHalves(db: Db, actor: Id, id: Id, q: Id, previous: Option<Id>, previousRow: nat, versionRow: nat,
                      approver: Account, now: Time)
    requires Of(db.versions, id, q) && db.versions[id].status == Approved && VersionShape(db.versions[id])
    requires previous.Some? ==> Of(db.versions, previous.value, q) && db.versions[previous.value].status == Published
                                && VersionShape(db.versions[previous.value])
    ensures var second := Released(Replaced(db, actor, q, previous, previousRow, now), actor, id, q, versionRow,
                                   approver, now);
            && second.versions.Keys == db.versions.Keys
            && (forall v | v in db.versions && v != id && previous != Some(v) :: second.versions[v] == db.versions[v])
            && (forall v | v in db.versions :: Continues(db.versions[v], second.versions[v]))
            && (previous.Some? ==> Of(second.versions, previous.value, q)
                                   && second.versions[previous.value].status == Retired)
            && second.versions[id].status == Published
  {
    hide Complete, CreatorShape;
  }

  /** After a retirement the question has no current version. */
  lemma RetiredCurrent(versions: map<Id, Version>, q: Id, row: Question, next: Question, id: Id, retired: Version)
    requires QuestionOk(versions, q, row) && Of(versions, id, q) && versions[id].status == Published
    requires retired.status == Retired && retired.questionId == q && retired.number == versions[id].number
    requires next == row.(current := None, rowVersion := next.rowVersion)
    ensures QuestionOk(versions[id := retired], q, next)
  {
    hide NumberingOk, Numbered, OneOpen;
    var after := versions[id := retired];
    assert forall v :: Of(after, v, q) <==> Of(versions, v, q);
    assert CurrentOk(after, q, None);
    QuestionMoved(versions, after, q, row, next);
  }

  lemma RetireKeeps(db: Db, actor: Id, id: Id, versionRow: nat, questionRow: nat, now: Time)
    requires Inv(db) && id in db.versions && actor in db.users
    requires db.versions[id].status == Published
    ensures Inv(RetireEffect(db, actor, id, db.versions[id].questionId, versionRow, questionRow, now))
  {
    hide RowsOk, AggregatesOk, QuestionOk, Advances, Complete, CreatorShape;
    HomeOf(db, id);
    var q := db.versions[id].questionId;
    var row := db.questions[q];
    var next := row.(current := None, rowVersion := questionRow + 1);
    var retired := RetiredRow(db.versions[id], versionRow + 1, now);
    var r := RetiredReview(id, q, actor, PublishedRetired, now);
    RetiredAdvances(db.versions[id], versionRow + 1, now);
    assert Witnesses(db, r, id, db.versions[id], retired);
    RowsAdvance(db, id, retired, r);
    var moved := Advance(db, id, retired, r);
    RowsQuestion(moved, q, next);
    RetiredCurrent(db.versions, q, row, next, id, retired);
    AggregateSettled(db, WithQuestion(moved, q, next), q);
    InvAudit(WithQuestion(moved, q, next),
             RetireEffect(db, actor, id, q, versionRow, questionRow, now).audits[|db.audits|]);
  }

  /** The first half of an archive: the current version is retired. */
  function ArchivedCurrent(db: Db, actor: Id, questionId: Id, current: Option<Id>, rows: map<Id, Version>,
                           now: Time): Db
    requires current.Some? ==> current.value in db.versions && current.value in rows
  {
    if current.None? then db
    else Advance(db, current.value, RetiredRow(db.versions[current.value], rows[current.value].rowVersion + 1, now),
                 RetiredReview(current.value, questionId, actor, ArchivedQuestion, now))
  }

  /** The second half: the open candidate is abandoned. */
  function ArchivedCandidate(db: Db, actor: Id, questionId: Id, candidate: Option<Id>, rows: map<Id, Version>,
                             now: Time): Db
    requires candidate.Some? ==> candidate.value in rows
  {
    if candidate.None? then db
    else
      var was := rows[candidate.value];
      Advance(db, candidate.value, AbandonedRow(was, was.rowVersion + 1, now),
              Review(candidate.value, questionId, ArchiveAbandoned, was.status, Retired, Some(AdminAccount(actor)),
                     AuthorSnapshot(was.creator), Some(ArchivedQuestion), None, now))
  }

  lemma ArchivedCurrentKeeps(db: Db, actor: Id, questionId: Id, current: Option<Id>, rows: map<Id, Version>, now: Time)
    requires RowsInv(db) && actor in db.users
    requires current.Some? ==> Of(db.versions, current.value, questionId) && current.value in rows
                               && db.versions[current.value].status == Published
    ensures RowsInv(ArchivedCurrent(db, actor, questionId, current, rows, now))
  {
    if current.Some? {
      var c := current.value;
      var row := db.versions[c];
      assert VersionShape(row);
      var r := RetiredReview(c, questionId, actor, ArchivedQuestion, now);
      RetiredAdvances(row, rows[c].rowVersion + 1, now);
      assert Witnesses(db, r, c, row, RetiredRow(row, rows[c].rowVersion + 1, now));
      RowsAdvance(db, c, RetiredRow(row, rows[c].rowVersion + 1, now), r);
    }
  }

  lemma ArchivedCandidateKeeps(db: Db, actor: Id, questionId: Id, candidate: Option<Id>, rows: map<Id, Version>,
                               now: Time)
    requires RowsInv(db) && actor in db.users
    requires candidate.Some? ==> OpenOf(db.versions, candidate.value, questionId) && candidate.value in rows
                                 && rows[candidate.value] == db.versions[candidate.value]
                                 && AuthorSnapshot(rows[candidate.value].creator).Some?
    ensures RowsInv(ArchivedCandidate(db, actor, questionId, candidate, rows, now))
  {
    if candidate.Some? {
      var c := candidate.value;
      var was := db.versions[c];
      assert VersionShape(was) && CreatorLive(db.users.Keys, db.erased, was.creator);
      var r := Review(c, questionId, ArchiveAbandoned, was.status, Retired, Some(AdminAccount(actor)),
                      AuthorSnapshot(was.creator), Some(ArchivedQuestion), None, now);
      var next := AbandonedRow(was, was.rowVersion + 1, now);
      assert Advances(was, next) && Witnesses(db, r, c, was, next);
      RowsAdvance(db, c, next, r);
    }
  }

  /** What an archive needs of the rows it read. */
  ghost predicate Archivable(db: Db, questionId: Id, current: Option<Id>, candidate: Option<Id>, rows: map<Id, Version>)
  {
    && questionId in db.questions
    && current == db.questions[questionId].current
    && (current.Some? ==> Of(db.versions, current.value, questionId) && current.value in rows
                          && db.versions[current.value].status == Published)
    && (candidate.Some? ==> OpenOf(db.versions, candidate.value, questionId) && candidate.value in rows
                            && rows[candidate.value] == db.versions[candidate.value]
                            && AuthorSnapshot(rows[candidate.value].creator).Some?)
    && (forall v: Id | OpenOf(db.versions, v, questionId) :: candidate == Some(v))
  }

  /** Every version that was open or published is retired; the question is archived without a current version. */
  lemma ArchiveCurrentGone(versions: map<Id, Version>, after: map<Id, Version>, q: Id, row: Question, next: Question)
    requires QuestionOk(versions, q, row) && VersionsShaped(versions)
    requires after.Keys == versions.Keys
    requires forall v | v in versions :: Continues(versions[v], after[v])
    requires forall v | v in versions :: after[v] == versions[v] || after[v].status == Retired
    requires forall v | OpenOf(versions, v, q) || row.current == Some(v) :: after[v].status == Retired
    requires next.current.None?
    ensures QuestionOk(after, q, next)
  {
    assert forall v :: Of(after, v, q) <==> Of(versions, v, q);
    forall v | Of(after, v, q) ensures after[v].status == Retired {
      assert Of(versions, v, q);
      if OpenStatus(versions[v].status) {
        assert OpenOf(versions, v, q);
      }
    }
    QuestionMoved(versions, after, q, row, next);
  }

  /** The version rows after the first half of an archive. */
  lemma ArchiveFirstHalf(db: Db, actor: Id, questionId: Id, current: Option<Id>, rows: map<Id, Version>, now: Time)
    requires current.Some? ==> current.value in db.versions && current.value in rows
                               && db.versions[current.value].status == Published
                               && LifecycleShape(db.versions[current.value])
    ensures var first := ArchivedCurrent(db, actor, questionId, current, rows, now).versions;
            && first.Keys == db.versions.Keys
            && AllContinue(db.versions, first)
            && (forall v | v in db.versions && current != Some(v) :: first[v] == db.versions[v])
            && (current.Some? ==> first[current.value].status == Retired)
  {
  }

  /** The version rows after the second half of an archive. */
  lemma ArchiveSecondHalf(db: Db, actor: Id, questionId: Id, candidate: Option<Id>, rows: map<Id, Version>, now: Time)
    requires candidate.Some? ==> candidate.value in db.versions && candidate.value in rows
                                 && rows[candidate.value] == db.versions[candidate.value]
                                 && OpenStatus(db.versions[candidate.value].status)
    ensures var second := ArchivedCandidate(db, actor, questionId, candidate, rows, now).versions;
            && second.Keys == db.versions.Keys
            && AllContinue(db.versions, second)
            && (forall v | v in db.versions && candidate != Some(v) :: second[v] == db.versions[v])
            && (candidate.Some? ==> second[candidate.value].status == Retired)
  {
  }

  /** What an archive leaves of the version rows. */
  ghost predicate Shut(versions: map<Id, Version>, after: map<Id, Version>, current: Option<Id>, candidate: Option<Id>)
  {
    && after.Keys == versions.Keys
    && AllContinue(versions, after)
    && (forall v | v in versions && current != Some(v) && candidate != Some(v) :: after[v] == versions[v])
    && (forall v | v in versions && (current == Some(v) || candidate == Some(v)) :: after[v].status == Retired)
  }

  lemma ShutInHalves(versions: map<Id, Version>, first: map<Id, Version>, second: map<Id, Version>,
                     current: Option<Id>, candidate: Option<Id>)
    requires Shut(versions, first, current, None) && Shut(first, second, None, candidate)
    ensures Shut(versions, second, current, candidate)
  {
  }

  /** Archiving retires everything that was open or published, at once. */
  lemma ArchiveKeeps(db: Db, actor: Id, questionId: Id, questionRow: nat, current: Option<Id>, candidate: Option<Id>,
                     rows: map<Id, Version>, now: Time)
    requires Inv(db) && actor in db.users
    requires Archivable(db, questionId, current, candidate, rows)
    ensures Inv(ArchiveEffect(db, actor, questionId, questionRow, current, candidate, rows, now))
  {
    var row := db.questions[questionId];
    var next := row.(current := None, lifecycle := Archived, rowVersion := questionRow + 1);
    var effect := ArchiveEffect(db, actor, questionId, questionRow, current, candidate, rows, now);
    var first := ArchivedCurrent(db, actor, questionId, current, rows, now);
    var second := ArchivedCandidate(first, actor, questionId, candidate, rows, now);
    assert effect == WithQuestion(second, questionId, next).(audits := effect.audits);
    ArchiveRows(db, actor, questionId, current, candidate, rows, now);
    ArchiveSettled(db, second, questionId, next, candidate);
  }

  lemma ArchiveRows(db: Db, actor: Id, questionId: Id, current: Option<Id>, candidate: Option<Id>,
                    rows: map<Id, Version>, now: Time)
    requires Inv(db) && actor in db.users
    requires Archivable(db, questionId, current, candidate, rows)
    ensures var second := ArchivedCandidate(ArchivedCurrent(db, actor, questionId, current, rows, now), actor,
                                            questionId, candidate, rows, now);
            RowsInv(second) && Shut(db.versions, second.versions, current, candidate)
  {
    hide AggregatesOk, ReplaysOk, ReviewsLegal, ReportsOk, CandidatesLive, ReferencesLive, ContentUnique, Shut;
    var first := ArchivedCurrent(db, actor, questionId, current, rows, now);
    var second := ArchivedCandidate(first, actor, questionId, candidate, rows, now);
    ArchivedCurrentKeeps(db, actor, questionId, current, rows, now);
    ArchivedCandidateKeeps(first, actor, questionId, candidate, rows, now);
    assert current.Some? ==> VersionShape(db.versions[current.value]);
    ArchiveFirstHalf(db, actor, questionId, current, rows, now);
    ArchiveSecondHalf(first, actor, questionId, candidate, rows, now);
    ShutInHalves(db.versions, first.versions, second.versions, current, candidate);
  }

  lemma ArchiveSettled(db: Db, second: Db, questionId: Id, next: Question, candidate: Option<Id>)
    requires Inv(db) && RowsInv(second) && questionId in db.questions
    requires second.questions == db.questions && second.users == db.users && second.erased == db.erased
    requires Shut(db.versions, second.versions, db.questions[questionId].current, candidate)
    requires candidate.Some? ==> Of(db.versions, candidate.value, questionId)
    requires forall v: Id | OpenOf(db.versions, v, questionId) :: candidate == Some(v)
    requires next.current.None? && next.creator == db.questions[questionId].creator && next.rowVersion > 0
    ensures Inv(WithQuestion(second, questionId, next))
  {
    hide RowsInv, AggregatesOk, NumberingOk, OneOpen, ArchiveOk, Inv, Continues;
    QuestionLive(db, questionId);
    HomesStay(db.versions, second.versions);
    var row := db.questions[questionId];
    RowsQuestion(second, questionId, next);
    ArchiveCurrentGone(db.versions, second.versions, questionId, row, next);
    AggregateSettled(db, WithQuestion(second, questionId, next), questionId);
  }

  // ----- new rows

  /** A version row with a fresh key, in its birth status. */
  lemma RowsInsert(db: Db, id: Id, row: Version)
    requires RowsInv(db) && id !in db.versions && row.questionId in db.questions
    requires VersionShape(row) && row.status == BirthStatus(row.creator)
    requires CreatorLive(db.users.Keys, db.erased, row.creator) && CandidateLive(db.users, row)
    requires forall v {:trigger Apart(row, db.versions[v])} | v in db.versions :: Apart(row, db.versions[v])
    ensures RowsInv(WithVersion(db, id, row))
  {
    var after := db.versions[id := row];
    ReportsContinue(db.reports, db.versions, after);
    UniquePut(db.versions, id, row);
    ReplaysInsert(db.reviews, db.versions, id, row);
  }

  lemma ReplaysInsert(reviews: seq<Review>, versions: map<Id, Version>, id: Id, row: Version)
    requires ReplaysOk(reviews, versions) && ReviewsLegal(reviews, versions.Keys)
    requires id !in versions && row.status == BirthStatus(row.creator)
    ensures ReplaysOk(reviews, versions[id := row]) && ReviewsLegal(reviews, versions[id := row].Keys)
  {
    forall i | 0 <= i < |reviews|
      ensures reviews[i].versionId in versions && reviews[i].versionId in versions[id := row]
    {
      assert LegalReview(reviews[i]);
    }
    ReplayAbsent(reviews, id, BirthStatus(row.creator));
  }

  lemma NoDuplicateIsApart(db: Db, row: Version)
    requires !CrossQuestionDuplicate(db, row.questionId, FingerprintOf(row.content))
    ensures forall v | v in db.versions :: Apart(row, db.versions[v])
  {
  }

  /** The row may enter: its shape is complete and its content is not used by another question. */
  ghost predicate Admissible(versions: map<Id, Version>, row: Version) {
    VersionShape(row) && forall v {:trigger Apart(row, versions[v])} | v in versions :: Apart(row, versions[v])
  }

  lemma CheckedIsAdmissible(db: Db, row: Version)
    requires ContentCheck(db, row.questionId, row.content).None?
    requires CreatorShape(row.creator) && LifecycleShape(row) && row.retirement.None?
    requires row.number > 0 && row.rowVersion > 0
    ensures Admissible(db.versions, row)
  {
    NoDuplicateIsApart(db, row);
  }

  lemma FirstVersionOk(after: map<Id, Version>, q: Id, row: Question, id: Id)
    requires forall v :: Of(after, v, q) <==> v == id
    requires id in after && after[id].number == 1 && OpenStatus(after[id].status)
    requires row.current.None? && row.lifecycle == Active
    ensures QuestionOk(after, q, row)
  {
    assert Of(after, id, q);
    assert Numbered(after, q, 1);
  }

  /** A new question with its first draft keeps the invariant. */
  lemma InsertQuestionKeeps(db: Db, actor: Id, questionId: Id, versionId: Id, content: Content)
    requires Inv(db) && HasAuthority(db, actor)
    requires questionId !in db.questions && versionId !in db.versions
    requires Admissible(db.versions, NewVersion(actor, questionId, 1, content))
    ensures Inv(InsertQuestion(db, actor, questionId, versionId, content))
  {
    var row := NewVersion(actor, questionId, 1, content);
    var first := WithQuestion(db, questionId, NewQuestion(actor));
    RowsQuestion(db, questionId, NewQuestion(actor));
    RowsInsert(first, versionId, row);
    var second := WithVersion(first, versionId, row);
    assert forall v :: Of(second.versions, v, questionId) <==> v == versionId;
    FirstVersionOk(second.versions, questionId, NewQuestion(actor), versionId);
    AggregateSettled(db, second, questionId);
  }

  lemma NextNumberOk(versions: map<Id, Version>, q: Id, id: Id, version: Version)
    requires NumberingOk(versions, q) && id !in versions && version.questionId == q
    requires forall v | Of(versions, v, q) :: versions[v].number < version.number
    requires version.number > 0 && Numbered(versions, q, version.number - 1)
    ensures NumberingOk(versions[id := version], q)
  {
    hide NumberingOk;
    var after := versions[id := version];
    forall n: nat | Numbered(versions, q, n) ensures Numbered(after, q, n) {
      var v :| Of(versions, v, q) && versions[v].number == n;
      assert Of(after, v, q);
    }
    forall v, w | Of(after, v, q) && Of(after, w, q) && after[v].number == after[w].number ensures v == w {
      assert v != id ==> Of(versions, v, q);
      assert w != id ==> Of(versions, w, q);
      NumberingOf(versions, q);
    }
    NumberingOf(versions, q);
    forall v | Of(after, v, q) && after[v].number > 1 ensures Numbered(after, q, after[v].number - 1) {
      assert v != id ==> Of(versions, v, q);
    }
    NumberingFrom(after, q);
  }

  lemma NumberingOf(versions: map<Id, Version>, q: Id)
    requires NumberingOk(versions, q)
    ensures forall v, w | Of(versions, v, q) && Of(versions, w, q) && versions[v].number == versions[w].number :: v == w
    ensures Numbered(versions, q, 1)
    ensures forall v | Of(versions, v, q) && versions[v].number > 1 :: Numbered(versions, q, versions[v].number - 1)
  {
  }

  lemma NumberingFrom(versions: map<Id, Version>, q: Id)
    requires forall v, w | Of(versions, v, q) && Of(versions, w, q) && versions[v].number == versions[w].number ::
               v == w
    requires Numbered(versions, q, 1)
    requires forall v | Of(versions, v, q) && versions[v].number > 1 :: Numbered(versions, q, versions[v].number - 1)
    ensures NumberingOk(versions, q)
  {
  }

  lemma MaximumIsNumbered(db: Db, q: Id, maximum: nat)
    requires NumberingOk(db.versions, q) && IsMaximumNumber(db, q, maximum)
    ensures maximum > 0 && Numbered(db.versions, q, maximum)
    ensures forall v | Of(db.versions, v, q) :: db.versions[v].number <= maximum
  {
    var first :| Of(db.versions, first, q) && db.versions[first].number == 1;
    var last :| last in db.versions && db.versions[last].questionId == q && db.versions[last].number == maximum;
    assert Of(db.versions, last, q);
  }

  lemma NextIsOnlyOpen(versions: map<Id, Version>, q: Id, id: Id, version: Version)
    requires id !in versions && forall v: Id :: !OpenOf(versions, v, q)
    ensures OneOpen(versions[id := version], q)
  {
    var after := versions[id := version];
    forall v | OpenOf(after, v, q) ensures v == id {
      assert v != id ==> OpenOf(versions, v, q);
    }
  }

  lemma NextIsNotCurrent(versions: map<Id, Version>, q: Id, current: Option<Id>, id: Id, version: Version)
    requires CurrentOk(versions, q, current) && id !in versions
    requires version.questionId == q && OpenStatus(version.status)
    ensures CurrentOk(versions[id := version], q, current)
  {
    var after := versions[id := version];
    forall v | Of(after, v, q) ensures after[v].status == Published <==> current == Some(v) {
      assert v != id ==> Of(versions, v, q);
    }
  }

  /** The next version of a question takes the next number. */
  lemma NextVersionOk(versions: map<Id, Version>, q: Id, row: Question, next: Question, id: Id, version: Version)
    requires QuestionOk(versions, q, row) && id !in versions
    requires version.questionId == q && OpenStatus(version.status)
    requires forall v | Of(versions, v, q) :: versions[v].number < version.number
    requires version.number > 0 && Numbered(versions, q, version.number - 1)
    requires forall v: Id :: !OpenOf(versions, v, q)
    requires next.current == row.current && next.lifecycle == Active
    ensures QuestionOk(versions[id := version], q, next)
  {
    hide NumberingOk, Numbered;
    NextNumberOk(versions, q, id, version);
    NextIsOnlyOpen(versions, q, id, version);
    NextIsNotCurrent(versions, q, next.current, id, version);
  }

  lemma InsertVersionKeeps(db: Db, actor: Id, questionId: Id, versionId: Id, content: Content, maximum: nat,
                           questionRow: nat)
    requires Inv(db) && HasAuthority(db, actor)
    requires questionId in db.questions && versionId !in db.versions
    requires db.questions[questionId].lifecycle == Active
    requires IsMaximumNumber(db, questionId, maximum) && !HasOpenCandidate(db, questionId)
    requires Admissible(db.versions, NewVersion(actor, questionId, maximum + 1, content))
    ensures Inv(WithVersion(WithQuestion(db, questionId, db.questions[questionId].(rowVersion := questionRow + 1)),
                            versionId, NewVersion(actor, questionId, maximum + 1, content)))
  {
    hide RowsOk, VersionShape;
    QuestionLive(db, questionId);
    var row := db.questions[questionId];
    var next := row.(rowVersion := questionRow + 1);
    var version := NewVersion(actor, questionId, maximum + 1, content);
    RowsQuestion(db, questionId, next);
    var first := WithQuestion(db, questionId, next);
    RowsInsert(first, versionId, version);
    MaximumIsNumbered(db, questionId, maximum);
    NextVersionOk(db.versions, questionId, row, next, versionId, version);
    AggregateSettled(db, WithVersion(first, versionId, version), questionId);
  }

  // ----- content updates and reports

  lemma UpdateKeeps(db: Db, id: Id, content: Content, rowVersion: nat)
    requires Inv(db) && id in db.versions && OpenStatus(db.versions[id].status)
    requires Admissible(db.versions, db.versions[id].(content := content, rowVersion := rowVersion))
    ensures Inv(WithVersion(db, id, db.versions[id].(content := content, rowVersion := rowVersion)))
  {
    hide AggregatesOk, CandidatesLive, ReviewsLegal, ReportsOk, Complete;
    var row := db.versions[id];
    var next := row.(content := content, rowVersion := rowVersion);
    assert VersionShape(row);
    VersionReplaced(db, id, next);
    UniquePut(db.versions, id, next);
    assert db.versions[id := next].Keys == db.versions.Keys;
    assert ReplayOk(db.reviews, id, row);
    InPlaceAggregates(db, id, next);
  }

  lemma ReportKeeps(db: Db, id: Id, row: Report)
    requires Inv(db) && ReportOk(db.versions, row) && ReportLive(db.users.Keys, db.erased, row)
    ensures Inv(WithReport(db, id, row))
  {
  }
}
