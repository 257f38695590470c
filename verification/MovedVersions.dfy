/**
  * The review trail of one transaction, version by version: a committed
  * transaction that changes the status of a version writes exactly one review
  * for it, from the status before to the status after, and a transaction that
  * leaves the status alone writes none.
  */
module MovedVersions {
  import opened Common
  import opened ContentTables
  import opened ContentInvariant
  import opened ContentOrder
  import opened ContentTrail
  import opened ContentEvidence
  import opened ReviewedContent
  import opened ContentEvents
  import opened ContentSteps
  import opened ContentRuns

  /** The new review at the index is the only one about the version and states the move. */
  ghost predicate RecordedAt(db: Db, next: Db, v: Id, i: nat)
    requires v in db.versions && v in next.versions
  {
    && |db.reviews| <= i < |next.reviews|
    && next.reviews[i].versionId == v
    && next.reviews[i].fromState == db.versions[v].status
    && next.reviews[i].toState == next.versions[v].status
    && forall j | |db.reviews| <= j < |next.reviews| && next.reviews[j].versionId == v :: j == i
  }

  ghost predicate Recorded(db: Db, next: Db, v: Id)
    requires v in db.versions && v in next.versions
  {
    exists i: nat :: RecordedAt(db, next, v, i)
  }

  ghost predicate Silent(reviews: seq<Review>, start: nat, end: nat, v: Id)
    requires end <= |reviews|
  {
    forall j | start <= j < end :: reviews[j].versionId != v
  }

  /** Reviews about other versions do not show in the replay. */
  lemma {:induction false} SilentReplay(reviews: seq<Review>, start: nat, end: nat, v: Id, birth: Status)
    requires start <= end <= |reviews| && Silent(reviews, start, end, v)
    ensures Replay(reviews[..end], v, birth) == Replay(reviews[..start], v, birth)
    decreases end
  {
    if end == start {
    } else {
      SilentReplay(reviews, start, end - 1, v, birth);
      assert reviews[..end][..end - 1] == reviews[..end - 1];
    }
  }

  /**
    * One review about the version, with nothing else about it after the old log,
    * takes the old status to the new one.
    */
  lemma OneReview(reviews: seq<Review>, n: nat, i: nat, v: Id, birth: Status, was: Status, now: Status)
    requires n <= i < |reviews| && reviews[i].versionId == v
    requires Silent(reviews, n, i, v) && Silent(reviews, i + 1, |reviews|, v)
    requires Replay(reviews[..n], v, birth) == Some(was) && Replay(reviews, v, birth) == Some(now)
    ensures reviews[i].fromState == was && reviews[i].toState == now
  {
    SilentReplay(reviews, n, i, v, birth);
    SilentReplay(reviews, i + 1, |reviews|, v, birth);
    assert reviews[..|reviews|] == reviews;
    assert reviews[..i + 1][..i] == reviews[..i];
  }

  /** The replays of a version before and after a traced transaction. */
  lemma ReplaysAt(db: Db, next: Db, v: Id)
    requires Inv(db) && Inv(next) && Traced(LogOf(db), LogOf(next)) && v in db.versions
    ensures |db.reviews| <= |next.reviews| && v in next.versions
    ensures BirthStatus(next.versions[v].creator) == BirthStatus(db.versions[v].creator)
    ensures Replay(next.reviews[..|db.reviews|], v, BirthStatus(db.versions[v].creator)) == Some(db.versions[v].status)
    ensures Replay(next.reviews, v, BirthStatus(db.versions[v].creator)) == Some(next.versions[v].status)
    ensures forall i, j | |db.reviews| <= i < j < |next.reviews| ::
              next.reviews[i].versionId != next.reviews[j].versionId
  {
    hide VersionsShaped, QuestionsShaped, Housed, ReferencesLive, CandidatesLive, ReviewsLegal, ReportsOk,
         ContentUnique, AggregatesOk;
    assert ReplayOk(db.reviews, v, db.versions[v]);
    var old' := next.reviews[..|db.reviews|];
    if Edits(LogOf(db), LogOf(next)) {
      assert RowTraced(db.versions[v], next.versions[v]);
      assert old' == db.reviews;
    } else {
      var touched: set<Id> :| Moves(LogOf(db), LogOf(next), touched);
      assert RowTraced(db.versions[v], next.versions[v]);
      forall i | 0 <= i < |db.reviews| ensures ReviewKept(db.reviews[i], old'[i]) {
        assert ReviewKept(db.reviews[i], next.reviews[i]);
      }
      KeptLog(db.reviews, old', v, BirthStatus(db.versions[v].creator));
    }
    assert ReplayOk(next.reviews, v, next.versions[v]);
  }

  /** A new review about a version is the record of its move; without one its status stands. */
  lemma MoveOf(db: Db, next: Db, v: Id)
    requires Inv(db) && Inv(next) && Traced(LogOf(db), LogOf(next)) && v in db.versions
    ensures v in next.versions
    ensures forall i | |db.reviews| <= i < |next.reviews| && next.reviews[i].versionId == v ::
              RecordedAt(db, next, v, i)
    ensures Silent(next.reviews, |db.reviews|, |next.reviews|, v) ==> next.versions[v].status == db.versions[v].status
  {
    hide Inv, Traced, Replay;
    ReplaysAt(db, next, v);
    var n, birth := |db.reviews|, BirthStatus(db.versions[v].creator);
    forall i | n <= i < |next.reviews| && next.reviews[i].versionId == v ensures RecordedAt(db, next, v, i) {
      OneReview(next.reviews, n, i, v, birth, db.versions[v].status, next.versions[v].status);
    }
    if Silent(next.reviews, n, |next.reviews|, v) {
      SilentReplay(next.reviews, n, |next.reviews|, v, birth);
      assert next.reviews[..|next.reviews|] == next.reviews;
    }
  }

  /** A new review is about a version that was there before. */
  lemma ReviewedBefore(db: Db, next: Db, i: nat)
    requires Inv(next) && Traced(LogOf(db), LogOf(next)) && |db.reviews| <= i < |next.reviews|
    ensures next.reviews[i].versionId in db.versions
  {
    hide LogKept, FreshTail, RowsTraced, SameContent;
    assert LegalReview(next.reviews[i]);
  }

  /** Every legal review changes the status of its version. */
  lemma LegalMoves(db: Db, i: nat)
    requires Inv(db) && i < |db.reviews|
    ensures db.reviews[i].fromState != db.reviews[i].toState
  {
    assert LegalReview(db.reviews[i]);
  }

  /**
    * In a committed transaction of a run, a version changes its status exactly
    * when one new review records the move, and every new review is such a record.
    */
  lemma MovedExactlyRecorded(h: seq<Db>, e: Event, next: Db)
    requires History(h) && Commits(h, e, next)
    ensures var db := h[|h| - 1];
            && db.versions.Keys <= next.versions.Keys
            && (forall v | v in db.versions ::
                  next.versions[v].status != db.versions[v].status <==> Recorded(db, next, v))
            && (forall i | |db.reviews| <= i < |next.reviews| ::
                  next.reviews[i].versionId in db.versions && RecordedAt(db, next, next.reviews[i].versionId, i))
  {
    hide Inv, Follows, Commits, Traced, ResolutionKept, LogOf;
    var db := h[|h| - 1];
    StepIsGood(h, e, next);
    StepIsEvident(h, e, next);
    forall v | v in db.versions
      ensures v in next.versions && (next.versions[v].status != db.versions[v].status <==> Recorded(db, next, v))
    {
      MoveOf(db, next, v);
      forall i: nat | RecordedAt(db, next, v, i) ensures next.versions[v].status != db.versions[v].status {
        LegalMoves(next, i);
      }
    }
    forall i | |db.reviews| <= i < |next.reviews|
      ensures next.reviews[i].versionId in db.versions && RecordedAt(db, next, next.reviews[i].versionId, i)
    {
      ReviewedBefore(db, next, i);
      MoveOf(db, next, next.reviews[i].versionId);
    }
  }
}
