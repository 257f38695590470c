/**
  * Published content is reviewed content: a published version shows exactly what
  * it held when its latest approval was written, and when the request before
  * that approval was written. And a remediation once recorded stays what it was.
  */
module ReviewedContent {
  import opened Common
  import opened ContentTables
  import opened ContentInvariant
  import opened ContentOrder
  import opened ContentTrail
  import opened ContentEvents
  import opened ContentRuns
  import opened ContentEvidence

  /** The index of the latest review of a version with the given action, or -1. */
  function LastOf(reviews: seq<Review>, v: Id, action: Action): (i: int)
    ensures -1 <= i < |reviews|
    ensures i >= 0 ==> reviews[i].versionId == v && reviews[i].action == action
    decreases |reviews|
  {
    if |reviews| == 0 then -1
    else if reviews[|reviews| - 1].versionId == v && reviews[|reviews| - 1].action == action then |reviews| - 1
    else LastOf(reviews[..|reviews| - 1], v, action)
  }

  /** No later review of the version has that action. */
  lemma {:induction false} LastOfIsLast(reviews: seq<Review>, v: Id, action: Action)
    ensures forall j | LastOf(reviews, v, action) < j < |reviews| ::
              reviews[j].versionId != v || reviews[j].action != action
    decreases |reviews|
  {
    if |reviews| > 0 {
      LastOfIsLast(reviews[..|reviews| - 1], v, action);
      forall j | LastOf(reviews, v, action) < j < |reviews|
        ensures reviews[j].versionId != v || reviews[j].action != action
      {
        assert j < |reviews| - 1 ==> reviews[j] == reviews[..|reviews| - 1][j];
      }
    }
  }

  // ----- the log seen from one version

  /** Tombstones change neither the replay nor the latest reviews. */
  lemma {:induction false} KeptLog(reviews: seq<Review>, after: seq<Review>, v: Id, start: Status)
    requires |after| == |reviews| && LogKept(reviews, after)
    ensures Replay(after, v, start) == Replay(reviews, v, start)
    ensures forall action :: LastOf(after, v, action) == LastOf(reviews, v, action)
    decreases |reviews|
  {
    if |reviews| > 0 {
      var n := |reviews| - 1;
      assert ReviewKept(reviews[n], after[n]);
      forall i | 0 <= i < n ensures ReviewKept(reviews[..n][i], after[..n][i]) {
        assert ReviewKept(reviews[i], after[i]);
      }
      KeptLog(reviews[..n], after[..n], v, start);
    }
  }

  /** Reviews of other versions change neither. */
  lemma {:induction false} QuietTail(reviews: seq<Review>, cut: nat, v: Id, start: Status)
    requires cut <= |reviews| && forall i | cut <= i < |reviews| :: reviews[i].versionId != v
    ensures Replay(reviews, v, start) == Replay(reviews[..cut], v, start)
    ensures forall action :: LastOf(reviews, v, action) == LastOf(reviews[..cut], v, action)
    decreases |reviews|
  {
    if cut == |reviews| {
      assert reviews[..cut] == reviews;
    } else {
      var n := |reviews| - 1;
      QuietTail(reviews[..n], cut, v, start);
      assert reviews[..n][..cut] == reviews[..cut];
    }
  }

  lemma KeptPrefix(reviews: seq<Review>, after: seq<Review>, v: Id, start: Status, n: nat)
    requires LogKept(reviews, after) && n <= |reviews|
    ensures Replay(after[..n], v, start) == Replay(reviews[..n], v, start)
    ensures forall action :: LastOf(after[..n], v, action) == LastOf(reviews[..n], v, action)
  {
    forall i | 0 <= i < n ensures ReviewKept(reviews[..n][i], after[..n][i]) {
      assert ReviewKept(reviews[i], after[i]);
    }
    KeptLog(reviews[..n], after[..n], v, start);
  }

  // ----- frozen content

  /** From the review with index m on, the version holds the content it holds in the last state. */
  ghost predicate Frozen(h: seq<Db>, v: Id, m: int)
    requires |h| > 0 && v in h[|h| - 1].versions
  {
    && 0 <= m < |h[|h| - 1].reviews|
    && forall i | 0 <= i < |h| && |h[i].reviews| > m ::
         v in h[i].versions && h[i].versions[v].content == h[|h| - 1].versions[v].content
  }

  /** The request the latest approval answered. */
  function RequestBehindApproval(reviews: seq<Review>, v: Id): int {
    var n := LastOf(reviews, v, ApprovedVersion);
    if n < 0 then -1 else LastOf(reviews[..n], v, Requested)
  }

  /**
    * A version in review is frozen since its request, an approved or published
    * one since the request behind its approval.
    */
  ghost predicate ReviewFreezes(h: seq<Db>, v: Id)
    requires |h| > 0 && v in h[|h| - 1].versions
  {
    var db := h[|h| - 1];
    var row := db.versions[v];
    BirthStatus(row.creator) == Draft ==>
      && (row.status == InReview ==> Frozen(h, v, LastOf(db.reviews, v, Requested)))
      && (row.status == Approved || row.status == Published ==> Frozen(h, v, RequestBehindApproval(db.reviews, v)))
  }

  ghost predicate AllFrozen(h: seq<Db>)
    requires |h| > 0
  {
    forall v {:trigger ReviewFreezes(h, v)} | v in h[|h| - 1].versions :: ReviewFreezes(h, v)
  }

  /** The review logs of a history only grow. */
  ghost predicate LogsGrow(h: seq<Db>) {
    forall i, j | 0 <= i <= j < |h| :: |h[i].reviews| <= |h[j].reviews|
  }

  lemma FrozenOn(h: seq<Db>, next: Db, v: Id, m: int)
    requires |h| > 0 && v in h[|h| - 1].versions && Frozen(h, v, m)
    requires v in next.versions && next.versions[v].content == h[|h| - 1].versions[v].content
    requires |h[|h| - 1].reviews| <= |next.reviews|
    ensures Frozen(h + [next], v, m)
  {
    var after := h + [next];
    forall i | 0 <= i < |after| && |after[i].reviews| > m
      ensures v in after[i].versions && after[i].versions[v].content == next.versions[v].content
    {
      if i < |h| {
        assert after[i] == h[i];
      }
    }
  }

  /** No review of the version in this step: it stays where it was. */
  lemma QuietStep(h: seq<Db>, next: Db, v: Id)
    requires |h| > 0 && v in h[|h| - 1].versions && v in next.versions
    requires var db := h[|h| - 1];
             && ReviewFreezes(h, v)
             && LogKept(db.reviews, next.reviews)
             && (forall i | |db.reviews| <= i < |next.reviews| :: next.reviews[i].versionId != v)
             && RowTraced(db.versions[v], next.versions[v])
             && ReplayOk(db.reviews, v, db.versions[v]) && ReplayOk(next.reviews, v, next.versions[v])
             && (next.versions[v].content == db.versions[v].content || Editable(db.versions[v].status))
    ensures ReviewFreezes(h + [next], v)
  {
    var db := h[|h| - 1];
    var n := |db.reviews|;
    var start := BirthStatus(db.versions[v].creator);
    QuietTail(next.reviews, n, v, start);
    KeptPrefix(db.reviews, next.reviews, v, start, n);
    assert db.reviews[..n] == db.reviews;
    assert next.versions[v].status == db.versions[v].status;
    if start == Draft {
      var approved := LastOf(db.reviews, v, ApprovedVersion);
      if approved >= 0 {
        KeptPrefix(db.reviews, next.reviews, v, start, approved);
      }
      if db.versions[v].status == InReview {
        FrozenOn(h, next, v, LastOf(db.reviews, v, Requested));
      } else if db.versions[v].status == Approved || db.versions[v].status == Published {
        FrozenOn(h, next, v, RequestBehindApproval(db.reviews, v));
      }
    }
  }

  /** The one review of the version in this step sits at index s. */
  ghost predicate OneReview(db: Db, next: Db, v: Id, s: nat)
    requires v in db.versions && v in next.versions
  {
    && LogKept(db.reviews, next.reviews)
    && |db.reviews| <= s < |next.reviews| && next.reviews[s].versionId == v
    && (forall i | |db.reviews| <= i < |next.reviews| && i != s :: next.reviews[i].versionId != v)
    && RowTraced(db.versions[v], next.versions[v])
    && ReplayOk(db.reviews, v, db.versions[v]) && ReplayOk(next.reviews, v, next.versions[v])
    && LegalReview(next.reviews[s])
    && next.versions[v].content == db.versions[v].content
  }

  /** The review leads from the old status to the new one, and nothing else of the version's log changes. */
  lemma OneReviewMoves(db: Db, next: Db, v: Id, s: nat)
    requires v in db.versions && v in next.versions && OneReview(db, next, v, s)
    ensures next.reviews[s].fromState == db.versions[v].status && next.reviews[s].toState == next.versions[v].status
    ensures forall action :: LastOf(next.reviews[..s], v, action) == LastOf(db.reviews, v, action)
    ensures forall action :: LastOf(next.reviews, v, action)
                          == if action == next.reviews[s].action then s else LastOf(db.reviews, v, action)
  {
    var n := |db.reviews|;
    var start := BirthStatus(db.versions[v].creator);
    var upTo := next.reviews[..s + 1];
    QuietTail(next.reviews, s + 1, v, start);
    assert upTo[..s] == next.reviews[..s];
    QuietTail(next.reviews[..s], n, v, start);
    assert next.reviews[..s][..n] == next.reviews[..n];
    KeptPrefix(db.reviews, next.reviews, v, start, n);
    assert db.reviews[..n] == db.reviews;
  }

  lemma ReviewedStep(h: seq<Db>, next: Db, v: Id, s: nat)
    requires |h| > 0 && v in h[|h| - 1].versions && v in next.versions
    requires OneReview(h[|h| - 1], next, v, s) && ReviewFreezes(h, v)
    requires forall i | 0 <= i < |h| :: |h[i].reviews| <= |h[|h| - 1].reviews|
    ensures ReviewFreezes(h + [next], v)
  {
    hide Replay, LogKept;
    var db := h[|h| - 1];
    OneReviewMoves(db, next, v, s);
    var r := next.reviews[s];
    if BirthStatus(next.versions[v].creator) == Draft {
      if r.action == Requested {
        FrozenAtRequest(h, next, v, s);
      } else if r.action == ApprovedVersion {
        FrozenOn(h, next, v, LastOf(db.reviews, v, Requested));
      } else if r.action == PublishedVersion {
        var n := LastOf(db.reviews, v, ApprovedVersion);
        assert n >= 0;
        KeptPrefix(db.reviews, next.reviews, v, Draft, n);
        FrozenOn(h, next, v, RequestBehindApproval(db.reviews, v));
      }
    }
  }

  lemma FrozenAtRequest(h: seq<Db>, next: Db, v: Id, s: nat)
    requires |h| > 0 && v in next.versions && s < |next.reviews|
    requires forall i | 0 <= i < |h| :: |h[i].reviews| <= s
    ensures Frozen(h + [next], v, s)
  {
  }

  // ----- one transaction

  lemma EditStep(h: seq<Db>, next: Db, v: Id)
    requires |h| > 0 && Inv(h[|h| - 1]) && Inv(next) && AllFrozen(h)
    requires Edits(LogOf(h[|h| - 1]), LogOf(next)) && v in next.versions
    ensures ReviewFreezes(h + [next], v)
  {
    hide Replay, Frozen, VersionsShaped, QuestionsShaped, ReferencesLive, CandidatesLive, ReviewsLegal, ReportsOk,
         ContentUnique, AggregatesOk, BirthStatus;
    var db := h[|h| - 1];
    if v in db.versions {
      assert ReplayOk(db.reviews, v, db.versions[v]) && ReplayOk(next.reviews, v, next.versions[v]);
      assert RowTraced(db.versions[v], next.versions[v]);
      forall i | 0 <= i < |db.reviews| ensures ReviewKept(db.reviews[i], next.reviews[i]) {
      }
      assert ReviewFreezes(h, v);
      QuietStep(h, next, v);
    }
  }

  lemma MoveStep(h: seq<Db>, next: Db, touched: set<Id>, v: Id)
    requires |h| > 0 && Inv(h[|h| - 1]) && Inv(next) && AllFrozen(h) && LogsGrow(h)
    requires Moves(LogOf(h[|h| - 1]), LogOf(next), touched) && v in next.versions
    ensures ReviewFreezes(h + [next], v)
  {
    hide Replay, Frozen, VersionsShaped, QuestionsShaped, ReferencesLive, CandidatesLive, ReportsOk, ContentUnique,
         AggregatesOk, BirthStatus;
    var db := h[|h| - 1];
    assert ReplayOk(db.reviews, v, db.versions[v]) && ReplayOk(next.reviews, v, next.versions[v]);
    assert RowTraced(db.versions[v], next.versions[v]);
    assert ReviewFreezes(h, v);
    if s :| |db.reviews| <= s < |next.reviews| && next.reviews[s].versionId == v {
      assert LegalReview(next.reviews[s]);
      forall i | |db.reviews| <= i < |next.reviews| && i != s ensures next.reviews[i].versionId != v {
      }
      ReviewedStep(h, next, v, s);
    } else {
      QuietStep(h, next, v);
    }
  }

  lemma FrozenStep(h: seq<Db>, next: Db)
    requires |h| > 0 && Inv(h[|h| - 1]) && Inv(next) && AllFrozen(h) && LogsGrow(h)
    requires Traced(LogOf(h[|h| - 1]), LogOf(next))
    ensures AllFrozen(h + [next]) && LogsGrow(h + [next])
  {
    hide Inv, Edits, Moves, ReviewFreezes, AllFrozen;
    var db := h[|h| - 1];
    LogLonger(LogOf(db), LogOf(next));
    forall v | v in next.versions ensures ReviewFreezes(h + [next], v) {
      if Edits(LogOf(db), LogOf(next)) {
        EditStep(h, next, v);
      } else {
        var touched: set<Id> :| Moves(LogOf(db), LogOf(next), touched);
        MoveStep(h, next, touched, v);
      }
    }
    AllFrozenFrom(h + [next]);
  }

  lemma AllFrozenFrom(h: seq<Db>)
    requires |h| > 0 && forall v | v in h[|h| - 1].versions :: ReviewFreezes(h, v)
    ensures AllFrozen(h)
  {
  }

  lemma LogLonger(log: Log, after: Log)
    requires Traced(log, after)
    ensures |log.reviews| <= |after.reviews|
  {
  }

  // ----- runs

  lemma {:induction false} RunIsFrozen(h: seq<Db>, events: seq<Event>, k: nat)
    requires Run(h, events) && k <= |events|
    ensures AllFrozen(h[..k + 1]) && LogsGrow(h[..k + 1])
    decreases k
  {
    hide Inv, Follows, Commits, AllFrozen, Traced, ResolutionKept, RowsOk;
    if k == 0 {
      SeedsFrozen(h[..1]);
    } else {
      RunIsFrozen(h, events, k - 1);
      RunHistory(h, events, k - 1);
      RunHistory(h, events, k);
      assert Stepped(h, events, k - 1);
      StepIsEvident(h[..k], events[k - 1], h[k]);
      assert h[..k + 1] == h[..k] + [h[k]];
      assert h[..k + 1][k] == h[k];
      FrozenStep(h[..k], h[k]);
    }
  }

  lemma SeedsFrozen(h: seq<Db>)
    requires |h| == 1 && Seeded(h[0])
    ensures AllFrozen(h) && LogsGrow(h)
  {
    hide VersionsShaped, ContentUnique, Frozen;
  }

  /**
    * In every state of every run, a published version that was not seeded holds
    * the content it held when its latest approval was written and when the
    * request before that approval was written.
    */
  lemma PublishedContentIsReviewed(h: seq<Db>, events: seq<Event>, k: nat, v: Id)
    requires Run(h, events) && k < |h| && v in h[k].versions
    requires h[k].versions[v].status == Published && h[k].versions[v].creator.standing != SystemSeed
    ensures var n := LastOf(h[k].reviews, v, ApprovedVersion);
            && 0 <= n
            && (forall j | n < j < |h[k].reviews| ::
                  h[k].reviews[j].versionId != v || h[k].reviews[j].action != ApprovedVersion)
            && 0 <= LastOf(h[k].reviews[..n], v, Requested)
            && forall i | 0 <= i <= k && |h[i].reviews| > LastOf(h[k].reviews[..n], v, Requested) ::
                 v in h[i].versions && h[i].versions[v].content == h[k].versions[v].content
  {
    hide Stepped, Seeded, AllFrozen;
    RunIsFrozen(h, events, k);
    var g := h[..k + 1];
    AllFrozenAt(g, v);
    LastOfIsLast(h[k].reviews, v, ApprovedVersion);
    assert Frozen(g, v, RequestBehindApproval(h[k].reviews, v));
    forall i | 0 <= i <= k && |h[i].reviews| > RequestBehindApproval(h[k].reviews, v)
      ensures v in h[i].versions && h[i].versions[v].content == h[k].versions[v].content
    {
      assert g[i] == h[i];
    }
  }

  lemma AllFrozenAt(h: seq<Db>, v: Id)
    requires |h| > 0 && AllFrozen(h) && v in h[|h| - 1].versions
    ensures ReviewFreezes(h, v)
  {
  }

  // ----- remediation

  lemma {:induction false} ResolutionStays(h: seq<Db>, events: seq<Event>, i: nat, k: nat, r: Id)
    requires Run(h, events) && i <= k < |h|
    requires r in h[i].reports && h[i].reports[r].status == Resolved
    ensures r in h[k].reports && h[k].reports[r].status == Resolved
    ensures h[k].reports[r].remediation == h[i].reports[r].remediation
    ensures h[k].reports[r].questionId == h[i].reports[r].questionId
            && h[k].reports[r].versionId == h[i].reports[r].versionId
    decreases k
  {
    hide Inv, Follows, Commits, Traced, Seeded;
    if i < k {
      ResolutionStays(h, events, i, k - 1, r);
      RunHistory(h, events, k - 1);
      assert Stepped(h, events, k - 1);
      StepIsEvident(h[..k], events[k - 1], h[k]);
    }
  }

  /**
    * Once a report is resolved with a remediation, that version stays in the
    * reported question, newer than the reported version, and published or
    * retired after publication, in every later state.
    */
  lemma RemediationIsStable(h: seq<Db>, events: seq<Event>, i: nat, k: nat, r: Id, m: Id)
    requires Run(h, events) && i <= k < |h|
    requires r in h[i].reports && h[i].reports[r].status == Resolved && h[i].reports[r].remediation == Some(m)
    ensures r in h[k].reports && h[k].reports[r].remediation == Some(m)
    ensures m in h[k].versions && h[i].reports[r].versionId in h[k].versions
    ensures h[k].versions[m].questionId == h[i].reports[r].questionId
    ensures h[k].versions[m].number > h[k].versions[h[i].reports[r].versionId].number
    ensures PublishedLineage(h[k].versions[m]) && h[k].versions[m].publishedAt.Some?
  {
    hide Follows, Commits, Run, AggregatesOk, ContentUnique, ReplaysOk, ReferencesLive;
    RunIsSound(h, events);
    ResolutionStays(h, events, i, k, r);
    assert ReportOk(h[k].versions, h[k].reports[r]);
    assert VersionShape(h[k].versions[m]);
  }
}
