/** What readers of the content tables may rely on in every state of every run. */
module ContentGuarantees {
  import opened Common
  import opened ContentTables
  import opened AccountErasure
  import opened ContentInvariant
  import opened ContentOrder
  import opened ContentEvents
  import opened ContentRuns

  // ----- version numbers

  function VersionsOf(versions: map<Id, Version>, q: Id): set<Id> {
    set v | v in versions && versions[v].questionId == q
  }

  function UpTo(versions: map<Id, Version>, q: Id, n: nat): set<Id> {
    set v | v in versions && versions[v].questionId == q && versions[v].number <= n
  }

  /** Below a number in use every number is in use. */
  lemma {:induction false} NumberedBelow(versions: map<Id, Version>, q: Id, k: nat, n: nat)
    requires NumberingOk(versions, q) && 1 <= k <= n && Numbered(versions, q, n)
    ensures Numbered(versions, q, k)
    decreases n - k
  {
    if k < n {
      NumberedBelow(versions, q, k + 1, n);
      var v :| Of(versions, v, q) && versions[v].number == k + 1;
      assert Numbered(versions, q, versions[v].number - 1);
    }
  }

  lemma {:induction false} UpToCounts(versions: map<Id, Version>, q: Id, k: nat, n: nat)
    requires NumberingOk(versions, q) && VersionsShaped(versions) && k <= n && Numbered(versions, q, n)
    ensures |UpTo(versions, q, k)| == k
    decreases k
  {
    hide VersionsShaped, NumberingOk;
    if k == 0 {
      PositiveNumbers(versions);
      assert UpTo(versions, q, 0) == {};
    } else {
      UpToCounts(versions, q, k - 1, n);
      NumberedBelow(versions, q, k, n);
      var v :| Of(versions, v, q) && versions[v].number == k;
      UpToNext(versions, q, k, v);
      assert v !in UpTo(versions, q, k - 1);
    }
  }

  lemma UpToNext(versions: map<Id, Version>, q: Id, k: nat, v: Id)
    requires NumberingOk(versions, q) && k > 0 && Of(versions, v, q) && versions[v].number == k
    ensures UpTo(versions, q, k) == UpTo(versions, q, k - 1) + {v}
  {
    forall w | w in UpTo(versions, q, k) && w != v ensures w in UpTo(versions, q, k - 1) {
      assert Of(versions, w, q);
    }
  }

  lemma PositiveNumbers(versions: map<Id, Version>)
    requires VersionsShaped(versions)
    ensures forall v | v in versions :: versions[v].number > 0
  {
    forall v | v in versions ensures versions[v].number > 0 {
      assert VersionShape(versions[v]);
    }
  }

  lemma LargestNumber(versions: map<Id, Version>, q: Id, some: set<Id>) returns (top: Id)
    requires some != {} && some <= VersionsOf(versions, q)
    ensures top in some && forall v | v in some :: versions[v].number <= versions[top].number
    decreases |some|
  {
    top :| top in some;
    if some != {top} {
      var other := LargestNumber(versions, q, some - {top});
      if versions[other].number > versions[top].number {
        top := other;
      }
    }
  }

  /** The versions of a question carry exactly the numbers 1 to their count. */
  lemma NumbersAreOneToCount(versions: map<Id, Version>, q: Id)
    requires NumberingOk(versions, q) && VersionsShaped(versions)
    ensures var n := |VersionsOf(versions, q)|;
            && (forall v | Of(versions, v, q) :: 1 <= versions[v].number <= n)
            && (forall k: nat | 1 <= k <= n :: Numbered(versions, q, k))
            && (forall v, w | Of(versions, v, q) && Of(versions, w, q) && versions[v].number == versions[w].number ::
                  v == w)
  {
    hide VersionsShaped;
    var first :| Of(versions, first, q) && versions[first].number == 1;
    var all := VersionsOf(versions, q);
    assert first in all;
    var top := LargestNumber(versions, q, all);
    var n := versions[top].number;
    assert Of(versions, top, q) && Numbered(versions, q, n);
    UpToCounts(versions, q, n, n);
    assert UpTo(versions, q, n) == all;
    PositiveNumbers(versions);
    forall k: nat | 1 <= k <= n ensures Numbered(versions, q, k) {
      NumberedBelow(versions, q, k, n);
    }
  }

  // ----- the aggregate in every state of every run

  /** The question aggregate, as a reader of the tables sees it. */
  ghost predicate Aggregate(versions: map<Id, Version>, q: Id, row: Question) {
    && (forall v, w | OpenOf(versions, v, q) && OpenOf(versions, w, q) :: v == w)
    && (row.current.Some? <==> exists v: Id :: Of(versions, v, q) && versions[v].status == Published)
    && (forall v | Of(versions, v, q) && versions[v].status == Published :: row.current == Some(v))
    && (row.lifecycle == Archived ==>
          row.current.None? && forall v | Of(versions, v, q) :: versions[v].status == Retired)
    && (forall v | Of(versions, v, q) :: 1 <= versions[v].number <= |VersionsOf(versions, q)|)
    && (forall k: nat | 1 <= k <= |VersionsOf(versions, q)| :: Numbered(versions, q, k))
    && (forall v, w | Of(versions, v, q) && Of(versions, w, q) && versions[v].number == versions[w].number :: v == w)
  }

  /** Whatever interleaving led here, author erasure included, every aggregate is sound. */
  lemma AggregatesInEveryState(h: seq<Db>, events: seq<Event>, k: nat, q: Id)
    requires Run(h, events) && k < |h| && q in h[k].questions
    ensures Aggregate(h[k].versions, q, h[k].questions[q])
  {
    hide Run, Follows, RowsOk;
    RunIsSound(h, events);
    var versions, row := h[k].versions, h[k].questions[q];
    ShapesIn(h[k]);
    assert QuestionOk(versions, q, row);
    NumbersAreOneToCount(versions, q);
    if row.current.Some? {
      assert Of(versions, row.current.value, q) && versions[row.current.value].status == Published;
    }
  }

  lemma ShapesIn(db: Db)
    requires Inv(db)
    ensures VersionsShaped(db.versions)
  {
  }

  // ----- review evidence in every state

  /** Folding the reviews of a version from its birth status gives its status. */
  lemma ReplayGivesStatus(h: seq<Db>, events: seq<Event>, k: nat, v: Id)
    requires Run(h, events) && k < |h| && v in h[k].versions
    ensures Replay(h[k].reviews, v, BirthStatus(h[k].versions[v].creator)) == Some(h[k].versions[v].status)
  {
    hide Run, Follows, AggregatesOk, Replay;
    RunIsSound(h, events);
    assert ReplayOk(h[k].reviews, v, h[k].versions[v]);
  }

  // ----- pending deletion

  lemma HeadIsOpen(db: Db, order: seq<Id>, user: Id)
    requires LockOrder(db, order, user)
    ensures |order| > 0 ==> order[0] in OpenVersionsOf(db, user)
  {
  }

  /** A user who asked for deletion has no open version, so their erasure abandons nothing. */
  lemma PendingUsersLeaveNoCandidate(h: seq<Db>, events: seq<Event>, k: nat, user: Id, order: seq<Id>)
    requires Run(h, events) && k < |h|
    requires user in h[k].users && h[k].users[user].status == DeletionPending
    requires LockOrder(h[k], order, user)
    ensures OpenVersionsOf(h[k], user) == {} && order == []
  {
    hide Run, Follows, AggregatesOk, Replay;
    RunIsSound(h, events);
    forall v | v in h[k].versions ensures !OpenAuthored(h[k].versions[v], user) {
      assert CandidateLive(h[k].users, h[k].versions[v]) && VersionShape(h[k].versions[v]);
    }
    HeadIsOpen(h[k], order, user);
  }
}
