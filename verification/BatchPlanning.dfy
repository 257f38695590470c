/**
  * A batch review request refines the simple in-order check: with no concurrent
  * change it moves every item when every item passes alone, and otherwise
  * answers with the code of the first failing item, although it arms only the
  * items up to that one.
  */
module BatchPlanning {
  import opened Common
  import opened ContentTables
  import opened ContentArm
  import opened ContentCommands
  import opened ReviewBatch
  import opened ContentInvariant
  import opened ContentPreservation
  import opened CommandPreservation
  import opened BatchConcurrency

  /** The code a client sees: rules broken and rows changed at arming have client codes of their own. */
  function ClientCode(f: Failure): Failure {
    if f == RuleViolation then InvalidStateTransition
    else if f == QuestionChanged || f == VersionChanged then VersionConflict
    else f
  }

  // ----- the first failure

  /** FirstFailure names the lowest failing index and its own failure. */
  lemma {:induction false} FirstFailureIsLowest(items: seq<BatchItem>, targets: map<Id, BatchTarget>, actor: Id)
    ensures var f := FirstFailure(items, targets, actor);
            if f.Some?
            then && ItemFailure(items[f.value.index], targets, actor) == Some((f.value.kind, f.value.error))
                 && forall i | 0 <= i < f.value.index :: ItemFailure(items[i], targets, actor).None?
            else forall i | 0 <= i < |items| :: ItemFailure(items[i], targets, actor).None?
    decreases |items|
  {
    hide ItemFailure;
    if |items| > 0 {
      FirstFailureIsLowest(items[..|items| - 1], targets, actor);
    }
  }

  // ----- a plan on the rows of its own database arms

  /** The armed items: each was read with the rows the database holds and passed the checks made before arming. */
  ghost predicate PrefixReady(db: Db, actor: Id, items: seq<BatchItem>, n: nat, targets: map<Id, BatchTarget>) {
    && n <= |items| <= 20
    && targets == LoadBatchTargets(db, items)
    && forall i | 0 <= i < n ::
         items[i].versionId in targets && targets[items[i].versionId].version.creator.userId == Some(actor)
  }

  lemma PrefixIsReady(db: Db, actor: Id, items: seq<BatchItem>)
    requires |items| <= 20
    ensures var targets := LoadBatchTargets(db, items);
            PrefixReady(db, actor, items, ArmedCount(items, FirstFailure(items, targets, actor)), targets)
  {
    var targets := LoadBatchTargets(db, items);
    var first := FirstFailure(items, targets, actor);
    FirstFailureIsLowest(items, targets, actor);
    forall i | 0 <= i < ArmedCount(items, first)
      ensures items[i].versionId in targets && targets[items[i].versionId].version.creator.userId == Some(actor)
    {
      assert first.Some? && i == first.value.index ==>
               ItemFailure(items[i], targets, actor) == Some((first.value.kind, first.value.error));
      assert first.None? || i < first.value.index ==> ItemFailure(items[i], targets, actor).None?;
    }
  }

  /** Every armed target is a stored row with its stored question. */
  lemma ArmedRow(db: Db, actor: Id, items: seq<BatchItem>, n: nat, v: Id)
    requires PrefixReady(db, actor, items, n, LoadBatchTargets(db, items))
    requires v in ArmedTargets(items, n, LoadBatchTargets(db, items))
    ensures v in db.versions && db.versions[v].questionId in db.questions
    ensures ArmedTargets(items, n, LoadBatchTargets(db, items))[v]
         == BatchTarget(db.versions[v], db.questions[db.versions[v].questionId])
    ensures db.versions[v].creator.userId == Some(actor)
  {
    var i :| 0 <= i < n && items[i].versionId == v;
  }

  lemma {:induction false} IdsBounded(items: seq<BatchItem>, n: nat)
    requires n <= |items|
    ensures |set i | 0 <= i < n :: items[i].versionId| <= n
    decreases n
  {
    if n > 0 {
      IdsBounded(items, n - 1);
      assert (set i | 0 <= i < n :: items[i].versionId)
          == (set i | 0 <= i < n - 1 :: items[i].versionId) + {items[n - 1].versionId};
    }
  }

  lemma ArmedBounded(items: seq<BatchItem>, n: nat, targets: map<Id, BatchTarget>)
    requires n <= |items|
    ensures |ArmedTargets(items, n, targets)| <= n
  {
    var armed := ArmedTargets(items, n, targets);
    var ids := set i | 0 <= i < n :: items[i].versionId;
    IdsBounded(items, n);
    SubsetSmaller(armed.Keys, ids);
    assert |armed| == |armed.Keys|;
  }

  function QuestionIds(armed: map<Id, BatchTarget>): set<Id> {
    set v | v in armed :: armed[v].version.questionId
  }

  lemma QuestionIdsBounded(armed: map<Id, BatchTarget>)
    ensures |QuestionIds(armed)| <= |armed|
    ensures |armed| > 0 ==> |QuestionIds(armed)| > 0
  {
    var f: Id -> Id := (v: Id) => if v in armed then armed[v].version.questionId else 0;
    ImageSmaller<Id, Id>(f, armed.Keys);
    assert |armed| == |armed.Keys|;
    assert QuestionIds(armed) == Image<Id, Id>(f, armed.Keys);
    if |armed| > 0 {
      var v :| v in armed.Keys;
      assert armed[v].version.questionId in QuestionIds(armed);
    }
  }

  lemma ManifestSizes(armed: map<Id, BatchTarget>)
    ensures |BatchManifest(armed).versions| == |armed|
    ensures |BatchManifest(armed).questions| == |QuestionIds(armed)|
  {
    hide QuestionOf;
    var m := BatchManifest(armed);
    assert m.versions.Keys == armed.Keys && m.questions.Keys == QuestionIds(armed);
    assert |m.versions| == |m.versions.Keys| && |armed| == |armed.Keys| && |m.questions| == |m.questions.Keys|;
  }

  lemma ShapeFits(items: seq<BatchItem>, n: nat, targets: map<Id, BatchTarget>)
    requires 1 <= n <= |items| <= 20 && items[0].versionId in targets
    ensures ShapeOk(ReviewRequestBatch, BatchManifest(ArmedTargets(items, n, targets)))
  {
    hide QuestionOf, QuestionIds;
    var armed := ArmedTargets(items, n, targets);
    ArmedBounded(items, n, targets);
    ArmedHas(items, n, targets, 0);
    assert items[0].versionId in armed.Keys && |armed| == |armed.Keys|;
    QuestionIdsBounded(armed);
    ManifestSizes(armed);
    hide BatchManifest, ArmedTargets;
  }

  /** The manifest of a plan on current rows matches those rows. */
  lemma PlanMatches(db: Db, actor: Id, items: seq<BatchItem>, n: nat)
    requires PrefixReady(db, actor, items, n, LoadBatchTargets(db, items))
    ensures TargetsMatch(db, BatchManifest(ArmedTargets(items, n, LoadBatchTargets(db, items))))
  {
    hide QuestionOf, LoadBatchTargets, ArmedTargets;
    var armed := ArmedTargets(items, n, LoadBatchTargets(db, items));
    var m := BatchManifest(armed);
    forall q | q in m.questions ensures QuestionMatches(db, q, m.questions[q]) {
      var v :| v in armed && armed[v].version.questionId == q;
      ArmedRow(db, actor, items, n, v);
      QuestionItemRead(db, items, n, v);
    }
    forall v | v in m.versions ensures VersionMatches(db, m, v, m.versions[v]) {
      ArmedRow(db, actor, items, n, v);
    }
  }

  /** The users the locked rows of a batch name. */
  lemma BatchDerived(db: Db, op: Operation, m: Manifest)
    requires TargetsMatch(db, m) && m.reports == map[] && op.command == ReviewRequestBatch
    ensures DerivedUsers(db, op, m) ==
            {op.actor}
            + (set q | q in m.questions && db.questions[q].creator.userId.Some? :: db.questions[q].creator.userId.value)
            + (set v | v in m.versions && db.versions[v].creator.userId.Some? :: db.versions[v].creator.userId.value)
  {
    hide LatestApprover;
  }

  lemma QuestionCreators(db: Db, armed: map<Id, BatchTarget>)
    requires forall v | v in armed :: armed[v].version.questionId in db.questions
                                      && armed[v].question == db.questions[armed[v].version.questionId]
    ensures (set q | q in QuestionIds(armed) && q in db.questions && db.questions[q].creator.userId.Some?
               :: db.questions[q].creator.userId.value)
         == (set v | v in armed && armed[v].question.creator.userId.Some? :: armed[v].question.creator.userId.value)
  {
    var byQuestion := set q | q in QuestionIds(armed) && q in db.questions && db.questions[q].creator.userId.Some?
                        :: db.questions[q].creator.userId.value;
    var byVersion := set v | v in armed && armed[v].question.creator.userId.Some? ::
          armed[v].question.creator.userId.value;
    forall u | u in byQuestion ensures u in byVersion {
      var q :| q in QuestionIds(armed) && q in db.questions && db.questions[q].creator.userId == Some(u);
      var v :| v in armed && armed[v].version.questionId == q;
      assert armed[v].question.creator.userId == Some(u);
    }
    forall u | u in byVersion ensures u in byQuestion {
      var v :| v in armed && armed[v].question.creator.userId == Some(u);
      assert armed[v].version.questionId in QuestionIds(armed);
    }
  }

  /** The users named by the plan are exactly the users the locked rows name. */
  lemma PlanUsersExact(db: Db, actor: Id, items: seq<BatchItem>, n: nat, op: Operation)
    requires PrefixReady(db, actor, items, n, LoadBatchTargets(db, items))
    requires TargetsMatch(db, BatchManifest(ArmedTargets(items, n, LoadBatchTargets(db, items))))
    requires op.actor == actor && op.command == ReviewRequestBatch
    ensures DerivedUsers(db, op, BatchManifest(ArmedTargets(items, n, LoadBatchTargets(db, items))))
         == {actor} + BatchUsers(ArmedTargets(items, n, LoadBatchTargets(db, items)))
  {
    hide QuestionOf, LoadBatchTargets, ArmedTargets, DerivedUsers;
    var armed := ArmedTargets(items, n, LoadBatchTargets(db, items));
    var m := BatchManifest(armed);
    forall v | v in armed
      ensures v in db.versions && db.versions[v].questionId in db.questions
      ensures armed[v] == BatchTarget(db.versions[v], db.questions[db.versions[v].questionId])
    {
      ArmedRow(db, actor, items, n, v);
    }
    BatchDerived(db, op, m);
    QuestionCreators(db, armed);
    assert (set q | q in m.questions && db.questions[q].creator.userId.Some? :: db.questions[q].creator.userId.value)
        == (set q | q in QuestionIds(armed) && q in db.questions && db.questions[q].creator.userId.Some?
              :: db.questions[q].creator.userId.value);
  }

  function QuestionCreatorSet(armed: map<Id, BatchTarget>): set<Id> {
    set v | v in armed && armed[v].question.creator.userId.Some? :: armed[v].question.creator.userId.value
  }

  lemma {:induction false} QuestionCreatorsBounded(armed: map<Id, BatchTarget>)
    ensures |QuestionCreatorSet(armed)| <= |armed|
    decreases |armed|
  {
    if armed != map[] {
      var v :| v in armed;
      var rest := armed - {v};
      QuestionCreatorsBounded(rest);
      forall u | u in QuestionCreatorSet(armed)
        ensures u in QuestionCreatorSet(rest) + OptionSet(armed[v].question.creator.userId)
      {
        var w :| w in armed && armed[w].question.creator.userId == Some(u);
        assert w != v ==> w in rest && rest[w] == armed[w];
      }
      SubsetSmaller(QuestionCreatorSet(armed), QuestionCreatorSet(rest) + OptionSet(armed[v].question.creator.userId));
      assert rest.Keys == armed.Keys - {v};
      assert |armed| == |armed.Keys| && |rest| == |rest.Keys|;
    }
  }

  lemma BatchUsersBounded(armed: map<Id, BatchTarget>, actor: Id)
    requires forall v | v in armed :: armed[v].version.creator.userId == Some(actor)
    ensures 1 <= |{actor} + BatchUsers(armed)| <= |armed| + 1
  {
    QuestionCreatorsBounded(armed);
    var named := {actor} + BatchUsers(armed);
    assert named == {actor} + QuestionCreatorSet(armed);
    SubsetSmaller({actor}, named);
  }

  lemma PlanBegins(db: Db, actor: Id, items: seq<BatchItem>, n: nat)
    requires Inv(db) && HasAuthority(db, actor)
    requires PrefixReady(db, actor, items, n, LoadBatchTargets(db, items))
    ensures Begin(db, Operation(actor, ReviewRequestBatch,
                                {actor} + BatchUsers(ArmedTargets(items, n, LoadBatchTargets(db, items))))).None?
  {
    hide LoadBatchTargets, ArmedTargets, Inv, QuestionOk, VersionShape, QuestionShape, BatchUsers;
    var armed := ArmedTargets(items, n, LoadBatchTargets(db, items));
    forall v | v in armed
      ensures armed[v].version.creator.userId == Some(actor)
      ensures armed[v].question.creator.userId.Some? ==> armed[v].question.creator.userId.value in db.users
    {
      ArmedRow(db, actor, items, n, v);
      HomeOf(db, v);
    }
    ArmedBounded(items, n, LoadBatchTargets(db, items));
    BatchUsersBounded(armed, actor);
    BatchUsersLive(armed, db.users.Keys, actor);
  }

  lemma BatchUsersLive(armed: map<Id, BatchTarget>, users: set<Id>, actor: Id)
    requires actor in users
    requires forall v | v in armed :: armed[v].version.creator.userId == Some(actor)
    requires forall v | v in armed && armed[v].question.creator.userId.Some? ::
               armed[v].question.creator.userId.value in users
    ensures BatchUsers(armed) <= users
  {
  }

  lemma PlanQuestionsExact(db: Db, actor: Id, items: seq<BatchItem>, n: nat)
    requires PrefixReady(db, actor, items, n, LoadBatchTargets(db, items))
    requires TargetsMatch(db, BatchManifest(ArmedTargets(items, n, LoadBatchTargets(db, items))))
    ensures BatchExact(db, BatchManifest(ArmedTargets(items, n, LoadBatchTargets(db, items))))
  {
    hide QuestionOf, LoadBatchTargets, ArmedTargets, TargetsMatch;
    var armed := ArmedTargets(items, n, LoadBatchTargets(db, items));
    forall v | v in armed
      ensures v in db.versions && armed[v].version == db.versions[v]
    {
      ArmedRow(db, actor, items, n, v);
    }
    assert BatchManifest(armed).versions.Keys == armed.Keys;
  }

  /** Arming the plan fails exactly when some armed item is not in a state to be requested. */
  lemma PlanArms(db: Db, actor: Id, items: seq<BatchItem>, n: nat)
    requires PrefixReady(db, actor, items, n, LoadBatchTargets(db, items)) && n >= 1
    ensures var targets := LoadBatchTargets(db, items);
            var armed := ArmedTargets(items, n, targets);
            var op := Operation(actor, ReviewRequestBatch, {actor} + BatchUsers(armed));
            Arm(db, op, BatchManifest(armed)) ==
            if forall i | 0 <= i < n :: targets[items[i].versionId].question.lifecycle == Active
                                        && Editable(targets[items[i].versionId].version.status)
            then None else Some(RuleViolation)
  {
    hide QuestionOf, LoadBatchTargets, ArmedTargets, TargetsMatch, DerivedUsers, BatchExact, ShapeOk, BatchUsers;
    var targets := LoadBatchTargets(db, items);
    var armed := ArmedTargets(items, n, targets);
    var m := BatchManifest(armed);
    var op := Operation(actor, ReviewRequestBatch, {actor} + BatchUsers(armed));
    ShapeFits(items, n, targets);
    PlanMatches(db, actor, items, n);
    PlanUsersExact(db, actor, items, n, op);
    PlanQuestionsExact(db, actor, items, n);
    MatchesInParts(db, m);
    PlanRules(db, actor, items, n);
    hide AggregateRulesOk;
  }

  lemma MatchesInParts(db: Db, m: Manifest)
    requires TargetsMatch(db, m)
    ensures (forall q | q in m.questions :: QuestionMatches(db, q, m.questions[q]))
    ensures (forall v | v in m.versions :: VersionMatches(db, m, v, m.versions[v]))
    ensures (forall r | r in m.reports :: ReportMatches(db, m, r, m.reports[r]))
  {
  }

  /** What the aggregate rules ask of a batch whose question rows are exactly those of its versions. */
  lemma BatchRules(db: Db, m: Manifest)
    requires TargetsMatch(db, m) && BatchExact(db, m)
    ensures (forall q | q in m.questions :: q in db.questions) && (forall v | v in m.versions :: v in db.versions)
    ensures AggregateRulesOk(db, ReviewRequestBatch, m) <==>
              && (forall q | q in m.questions :: db.questions[q].lifecycle == Active)
              && (forall v | v in m.versions :: Editable(db.versions[v].status))
  {
    hide BatchExact;
  }

  lemma PlanRules(db: Db, actor: Id, items: seq<BatchItem>, n: nat)
    requires PrefixReady(db, actor, items, n, LoadBatchTargets(db, items))
    requires TargetsMatch(db, BatchManifest(ArmedTargets(items, n, LoadBatchTargets(db, items))))
    requires BatchExact(db, BatchManifest(ArmedTargets(items, n, LoadBatchTargets(db, items))))
    ensures var targets := LoadBatchTargets(db, items);
            AggregateRulesOk(db, ReviewRequestBatch, BatchManifest(ArmedTargets(items, n, targets))) <==>
            forall i | 0 <= i < n :: targets[items[i].versionId].question.lifecycle == Active
                                     && Editable(targets[items[i].versionId].version.status)
  {
    hide QuestionOf, LoadBatchTargets, BatchExact, ArmedTargets, AggregateRulesOk, TargetsMatch;
    var targets := LoadBatchTargets(db, items);
    var armed := ArmedTargets(items, n, targets);
    var m := BatchManifest(armed);
    BatchRules(db, m);
    var ready := forall i | 0 <= i < n :: targets[items[i].versionId].question.lifecycle == Active
                                          && Editable(targets[items[i].versionId].version.status);
    forall i | 0 <= i < n
      ensures items[i].versionId in armed && armed[items[i].versionId] == targets[items[i].versionId]
      ensures items[i].versionId in db.versions && db.versions[items[i].versionId].questionId in db.questions
      ensures armed[items[i].versionId]
           == BatchTarget(db.versions[items[i].versionId], db.questions[db.versions[items[i].versionId].questionId])
    {
      ArmedHas(items, n, targets, i);
      ArmedRow(db, actor, items, n, items[i].versionId);
    }
    if ready {
      forall q | q in m.questions ensures db.questions[q].lifecycle == Active {
        var v :| v in armed && armed[v].version.questionId == q;
        ArmedFrom(items, n, targets, v);
      }
      forall v | v in m.versions ensures Editable(db.versions[v].status) {
        ArmedFrom(items, n, targets, v);
      }
    } else {
      var i :| 0 <= i < n && !(targets[items[i].versionId].question.lifecycle == Active
                               && Editable(targets[items[i].versionId].version.status));
      assert items[i].versionId in m.versions && armed[items[i].versionId].version.questionId in m.questions;
    }
  }

  lemma ArmedHas(items: seq<BatchItem>, n: nat, targets: map<Id, BatchTarget>, i: nat)
    requires i < n <= |items| && items[i].versionId in targets
    ensures items[i].versionId in ArmedTargets(items, n, targets)
    ensures ArmedTargets(items, n, targets)[items[i].versionId] == targets[items[i].versionId]
  {
  }

  lemma ArmedFrom(items: seq<BatchItem>, n: nat, targets: map<Id, BatchTarget>, v: Id)
    requires n <= |items| && v in ArmedTargets(items, n, targets)
    ensures exists i :: 0 <= i < n && items[i].versionId == v
    ensures v in targets && ArmedTargets(items, n, targets)[v] == targets[v]
  {
  }

  // ----- the whole batch

  lemma ReadyIsNoFailure(items: seq<BatchItem>, n: nat, targets: map<Id, BatchTarget>, actor: Id)
    requires n <= |items| && forall i | 0 <= i < n :: ItemFailure(items[i], targets, actor).None?
    ensures forall i | 0 <= i < n :: items[i].versionId in targets
                                     && targets[items[i].versionId].question.lifecycle == Active
                                     && Editable(targets[items[i].versionId].version.status)
                                     && targets[items[i].versionId].version.creator.userId == Some(actor)
  {
  }

  /**
    * With no concurrent change a batch of distinct items commits when every item
    * passes alone, and otherwise answers with the code of the lowest failing
    * item.
    */
  lemma BatchRefinesItemChecks(db: Db, actor: Id, items: seq<BatchItem>, now: Time)
    requires Inv(db) && HasAuthority(db, actor) && DistinctIds(items) && 1 <= |items| <= 20
    ensures var targets := LoadBatchTargets(db, items);
            var r := CommitReviewBatch(db, actor, items, targets, now);
            var f := FirstFailure(items, targets, actor);
            if f.None? then r.Ok? else r.Err? && ClientCode(r.error) == ClientCode(f.value.error)
  {
    hide Arm, Begin, LoadBatchTargets, ArmedTargets, BatchUsers, BatchManifest, Inv, PrefixReady, HasAuthority,
         ItemFailure, FirstFailure, BatchEffect, DistinctIds;
    var targets := LoadBatchTargets(db, items);
    var f := FirstFailure(items, targets, actor);
    var n := ArmedCount(items, f);
    FirstFailureIsLowest(items, targets, actor);
    PrefixIsReady(db, actor, items);
    PlanBegins(db, actor, items, n);
    DistinctPrefix(items, n);
    ReadyIsNoFailure(items, if f.Some? then f.value.index else |items|, targets, actor);
    if n >= 1 {
      PlanArms(db, actor, items, n);
    }
    if f.Some? && f.value.kind == State {
      StateFailure(items[f.value.index], targets, actor);
    }
    if f.None? {
      AuthorsMayRequest(db, actor, items);
    }
  }

  lemma DistinctPrefix(items: seq<BatchItem>, n: nat)
    requires DistinctIds(items) && n <= |items|
    ensures DistinctIds(items[..n])
  {
  }

  lemma StateFailure(item: BatchItem, targets: map<Id, BatchTarget>, actor: Id)
    requires ItemFailure(item, targets, actor).Some? && ItemFailure(item, targets, actor).value.0 == State
    ensures ItemFailure(item, targets, actor).value.1 == InvalidStateTransition
    ensures item.versionId in targets
    ensures !(targets[item.versionId].question.lifecycle == Active && Editable(targets[item.versionId].version.status))
  {
  }

  lemma AuthorsMayRequest(db: Db, actor: Id, items: seq<BatchItem>)
    requires Inv(db)
    requires forall i | 0 <= i < |items| :: items[i].versionId in LoadBatchTargets(db, items)
               && LoadBatchTargets(db, items)[items[i].versionId].version.creator.userId == Some(actor)
    ensures forall i | 0 <= i < |items| :: RequestAuthor(db, items[i].versionId, actor)
  {
    hide Inv, QuestionOk, QuestionShape;
    forall i | 0 <= i < |items| ensures RequestAuthor(db, items[i].versionId, actor) {
      HomeOf(db, items[i].versionId);
    }
  }

  // ----- what a committed batch wrote

  /** The i-th item is the i-th review written, and its version is in review one row version later. */
  ghost predicate ItemMoved(db: Db, after: Db, actor: Id, items: seq<BatchItem>, i: nat, now: Time)
    requires i < |items|
  {
    var id := items[i].versionId;
    && id in db.versions && id in after.versions && db.versions[id].rowVersion == items[i].expected
    && after.versions[id] == db.versions[id].(status := InReview, rowVersion := items[i].expected + 1)
    && |db.reviews| + i < |after.reviews|
    && after.reviews[|db.reviews| + i] ==
       Review(id, db.versions[id].questionId, Requested, db.versions[id].status, InReview,
              Some(AdminAccount(actor)), None, None, items[i].comment, now)
  }

  lemma OneItemMoves(db: Db, before: Db, actor: Id, items: seq<BatchItem>, targets: map<Id, BatchTarget>, now: Time,
                     i: nat)
    requires i < |items| && items[i].versionId in before.versions && items[i].versionId in db.versions
             && items[i].versionId in targets
    requires before.versions[items[i].versionId] == db.versions[items[i].versionId]
             == targets[items[i].versionId].version
    requires |before.reviews| == |db.reviews| + i && db.versions[items[i].versionId].rowVersion == items[i].expected
    ensures ItemMoved(db, TransitionEffect(before, Config(RequestContentReview), actor, items[i].versionId,
                                           targets[items[i].versionId].version,
                                           TransitionRequest(items[i].expected, None, items[i].comment), now),
                      actor, items, i, now)
  {
  }

  lemma EarlierItemsStay(db: Db, before: Db, after: Db, actor: Id, items: seq<BatchItem>, id: Id, i: nat, now: Time)
    requires i < |items| && ItemMoved(db, before, actor, items, i, now) && items[i].versionId != id
    requires id in after.versions && after.versions == before.versions[id := after.versions[id]]
    requires |before.reviews| <= |after.reviews| && after.reviews[..|before.reviews|] == before.reviews
    ensures ItemMoved(db, after, actor, items, i, now)
  {
    assert after.reviews[..|before.reviews|][|db.reviews| + i] == after.reviews[|db.reviews| + i];
  }

  /** The last item of a batch is one transition. */
  lemma LastItemEffect(db: Db, actor: Id, items: seq<BatchItem>, targets: map<Id, BatchTarget>, now: Time, k: nat)
    requires 0 < k <= |items|
    requires forall i | 0 <= i < |items| :: items[i].versionId in db.versions && items[i].versionId in targets
    ensures var before := BatchEffect(db, actor, items[..k - 1], targets, now);
            var after := BatchEffect(db, actor, items[..k], targets, now);
            var id := items[k - 1].versionId;
            && after == TransitionEffect(before, Config(RequestContentReview), actor, id, targets[id].version,
                                         TransitionRequest(items[k - 1].expected, None, items[k - 1].comment), now)
            && after.versions == before.versions[id := after.versions[id]]
            && |after.reviews| == |before.reviews| + 1 && after.reviews[..|before.reviews|] == before.reviews
  {
    assert items[..k][..k - 1] == items[..k - 1];
  }

  predicate AmongFirst(items: seq<BatchItem>, k: nat, id: Id)
    requires k <= |items|
  {
    exists i | 0 <= i < k :: items[i].versionId == id
  }

  /** The first k items are moved, in request order, and no other version. */
  ghost predicate FirstMoved(db: Db, after: Db, actor: Id, items: seq<BatchItem>, now: Time, k: nat)
    requires k <= |items|
  {
    && |after.reviews| == |db.reviews| + k
    && after.versions.Keys == db.versions.Keys
    && (forall i | 0 <= i < k :: ItemMoved(db, after, actor, items, i, now))
    && (forall v | v in db.versions && !AmongFirst(items, k, v) :: after.versions[v] == db.versions[v])
  }

  lemma OneMore(db: Db, before: Db, after: Db, actor: Id, items: seq<BatchItem>, now: Time, k: nat)
    requires 0 < k <= |items| && DistinctIds(items) && FirstMoved(db, before, actor, items, now, k - 1)
    requires items[k - 1].versionId in db.versions && after.versions.Keys == before.versions.Keys
    requires after.versions == before.versions[items[k - 1].versionId := after.versions[items[k - 1].versionId]]
    requires |after.reviews| == |before.reviews| + 1 && after.reviews[..|before.reviews|] == before.reviews
    requires ItemMoved(db, after, actor, items, k - 1, now)
    ensures FirstMoved(db, after, actor, items, now, k)
  {
    var id := items[k - 1].versionId;
    forall i | 0 <= i < k - 1 ensures ItemMoved(db, after, actor, items, i, now) {
      EarlierItemsStay(db, before, after, actor, items, id, i, now);
    }
    hide ItemMoved;
    assert AmongFirst(items, k, id);
    forall v | v in db.versions && !AmongFirst(items, k, v) ensures after.versions[v] == db.versions[v] {
      assert !AmongFirst(items, k - 1, v);
    }
  }

  lemma NotAmongFirst(items: seq<BatchItem>, k: nat)
    requires DistinctIds(items) && k < |items|
    ensures !AmongFirst(items, k, items[k].versionId)
  {
  }

  lemma NextItemMoves(db: Db, actor: Id, items: seq<BatchItem>, targets: map<Id, BatchTarget>, now: Time, k: nat)
    requires 0 < k <= |items| && DistinctIds(items)
    requires forall i | 0 <= i < |items| :: items[i].versionId in db.versions && items[i].versionId in targets
    requires targets[items[k - 1].versionId].version == db.versions[items[k - 1].versionId]
    requires db.versions[items[k - 1].versionId].rowVersion == items[k - 1].expected
    requires FirstMoved(db, BatchEffect(db, actor, items[..k - 1], targets, now), actor, items, now, k - 1)
    ensures FirstMoved(db, BatchEffect(db, actor, items[..k], targets, now), actor, items, now, k)
  {
    hide ItemMoved, BatchEffect, TransitionEffect, DistinctIds, AmongFirst;
    var before := BatchEffect(db, actor, items[..k - 1], targets, now);
    var after := BatchEffect(db, actor, items[..k], targets, now);
    LastItemEffect(db, actor, items, targets, now, k);
    NotAmongFirst(items, k - 1);
    OneItemMoves(db, before, actor, items, targets, now, k - 1);
    hide FirstMoved;
    OneMore(db, before, after, actor, items, now, k);
  }

  lemma {:induction false} BatchEffectMoves(db: Db, actor: Id, items: seq<BatchItem>, targets: map<Id, BatchTarget>,
                                            now: Time, k: nat)
    requires k <= |items| && BatchReady(db, actor, items, targets)
    requires forall i | 0 <= i < |items| :: db.versions[items[i].versionId].rowVersion == items[i].expected
    ensures FirstMoved(db, BatchEffect(db, actor, items[..k], targets, now), actor, items, now, k)
    decreases k
  {
    if k == 0 {
      assert items[..0] == [];
    } else {
      hide FirstMoved, BatchEffect, DistinctIds;
      BatchEffectMoves(db, actor, items, targets, now, k - 1);
      NextItemMoves(db, actor, items, targets, now, k);
    }
  }

  /** A committed batch moved every item, in request order, and no other version. */
  lemma CommittedBatchMovesEveryItem(db: Db, actor: Id, items: seq<BatchItem>, now: Time)
    requires CommitReviewBatch(db, actor, items, LoadBatchTargets(db, items), now).Ok?
    ensures var after := CommitReviewBatch(db, actor, items, LoadBatchTargets(db, items), now).value;
            && |after.reviews| == |db.reviews| + |items|
            && (forall i | 0 <= i < |items| :: ItemMoved(db, after, actor, items, i, now))
            && (forall v | v in db.versions && (forall i | 0 <= i < |items| :: items[i].versionId != v) ::
                  after.versions[v] == db.versions[v])
  {
    hide CommitReviewBatch, LoadBatchTargets, BatchEffect, ItemFailure, ArmedTargets, BatchUsers, BatchManifest, Arm;
    var targets := LoadBatchTargets(db, items);
    BatchIsReady(db, actor, items, now);
    BatchWrites(db, actor, items, targets, now);
    BatchFacts(db, actor, items, targets, now);
    FailureFree(items, targets, actor);
    ExpectedRows(items, targets, actor);
    BatchEffectMoves(db, actor, items, targets, now, |items|);
    assert items[..|items|] == items;
    var effect := BatchEffect(db, actor, items, targets, now);
    var after := CommitReviewBatch(db, actor, items, targets, now).value;
    forall i | 0 <= i < |items| ensures ItemMoved(db, after, actor, items, i, now) {
      assert ItemMoved(db, effect, actor, items, i, now);
    }
  }

  lemma ExpectedRows(items: seq<BatchItem>, targets: map<Id, BatchTarget>, actor: Id)
    requires forall i | 0 <= i < |items| :: ItemFailure(items[i], targets, actor).None?
    ensures forall i | 0 <= i < |items| ::
              items[i].versionId in targets && targets[items[i].versionId].version.rowVersion == items[i].expected
  {
  }
}
