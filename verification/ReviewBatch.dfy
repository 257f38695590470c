/**
  * Batch review requests: plan every item against the rows read, arm the prefix
  * the plan reached, and move all items in one transaction or none.
  */
module ReviewBatch {
  import opened Common
  import opened ContentTables
  import opened ContentArm
  import opened ContentCommands

  datatype BatchItem = BatchItem(versionId: Id, expected: nat, comment: Option<string>)

  datatype BatchTarget = BatchTarget(version: Version, question: Question)

  /** One query reads every requested version with its question. */
  function LoadBatchTargets(db: Db, items: seq<BatchItem>): map<Id, BatchTarget> {
    map v | v in db.versions && (exists i | 0 <= i < |items| :: items[i].versionId == v)
            && db.versions[v].questionId in db.questions
      :: BatchTarget(db.versions[v], db.questions[db.versions[v].questionId])
  }

  datatype Kind = PreArm | State

  datatype BatchFailure = BatchFailure(index: nat, kind: Kind, error: Failure)

  /** The failure of one item judged alone, in the order the program tests it. */
  function ItemFailure(item: BatchItem, targets: map<Id, BatchTarget>, actor: Id): Option<(Kind, Failure)> {
    if item.versionId !in targets then Some((PreArm, ResourceNotFound))
    else
      var t := targets[item.versionId];
      if t.version.creator.userId != Some(actor) then Some((PreArm, Forbidden))
      else if t.version.rowVersion != item.expected then Some((PreArm, VersionConflict))
      else if t.question.lifecycle != Active || !Editable(t.version.status) then Some((State, InvalidStateTransition))
      else None
  }

  /** The failure of the first failing item. */
  function FirstFailure(items: seq<BatchItem>, targets: map<Id, BatchTarget>, actor: Id): (f: Option<BatchFailure>)
    ensures f.Some? ==> f.value.index < |items|
    decreases |items|
  {
    if |items| == 0 then None
    else
      var n := |items| - 1;
      var earlier := FirstFailure(items[..n], targets, actor);
      if earlier.Some? then earlier
      else
        var f := ItemFailure(items[n], targets, actor);
        if f.Some? then Some(BatchFailure(n, f.value.0, f.value.1)) else None
  }

  /** How many leading items are armed. */
  function ArmedCount(items: seq<BatchItem>, failure: Option<BatchFailure>): (n: nat)
    requires failure.Some? ==> failure.value.index < |items|
    ensures n <= |items|
  {
    if failure.None? then |items|
    else if failure.value.kind == PreArm then failure.value.index
    else failure.value.index + 1
  }

  function ArmedTargets(items: seq<BatchItem>, n: nat, targets: map<Id, BatchTarget>): map<Id, BatchTarget>
    requires n <= |items|
  {
    map v | v in targets && (exists i | 0 <= i < n :: items[i].versionId == v) :: targets[v]
  }

  predicate DistinctIds(items: seq<BatchItem>) {
    forall i, j | 0 <= i < j < |items| :: items[i].versionId != items[j].versionId
  }

  function BatchUsers(armed: map<Id, BatchTarget>): set<Id> {
    (set v | v in armed && armed[v].question.creator.userId.Some? :: armed[v].question.creator.userId.value)
    + (set v | v in armed && armed[v].version.creator.userId.Some? :: armed[v].version.creator.userId.value)
  }

  function BatchManifest(armed: map<Id, BatchTarget>): Manifest {
    Manifest(
      map q | q in (set v | v in armed :: armed[v].version.questionId)
        :: QuestionOf(armed, q),
      map v | v in armed :: VersionItem(armed[v].version.rowVersion, armed[v].version.status),
      map[], {})
  }

  /** The question row read with the armed versions of that question. */
  function QuestionOf(armed: map<Id, BatchTarget>, questionId: Id): QuestionItem {
    var rows := set v | v in armed && armed[v].version.questionId == questionId
                  :: QuestionItem(armed[v].question.rowVersion, armed[v].question.lifecycle);
    if |rows| == 1 then OnlyItem(rows) else QuestionItem(0, Archived)
  }

  function OnlyItem(s: set<QuestionItem>): (x: QuestionItem)
    requires |s| == 1
    ensures s == {x}
  {
    assert forall a, b | a in s && b in s :: a == b by {
      forall a, b | a in s && b in s ensures a == b {
        assert |s - {a}| == 0;
      }
    }
    var x :| x in s;
    x
  }

  function BatchEffect(db: Db, actor: Id, items: seq<BatchItem>, targets: map<Id, BatchTarget>, now: Time): (r: Db)
    requires forall i | 0 <= i < |items| :: items[i].versionId in db.versions && items[i].versionId in targets
    ensures r.versions.Keys == db.versions.Keys
    decreases |items|
  {
    if |items| == 0 then db
    else
      var n := |items| - 1;
      var before := BatchEffect(db, actor, items[..n], targets, now);
      TransitionEffect(before, Config(RequestContentReview), actor, items[n].versionId,
                       targets[items[n].versionId].version,
                       TransitionRequest(items[n].expected, None, items[n].comment), now)
  }

  lemma BatchEffectStarts(db: Db, actor: Id, items: seq<BatchItem>, targets: map<Id, BatchTarget>, now: Time)
    ensures BatchEffect(db, actor, items[..0], targets, now) == db
  {
  }

  lemma BatchEffectGrows(db: Db, actor: Id, items: seq<BatchItem>, targets: map<Id, BatchTarget>, now: Time, i: nat)
    requires i < |items|
    requires forall j | 0 <= j < |items| :: items[j].versionId in db.versions && items[j].versionId in targets
    ensures BatchEffect(db, actor, items[..i + 1], targets, now)
         == TransitionEffect(BatchEffect(db, actor, items[..i], targets, now), Config(RequestContentReview), actor,
                             items[i].versionId, targets[items[i].versionId].version,
                             TransitionRequest(items[i].expected, None, items[i].comment), now)
  {
    assert items[..i + 1][..i] == items[..i];
  }

  function CommitReviewBatch(db: Db, actor: Id, items: seq<BatchItem>, targets: map<Id, BatchTarget>, now: Time)
    : Outcome
  {
    var failure := FirstFailure(items, targets, actor);
    var n := ArmedCount(items, failure);
    var armedTargets := ArmedTargets(items, n, targets);
    var op := Operation(actor, ReviewRequestBatch, {actor} + BatchUsers(armedTargets));
    var begun := Begin(db, op);
    if begun.Some? then Err(begun.value)
    else if failure.Some? && failure.value.kind == PreArm && n == 0 then Err(failure.value.error)
    else if !DistinctIds(items[..n]) then Err(BadManifest)
    else
      var armed := Arm(db, op, BatchManifest(armedTargets));
      if armed.Some? then Err(armed.value)
      else if failure.Some? then Err(failure.value.error)
      else if !(forall i | 0 <= i < |items| :: RequestAuthor(db, items[i].versionId, actor)) then Err(NotAuthor)
      else
        FailureFree(items, targets, actor);
        assert forall i | 0 <= i < |items| :: items[i].versionId in db.versions && items[i].versionId in targets;
        Ok(WithAudit(BatchEffect(db, actor, items, targets, now),
                     Audit(ReviewRequestBatch, None, Some(AdminAccount(actor)), None, None, [VersionStatus])))
  }

  /** Without a first failure every item passes. */
  lemma {:induction false} FailureFree(items: seq<BatchItem>, targets: map<Id, BatchTarget>, actor: Id)
    requires FirstFailure(items, targets, actor).None?
    ensures forall i | 0 <= i < |items| :: ItemFailure(items[i], targets, actor).None?
    decreases |items|
  {
    if |items| > 0 {
      FailureFree(items[..|items| - 1], targets, actor);
    }
  }
}
