/**
  * Whether a row version names one row. Every write of a version raises its row
  * version by one, but a publication writes one more than the row version it was
  * planned on. So over a run the row versions of a version tell its rows apart
  * exactly when every publication of it had reads that agree.
  */
module RowVersions {
  import opened Common
  import opened ContentTables
  import opened ContentArm
  import opened ContentCommands
  import opened ReviewBatch
  import opened AccountErasure
  import opened ContentInvariant
  import opened ContentOrder
  import opened CommandPreservation
  import opened ErasurePreservation
  import opened ContentConcurrency
  import opened PublishConcurrency
  import opened ReportConcurrency
  import opened BatchConcurrency
  import opened BatchPlanning
  import opened ContentEvents
  import opened ContentSteps
  import opened ContentRuns
  import opened ContentAccounting

  /** The row is left alone, or its row version goes up by one. */
  ghost predicate Bumped(row: Version, next: Version) {
    next == row || next.rowVersion == row.rowVersion + 1
  }

  /** Every row but the excepted one. */
  ghost predicate Bumps(versions: map<Id, Version>, after: map<Id, Version>, except: Option<Id>) {
    && versions.Keys <= after.Keys
    && forall v {:trigger Bumped(versions[v], after[v])} | v in versions && except != Some(v) ::
         Bumped(versions[v], after[v])
  }

  // ----- one transaction

  lemma CreateBumps(db: Db, e: Event, next: Db)
    requires (e.CreateQuestion? || e.Import?) && Inv(db) && Commits([db], e, next)
    ensures Bumps(db.versions, next.versions, None)
  {
    hide Inv, Arm, ContentCheck, ImportValid, InsertItems;
    match e {
      case CreateQuestion(_, _, _, _, _) =>
      case Import(actor, imported, _) =>
        InsertedBumps(db, actor, imported, |imported|);
        assert imported[..|imported|] == imported;
    }
  }

  lemma {:induction false} InsertedBumps(db: Db, actor: Id, items: seq<ImportItem>, k: nat)
    requires Inv(db) && HasAuthority(db, actor) && k <= |items|
    requires ImportValid(db, items) && FreshKeys(db, items) && DistinctKeys(items)
    ensures Bumps(db.versions, InsertItems(db, actor, items[..k]).versions, None)
    decreases k
  {
    hide Inv, ImportValid, HasAuthority, Imported;
    if k == 0 {
      assert items[..0] == [];
    } else {
      InsertedBumps(db, actor, items, k - 1);
      InsertItemsKeeps(db, actor, items, k - 1);
      assert items[..k][..k - 1] == items[..k - 1];
      NewKeysFresh(db, InsertItems(db, actor, items[..k - 1]), items, k - 1);
    }
  }

  lemma PublishBumps(s: Db, g: Db, db: Db, actor: Id, id: Id, expectedQuestion: nat, expected: nat, now: Time, next: Db)
    requires Inv(s) && Inv(g) && Inv(db) && Follows(s, g) && Follows(g, db)
    requires CommitPublish(db, actor, id, expectedQuestion, expected, LoadVersionTarget(s, id),
                           AggregateRead(g, LoadVersionTarget(s, id)), now) == Ok(next)
    ensures Bumps(db.versions, next.versions, Some(id))
    ensures id in s.versions && id in g.versions && id in db.versions
    ensures s.versions[id].status == Approved && db.versions[id].status == Approved
            && next.versions[id].status == Published
    ensures s.versions[id].rowVersion <= g.versions[id].rowVersion == db.versions[id].rowVersion
    ensures next.versions[id].rowVersion == s.versions[id].rowVersion + 1
  {
    hide Inv, Follows, CommitPublish, LoadLifecycleVersions;
    var target := LoadVersionTarget(s, id);
    var aggregate := AggregateRead(g, target);
    PublishFacts(db, actor, id, expectedQuestion, expected, target, aggregate, now);
    PublishRead(s, g, db, actor, id, expectedQuestion, expected, now);
    ApprovedStatus(db, actor, id, expectedQuestion, expected, target, aggregate, now);
  }

  lemma ArchiveEffectBumps(db: Db, actor: Id, questionId: Id, questionRow: nat, current: Option<Id>,
                           candidate: Option<Id>, rows: map<Id, Version>, now: Time)
    requires questionId in db.questions
    requires current.Some? ==> current.value in db.versions && current.value in rows
                               && rows[current.value].rowVersion == db.versions[current.value].rowVersion
    requires candidate.Some? ==> candidate.value in db.versions && candidate.value in rows && current != candidate
                                 && rows[candidate.value].rowVersion == db.versions[candidate.value].rowVersion
    ensures Bumps(db.versions,
                  ArchiveEffect(db, actor, questionId, questionRow, current, candidate, rows, now).versions, None)
  {
    hide AuthorSnapshot, RetiredReview;
  }

  lemma ArchiveBumps(s: Db, g: Db, db: Db, actor: Id, questionId: Id, request: ArchiveRequest,
                     target: Option<QuestionTarget>, now: Time, next: Db)
    requires Inv(g) && Inv(db) && Follows(s, g) && Follows(g, db) && IsQuestionTarget(s, questionId, target)
    requires CommitArchive(db, actor, questionId, request, target, LoadLifecycleVersions(g, questionId), now)
             == Ok(next)
    ensures Bumps(db.versions, next.versions, None)
  {
    hide Inv, Follows, CommitArchive, CandidateExpected, CandidateOf, OpenCandidates, IsQuestionTarget, AuthorSnapshot,
         ArchiveEffect, Bumps;
    StaleArchive(s, g, db, actor, questionId, request, target, now);
    var aggregate := LoadLifecycleVersions(db, questionId);
    ArchiveFacts(db, actor, questionId, request, target, aggregate, now);
    ArchiveWrites(db, actor, questionId, request, target, aggregate, now);
    ArchiveReads(db, questionId, target);
    var current, candidate := ArchiveCurrent(target.value, aggregate), CandidateOf(aggregate);
    ArchiveRowsFit(db, questionId, request, current, aggregate);
    ArchiveEffectBumps(db, actor, questionId, request.expected, current, candidate, aggregate, now);
  }

  lemma BatchBumps(s: Db, db: Db, actor: Id, items: seq<BatchItem>, now: Time, next: Db)
    requires Inv(db) && Follows(s, db) && Follows(db, next)
    requires CommitReviewBatch(db, actor, items, LoadBatchTargets(s, items), now) == Ok(next)
    ensures Bumps(db.versions, next.versions, None)
  {
    hide Inv, Follows, CommitReviewBatch, LoadBatchTargets;
    StaleBatch(s, db, actor, items, now);
    CommittedBatchMovesEveryItem(db, actor, items, now);
    forall v | v in db.versions ensures v in next.versions && Bumped(db.versions[v], next.versions[v]) {
      PlaceKept(db, next, v);
      if i :| 0 <= i < |items| && items[i].versionId == v {
        assert ItemMoved(db, next, actor, items, i, now);
      }
    }
  }

  lemma EraseBumps(db: Db, user: Id, order: seq<Id>, now: Time, next: Db)
    requires LockOrder(db, order, user) && CommitErase(db, user, order, now) == Some(next)
    ensures Bumps(db.versions, next.versions, None)
  {
    hide LockOrder;
    EraseRows(db, user, order, now);
  }

  lemma CreateVersionBumps(db: Db, actor: Id, questionId: Id, versionId: Id, expected: nat, content: Content,
                           target: Option<QuestionTarget>, seen: ContentSeen, next: Db)
    requires CommitCreateVersion(db, actor, questionId, versionId, expected, content, target, seen) == Ok(next)
    ensures Bumps(db.versions, next.versions, None)
  {
    hide CommitCreateVersion, ContentCheck;
    CreateVersionFacts(db, actor, questionId, versionId, expected, content, target, seen);
  }

  lemma UpdateBumps(db: Db, actor: Id, id: Id, expected: nat, content: Content, target: Option<VersionTarget>,
                    options: map<Id, Choice>, tagsRead: set<Id>, seen: ContentSeen, next: Db)
    requires CommitUpdate(db, actor, id, expected, content, target, options, tagsRead, seen) == Ok(next)
    ensures Bumps(db.versions, next.versions, None)
  {
    hide CommitUpdate, ContentCheck, ChangedFields;
    UpdateFacts(db, actor, id, expected, content, target, options, tagsRead, seen);
  }

  lemma TransitionBumps(db: Db, operation: LifecycleOperation, actor: Id, id: Id, request: TransitionRequest,
                        target: Option<VersionTarget>, now: Time, next: Db)
    requires CommitTransition(db, operation, actor, id, request, target, now) == Ok(next)
    ensures Bumps(db.versions, next.versions, None)
  {
    hide CommitTransition;
    TransitionFacts(db, operation, actor, id, request, target, now);
  }

  lemma RetireBumps(db: Db, actor: Id, id: Id, expectedQuestion: nat, expected: nat, target: Option<VersionTarget>,
                    now: Time, next: Db)
    requires CommitRetire(db, actor, id, expectedQuestion, expected, target, now) == Ok(next)
    ensures Bumps(db.versions, next.versions, None)
  {
    hide CommitRetire;
    RetireFacts(db, actor, id, expectedQuestion, expected, target, now);
  }

  lemma TriageBumps(db: Db, actor: Id, id: Id, expected: nat, target: Option<ReportTarget>, next: Db)
    requires CommitTriage(db, actor, id, expected, target) == Ok(next)
    ensures Bumps(db.versions, next.versions, None)
  {
    hide CommitTriage;
    TriageFacts(db, actor, id, expected, target);
  }

  lemma ResolveBumps(db: Db, actor: Id, id: Id, request: ResolveRequest, outer: set<Id>, target: Option<ReportTarget>,
                     remediation: Option<Version>, now: Time, next: Db)
    requires CommitResolve(db, actor, id, request, outer, target, remediation, now) == Ok(next)
    ensures Bumps(db.versions, next.versions, None)
  {
    hide CommitResolve;
    ResolveFacts(db, actor, id, request, outer, target, remediation, now);
  }

  lemma OtherBumps(db: Db, e: Event, next: Db)
    requires e.SignUp? || e.SetRole? || e.RequestErasure? || e.Pin? || e.SubmitReport? || e.RedactReport?
    requires Commits([db], e, next)
    ensures Bumps(db.versions, next.versions, None)
  {
    hide NewReport, OpenVersionsOf, CommitCreateQuestion, CommitCreateVersion, CommitUpdate, CommitTransition,
         CommitPublish, CommitRetire, CommitArchive, CommitReviewBatch, CommitImport, CommitTriage, CommitResolve,
         LoadVersionTarget, IsQuestionTarget, LoadReportTarget, LoadBatchTargets, LoadLifecycleVersions, VersionRow,
         LockOrder, CommitErase;
  }

  /** The version whose row version a transaction may set otherwise. */
  function ExceptedBy(e: Event): Option<Id> {
    if e.Publish? then Some(e.id) else None
  }

  /** Any committed transaction raises the row version of every row it changes by one, but for its publication. */
  lemma StepBumps(h: seq<Db>, e: Event, next: Db)
    requires History(h) && Commits(h, e, next)
    ensures Bumps(h[|h| - 1].versions, next.versions, ExceptedBy(e))
  {
    hide Inv, Follows, Bumps, LoadVersionTarget, IsQuestionTarget, LoadReportTarget, LoadBatchTargets,
         LoadLifecycleVersions, VersionRow, LockOrder, CommitErase, OpenVersionsOf, NewReport, CommitCreateQuestion,
         CommitCreateVersion, CommitUpdate, CommitTransition, CommitPublish, CommitRetire, CommitArchive,
         CommitReviewBatch, CommitImport, CommitTriage, CommitResolve;
    var db := h[|h| - 1];
    match e {
      case CreateQuestion(_, _, _, _, _) => CreateBumps(db, e, next);
      case CreateVersion(actor, questionId, versionId, expected, content, target, seen, targetAt) =>
        CreateVersionBumps(db, actor, questionId, versionId, expected, content, target, seen, next);
      case Update(actor, id, expected, content, seen, targetAt, optionsAt, tagsAt) =>
        UpdateBumps(db, actor, id, expected, content, LoadVersionTarget(h[targetAt], id),
                    OptionsRead(h[optionsAt], id), TagsRead(h[tagsAt], id), seen, next);
      case Transition(operation, actor, id, request, targetAt, now) =>
        TransitionBumps(db, operation, actor, id, request, LoadVersionTarget(h[targetAt], id), now, next);
      case Publish(actor, id, expectedQuestion, expected, targetAt, aggregateAt, now) =>
        PublishBumps(h[targetAt], h[aggregateAt], db, actor, id, expectedQuestion, expected, now, next);
      case Retire(actor, id, expectedQuestion, expected, targetAt, now) =>
        RetireBumps(db, actor, id, expectedQuestion, expected, LoadVersionTarget(h[targetAt], id), now, next);
      case Archive(actor, questionId, archival, target, targetAt, aggregateAt, now) =>
        ArchiveBumps(h[targetAt], h[aggregateAt], db, actor, questionId, archival, target, now, next);
      case RequestBatch(actor, items, targetAt, now) =>
        StepFollows(h, e, next);
        BatchBumps(h[targetAt], db, actor, items, now, next);
      case Import(_, _, _) => CreateBumps(db, e, next);
      case Triage(actor, id, expected, targetAt) =>
        TriageBumps(db, actor, id, expected, LoadReportTarget(h[targetAt], id), next);
      case Resolve(actor, id, resolution, outer, targetAt, remediationAt, now) =>
        ResolveBumps(db, actor, id, resolution, outer, LoadReportTarget(h[targetAt], id),
                     VersionRow(h[remediationAt], resolution.remediation), now, next);
      case Erase(user, order, now) => EraseBumps(db, user, order, now, next);
      case _ => OtherBumps(db, e, next);
    }
  }

  lemma StepFollows(h: seq<Db>, e: Event, next: Db)
    requires History(h) && Commits(h, e, next)
    ensures Follows(h[|h| - 1], next)
  {
    hide Commits, Inv, Follows;
    StepIsGood(h, e, next);
  }

  // ----- runs

  /** The row versions a version takes in a run tell its rows apart. */
  ghost predicate NamesRows(h: seq<Db>, v: Id) {
    forall i, j | 0 <= i <= j < |h| && v in h[i].versions && v in h[j].versions
                  && h[i].versions[v].rowVersion == h[j].versions[v].rowVersion ::
      h[i].versions[v] == h[j].versions[v]
  }

  /** A version stays, and every step but its publication bumps its row. */
  lemma RunBumps(h: seq<Db>, events: seq<Event>, k: nat, v: Id)
    requires Run(h, events) && k < |events| && v in h[k].versions
    ensures v in h[k + 1].versions
    ensures ExceptedBy(events[k]) != Some(v) ==> Bumped(h[k].versions[v], h[k + 1].versions[v])
  {
    hide Inv, Follows, Commits, Seeded;
    RunHistory(h, events, k);
    assert Stepped(h, events, k);
    StepBumps(h[..k + 1], events[k], h[k + 1]);
  }

  /** What the run of a publication shows of its target: read open, published one above the row version read. */
  lemma RunPublishes(h: seq<Db>, events: seq<Event>, k: nat)
    requires Run(h, events) && k < |events| && events[k].Publish?
    ensures var e := events[k];
            && e.targetAt <= k && e.id in h[e.targetAt].versions && e.id in h[k].versions && e.id in h[k + 1].versions
            && OpenStatus(h[e.targetAt].versions[e.id].status) && OpenStatus(h[k].versions[e.id].status)
            && h[k + 1].versions[e.id].status == Published
            && h[e.targetAt].versions[e.id].rowVersion <= h[k].versions[e.id].rowVersion
            && h[k + 1].versions[e.id].rowVersion == h[e.targetAt].versions[e.id].rowVersion + 1
            && (Coherent(h[..k + 1], e) <==> h[e.targetAt].versions[e.id].rowVersion == h[k].versions[e.id].rowVersion)
  {
    hide Inv, Follows, CommitPublish, Seeded, LoadVersionTarget, AggregateRead;
    var e := events[k];
    RunHistory(h, events, k);
    var g := h[..k + 1];
    assert Commits(g, e, h[k + 1]) by { assert Stepped(h, events, k); }
    PublishBumps(g[e.targetAt], g[e.aggregateAt], g[k], e.actor, e.id, e.expectedQuestion, e.expected, e.now, h[k + 1]);
  }

  /** With agreeing reads a row version never goes down, and stays only where the row does. */
  lemma {:induction false} CoherentRises(h: seq<Db>, events: seq<Event>, i: nat, j: nat, v: Id)
    requires Run(h, events) && CoherentFor(h, events, |events|, v) && i <= j < |h| && v in h[i].versions
    ensures v in h[j].versions && h[i].versions[v].rowVersion <= h[j].versions[v].rowVersion
    ensures h[i].versions[v].rowVersion == h[j].versions[v].rowVersion ==> h[i].versions[v] == h[j].versions[v]
    decreases j
  {
    hide Stepped, Seeded, Coherent;
    if i < j {
      CoherentRises(h, events, i, j - 1, v);
      RunBumps(h, events, j - 1, v);
      if ExceptedBy(events[j - 1]) == Some(v) {
        assert Coherent(h[..(j - 1) + 1], events[j - 1]);
        RunPublishes(h, events, j - 1);
      }
    }
  }

  /** A version that is open now was open in every earlier state that has it. */
  lemma OpenBefore(h: seq<Db>, events: seq<Event>, i: nat, j: nat, v: Id)
    requires Run(h, events) && i <= j < |h| && v in h[i].versions && v in h[j].versions
    requires OpenStatus(h[j].versions[v].status)
    ensures OpenStatus(h[i].versions[v].status)
  {
    hide Inv, Stepped, Seeded;
    RunIsSound(h, events);
    assert Follows(h[i], h[j]);
    assert VersionFollows(h[i].versions[v], h[j].versions[v]);
  }

  lemma StillThere(h: seq<Db>, events: seq<Event>, i: nat, j: nat, v: Id)
    requires Run(h, events) && i <= j < |h| && v in h[i].versions
    ensures v in h[j].versions
  {
    hide Inv, Stepped, Seeded;
    RunIsSound(h, events);
    assert Follows(h[i], h[j]);
  }

  /** While a version is open its row version takes every value between two that it has. */
  lemma {:induction false} OpenReaches(h: seq<Db>, events: seq<Event>, i: nat, j: nat, v: Id, n: nat) returns (m: nat)
    requires Run(h, events) && i <= j < |h| && v in h[i].versions && v in h[j].versions
    requires OpenStatus(h[j].versions[v].status)
    requires h[i].versions[v].rowVersion <= n <= h[j].versions[v].rowVersion
    ensures i <= m <= j && v in h[m].versions
    ensures OpenStatus(h[m].versions[v].status) && h[m].versions[v].rowVersion == n
    decreases j
  {
    hide Stepped, Seeded;
    if h[j].versions[v].rowVersion == n {
      m := j;
    } else {
      assert i < j;
      StillThere(h, events, i, j - 1, v);
      OpenBefore(h, events, j - 1, j, v);
      RunBumps(h, events, j - 1, v);
      if ExceptedBy(events[j - 1]) == Some(v) {
        RunPublishes(h, events, j - 1);
        assert false;
      }
      m := OpenReaches(h, events, i, j - 1, v, n);
    }
  }

  /** An incoherent publication writes a row version that the version had while it was open. */
  lemma IncoherentRepeats(h: seq<Db>, events: seq<Event>, k: nat)
    requires Run(h, events) && k < |events| && events[k].Publish? && !Coherent(h[..k + 1], events[k])
    ensures !NamesRows(h, events[k].id)
  {
    hide Stepped, Seeded, Coherent;
    var v, t := events[k].id, events[k].targetAt;
    RunPublishes(h, events, k);
    var m := OpenReaches(h, events, t, k, v, h[t].versions[v].rowVersion + 1);
    assert h[m].versions[v].rowVersion == h[k + 1].versions[v].rowVersion;
    assert h[m].versions[v].status != h[k + 1].versions[v].status;
  }

  /**
    * Over a run the row version of a version names its row if and only if every
    * publication of the version had reads that agree.
    */
  lemma RowVersionNamesRow(h: seq<Db>, events: seq<Event>, v: Id)
    requires Run(h, events)
    ensures NamesRows(h, v) <==> CoherentFor(h, events, |events|, v)
  {
    hide Stepped, Seeded, Coherent;
    if CoherentFor(h, events, |events|, v) {
      forall i, j | 0 <= i <= j < |h| && v in h[i].versions && v in h[j].versions
                    && h[i].versions[v].rowVersion == h[j].versions[v].rowVersion
        ensures h[i].versions[v] == h[j].versions[v]
      {
        CoherentRises(h, events, i, j, v);
      }
    } else {
      var k :| 0 <= k < |events| && events[k].Publish? && events[k].id == v && !Coherent(h[..k + 1], events[k]);
      IncoherentRepeats(h, events, k);
    }
  }
}
