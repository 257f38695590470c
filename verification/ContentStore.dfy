/**
  * The content tables as the transactions change them: begin, arm, then one
  * write after the other, with everything undone when a rule fails at the end.
  * Each method is one transaction and is proved against its commit function.
  */
module ContentStore {
  import opened Common
  import opened ContentTables
  import opened ContentArm
  import opened ContentCommands
  import opened ReviewBatch
  import opened AccountErasure
  import opened CommandPreservation

  /** The live authors of the given versions. */
  function AuthorUsers(versions: map<Id, Version>, keys: set<Id>): set<Id> {
    set v | v in keys && v in versions && versions[v].creator.userId.Some? :: versions[v].creator.userId.value
  }

  /** The live latest approvers a command names, of the given versions. */
  function ApproverUsers(command: Command, versions: map<Id, Version>, reviews: seq<Review>, keys: set<Id>): set<Id> {
    set v | v in keys && v in versions && NamesApprover(command, versions[v].status)
            && LatestApprover(reviews, v).Some? && LatestApprover(reviews, v).value.userId.Some?
      :: LatestApprover(reviews, v).value.userId.value
  }

  lemma NoUsers(command: Command, versions: map<Id, Version>, reviews: seq<Review>)
    ensures AuthorUsers(versions, {}) == {} && ApproverUsers(command, versions, reviews, {}) == {}
  {
  }

  lemma MoreUsers(command: Command, versions: map<Id, Version>, reviews: seq<Review>, keys: set<Id>, v: Id)
    requires v in versions
    ensures AuthorUsers(versions, keys + {v}) == AuthorUsers(versions, keys) + OptionSet(versions[v].creator.userId)
    ensures ApproverUsers(command, versions, reviews, keys + {v}) ==
            ApproverUsers(command, versions, reviews, keys)
            + if NamesApprover(command, versions[v].status) && LatestApprover(reviews, v).Some?
              then OptionSet(LatestApprover(reviews, v).value.userId) else {}
  {
    hide LatestApprover, NamesApprover;
  }

  lemma UsersOfTargets(db: Db, op: Operation, m: Manifest)
    requires TargetsMatch(db, m)
    ensures DerivedUsers(db, op, m) ==
            {op.actor}
            + (set q | q in m.questions && db.questions[q].creator.userId.Some? :: db.questions[q].creator.userId.value)
            + AuthorUsers(db.versions, m.versions.Keys)
            + ApproverUsers(op.command, db.versions, db.reviews, m.versions.Keys)
            + (set r | r in m.reports && db.reports[r].reporter.userId.Some? :: db.reports[r].reporter.userId.value)
            + (set r | r in m.reports && db.reports[r].assignee.Some? && db.reports[r].assignee.value.userId.Some?
                 :: db.reports[r].assignee.value.userId.value)
  {
    hide LatestApprover, NamesApprover;
    AuthorsOfTargets(db, op.command, m);
  }

  lemma AuthorsOfTargets(db: Db, command: Command, m: Manifest)
    requires TargetsMatch(db, m)
    ensures AuthorUsers(db.versions, m.versions.Keys) ==
            set v | v in m.versions && db.versions[v].creator.userId.Some? :: db.versions[v].creator.userId.value
    ensures ApproverUsers(command, db.versions, db.reviews, m.versions.Keys) ==
            set v | v in m.versions && NamesApprover(command, db.versions[v].status)
                    && LatestApprover(db.reviews, v).Some? && LatestApprover(db.reviews, v).value.userId.Some?
              :: LatestApprover(db.reviews, v).value.userId.value
  {
    hide LatestApprover, NamesApprover;
  }

  class Store {
    var questions: map<Id, Question>
    var versions: map<Id, Version>
    var reviews: seq<Review>
    var audits: seq<Audit>
    var reports: map<Id, Report>
    var users: map<Id, User>
    var erased: set<Id>
    var pinned: set<Id>
    var tags: set<Id>

    function Tables(): Db
      reads this
    {
      Db(questions, versions, reviews, audits, reports, users, erased, pinned, tags)
    }

    constructor (db: Db)
      ensures Tables() == db
    {
      questions, versions, reviews, audits := db.questions, db.versions, db.reviews, db.audits;
      reports, users, erased, pinned, tags := db.reports, db.users, db.erased, db.pinned, db.tags;
    }

    /** What the caller of a transaction observes. */
    ghost function Observed(failure: Option<Failure>): Outcome
      reads this
    {
      if failure.Some? then Err(failure.value) else Ok(Tables())
    }

    method Rollback(saved: Db)
      modifies this
      ensures Tables() == saved
    {
      questions, versions, reviews, audits := saved.questions, saved.versions, saved.reviews, saved.audits;
      reports, users, erased, pinned, tags := saved.reports, saved.users, saved.erased, saved.pinned, saved.tags;
    }

    // ----- the two guards

    /** Locks every armed question and compares it, collecting its live creator. */
    method LockQuestions(m: Manifest) returns (ok: bool, found: set<Id>)
      ensures ok <==> forall q | q in m.questions :: QuestionMatches(Tables(), q, m.questions[q])
      ensures ok ==>
        found == set q | q in m.questions && questions[q].creator.userId.Some? :: questions[q].creator.userId.value
    {
      found := {};
      var left := m.questions.Keys;
      while left != {}
        invariant left <= m.questions.Keys
        invariant forall q | q in m.questions && q !in left :: QuestionMatches(Tables(), q, m.questions[q])
        invariant found == set q | q in m.questions && q !in left && questions[q].creator.userId.Some?
                             :: questions[q].creator.userId.value
      {
        var q :| q in left;
        var item := m.questions[q];
        if q !in questions || questions[q].rowVersion != item.rowVersion || questions[q].lifecycle != item.state {
          assert !QuestionMatches(Tables(), q, m.questions[q]);
          return false, {};
        }
        found := found + OptionSet(questions[q].creator.userId);
        left := left - {q};
      }
      ok := true;
    }

    /** Locks every armed version and compares it, collecting its live author and, where named, its live approver. */
    method LockVersions(command: Command, m: Manifest) returns (ok: bool, authors: set<Id>, approvers: set<Id>)
      ensures ok <==> forall v | v in m.versions :: VersionMatches(Tables(), m, v, m.versions[v])
      ensures ok ==> authors == AuthorUsers(versions, m.versions.Keys)
      ensures ok ==> approvers == ApproverUsers(command, versions, reviews, m.versions.Keys)
    {
      hide LatestApprover, NamesApprover, AuthorUsers, ApproverUsers;
      authors, approvers := {}, {};
      var left := m.versions.Keys;
      NoUsers(command, versions, reviews);
      assert m.versions.Keys - left == {};
      while left != {}
        invariant left <= m.versions.Keys
        invariant forall v | v in m.versions && v !in left :: VersionMatches(Tables(), m, v, m.versions[v])
        invariant authors == AuthorUsers(versions, m.versions.Keys - left)
        invariant approvers == ApproverUsers(command, versions, reviews, m.versions.Keys - left)
      {
        var v :| v in left;
        var item := m.versions[v];
        if v !in versions || versions[v].rowVersion != item.rowVersion || versions[v].status != item.state
           || versions[v].questionId !in m.questions {
          assert !VersionMatches(Tables(), m, v, m.versions[v]);
          return false, {}, {};
        }
        MoreUsers(command, versions, reviews, m.versions.Keys - left, v);
        authors := authors + OptionSet(versions[v].creator.userId);
        if NamesApprover(command, versions[v].status) && LatestApprover(reviews, v).Some? {
          approvers := approvers + OptionSet(LatestApprover(reviews, v).value.userId);
        }
        assert m.versions.Keys - (left - {v}) == m.versions.Keys - left + {v};
        left := left - {v};
      }
      assert m.versions.Keys - left == m.versions.Keys;
      ok := true;
    }

    /** Locks every armed report and compares it, collecting its live reporter and assignee. */
    method LockReports(m: Manifest) returns (ok: bool, reporters: set<Id>, assignees: set<Id>)
      ensures ok <==> forall r | r in m.reports :: ReportMatches(Tables(), m, r, m.reports[r])
      ensures ok ==>
        reporters == set r | r in m.reports && reports[r].reporter.userId.Some? :: reports[r].reporter.userId.value
      ensures ok ==>
        assignees == set r | r in m.reports && reports[r].assignee.Some? && reports[r].assignee.value.userId.Some?
                       :: reports[r].assignee.value.userId.value
    {
      reporters, assignees := {}, {};
      var left := m.reports.Keys;
      while left != {}
        invariant left <= m.reports.Keys
        invariant forall r | r in m.reports && r !in left :: ReportMatches(Tables(), m, r, m.reports[r])
        invariant reporters == set r | r in m.reports && r !in left && reports[r].reporter.userId.Some?
                                 :: reports[r].reporter.userId.value
        invariant assignees == set r | r in m.reports && r !in left && reports[r].assignee.Some?
                                       && reports[r].assignee.value.userId.Some?
                                 :: reports[r].assignee.value.userId.value
      {
        var r :| r in left;
        var item := m.reports[r];
        if r !in reports || reports[r].rowVersion != item.rowVersion || reports[r].status != item.state
           || reports[r].questionId !in m.questions || reports[r].versionId !in m.versions {
          assert !ReportMatches(Tables(), m, r, m.reports[r]);
          return false, {}, {};
        }
        reporters := reporters + OptionSet(reports[r].reporter.userId);
        if reports[r].assignee.Some? {
          assignees := assignees + OptionSet(reports[r].assignee.value.userId);
        }
        left := left - {r};
      }
      ok := true;
    }

    /** Locks and compares every target, then checks the rules and the exact set of referenced users. */
    method ArmOperation(op: Operation, m: Manifest) returns (failure: Option<Failure>)
      ensures failure == Arm(Tables(), op, m)
    {
      hide QuestionMatches, VersionMatches, ReportMatches, ShapeOk, AggregateRulesOk, AuthorUsers, ApproverUsers,
           DerivedUsers;
      if !ShapeOk(op.command, m) { return Some(BadManifest); }
      var questionsOk, creators := LockQuestions(m);
      if !questionsOk { return Some(QuestionChanged); }
      var versionsOk, authors, approvers := LockVersions(op.command, m);
      if !versionsOk { return Some(VersionChanged); }
      var reportsOk, reporters, assignees := LockReports(m);
      if !reportsOk { return Some(ReportChanged); }
      if !AggregateRulesOk(Tables(), op.command, m) { return Some(RuleViolation); }
      if !(m.tags <= tags) { return Some(TagChanged); }
      var derived := {op.actor} + creators + authors + approvers + reporters + assignees;
      UsersOfTargets(Tables(), op, m);
      return if derived != op.referenced then Some(UsersNotExact) else None;
    }

    // ----- transactions

    /** Moves one version with its review and its audit. */
    method TransitionVersion(operation: LifecycleOperation, actor: Id, id: Id, request: TransitionRequest,
                             target: Option<VersionTarget>, now: Time) returns (failure: Option<Failure>)
      modifies this
      ensures Observed(failure) == CommitTransition(old(Tables()), operation, actor, id, request, target, now)
      ensures failure.Some? ==> Tables() == old(Tables())
    {
      hide Arm, StateAndDuties, TransitionEffect, Begin, TransitionReferenced;
      var config := Config(operation);
      var op := Operation(actor, config.command, TransitionReferenced(operation, actor, target));
      failure := Begin(Tables(), op);
      if failure.Some? { return; }
      if target.None? { return Some(ResourceNotFound); }
      var t := target.value;
      if config.authorOnly && t.version.creator.userId != Some(actor) { return Some(Forbidden); }
      if t.version.rowVersion != request.expected { return Some(VersionConflict); }
      failure := ArmOperation(op, SingleVersionManifest(id, t));
      if failure.Some? { return; }
      failure := StateAndDuties(config, actor, t);
      if failure.Some? { return; }
      if config.action == Requested && !RequestAuthor(Tables(), id, actor) { return Some(NotAuthor); }
      ArmedVersion(Tables(), op, SingleVersionManifest(id, t), id);
      WriteTransition(config, actor, id, t.version, request, now);
      failure := None;
    }

    method WriteTransition(config: TransitionConfig, actor: Id, id: Id, was: Version, request: TransitionRequest,
                           now: Time)
      requires id in versions
      modifies this
      ensures Tables() == TransitionEffect(old(Tables()), config, actor, id, was, request, now)
    {
      hide AuthorSnapshot;
      versions := versions[id := versions[id].(status := config.toState, rowVersion := was.rowVersion + 1)];
      reviews := reviews + [Review(id, was.questionId, config.action, was.status, config.toState,
                                   Some(AdminAccount(actor)),
                                   if config.authorOnly then None else AuthorSnapshot(was.creator),
                                   request.reason, request.comment, now)];
      audits := audits + [Audit(config.command, Some(id), Some(AdminAccount(actor)), Some(was.rowVersion),
                                Some(was.rowVersion + 1), [VersionStatus])];
    }

    /**
      * Publishes the approved version: clears the current version first, retires
      * it, then publishes and points to the new one.
      */
    method PublishVersion(actor: Id, id: Id, expectedQuestion: nat, expected: nat, target: Option<VersionTarget>,
                          aggregate: map<Id, Version>, now: Time) returns (failure: Option<Failure>)
      modifies this
      ensures Observed(failure)
              == CommitPublish(old(Tables()), actor, id, expectedQuestion, expected, target, aggregate, now)
      ensures failure.Some? ==> Tables() == old(Tables())
    {
      hide Arm, CrossQuestionDuplicate, FingerprintOf, PublishReferenced, Begin, PublishRowsOk;
      var op := Operation(actor, Publication, PublishReferenced(actor, target, aggregate));
      failure := Begin(Tables(), op);
      if failure.Some? { return; }
      if target.None? { return Some(ResourceNotFound); }
      var t := target.value;
      if t.question.rowVersion != expectedQuestion { return Some(VersionConflict); }
      if t.version.rowVersion != expected { return Some(VersionConflict); }
      failure := ArmOperation(op, PublishManifest(t, aggregate));
      if failure.Some? { return; }
      if !PublishRowsOk(id, t, aggregate) { return Some(InvalidStateTransition); }
      if AuthorSnapshot(t.version.creator).None? || t.approver.None? { return Some(InvalidStateTransition); }
      if CrossQuestionDuplicate(Tables(), t.version.questionId, FingerprintOf(t.version.content)) {
        return Some(DuplicateContent);
      }
      var q := t.version.questionId;
      var m := PublishManifest(t, aggregate);
      ArmedQuestion(Tables(), op, m, q);
      PublishRowsHas(id, t, aggregate);
      ArmedVersion(Tables(), op, m, id);
      var previous := PreviousCurrent(t, aggregate);
      if previous.Some? {
        ArmedVersion(Tables(), op, m, previous.value);
      }
      WritePublication(actor, id, q, previous, if previous.Some? then aggregate[previous.value].rowVersion else 0,
                       t.version.rowVersion, t.question.rowVersion, t.approver.value, now);
      failure := None;
    }

    /**
      * The writes of a publication: the reference is cleared and the old version
      * retired before the new one is published.
      */
    method WritePublication(actor: Id, id: Id, q: Id, previous: Option<Id>, previousRow: nat,
                            versionRow: nat, questionRow: nat, approver: Account, now: Time)
      requires id in versions && q in questions && (previous.Some? ==> previous.value in versions)
      modifies this
      ensures Tables()
              == PublishEffect(old(Tables()), actor, id, q, previous, previousRow, versionRow, questionRow, approver,
                               now)
    {
      if previous.Some? {
        questions := questions[q := questions[q].(current := None)];
        versions := versions[previous.value := RetiredRow(versions[previous.value], previousRow + 1, now)];
      }
      versions := versions[id := PublishedRow(versions[id], versionRow + 1, now)];
      questions := questions[q := questions[q].(current := Some(id), rowVersion := questionRow + 1)];
      if previous.Some? {
        reviews := reviews + [RetiredReview(previous.value, q, actor, PublishedReplacement, now)];
      }
      reviews := reviews
        + [Review(id, q, PublishedVersion, Approved, Published, Some(AdminAccount(actor)), Some(approver), None, None,
                  now)];
      audits := audits
        + [Audit(Publication, Some(id), Some(AdminAccount(actor)), Some(versionRow), Some(versionRow + 1),
                 [VersionStatus, CurrentPublished])];
      assert questions == old(questions)[q := old(questions)[q].(current := Some(id), rowVersion := questionRow + 1)];
    }

    /** Retires the published version: clears the reference, then retires the row. */
    method RetireVersion(actor: Id, id: Id, expectedQuestion: nat, expected: nat,
                         target: Option<VersionTarget>, now: Time) returns (failure: Option<Failure>)
      modifies this
      ensures Observed(failure) == CommitRetire(old(Tables()), actor, id, expectedQuestion, expected, target, now)
      ensures failure.Some? ==> Tables() == old(Tables())
    {
      hide Arm, Begin, RetireEffect, OptionSet;
      var users' := if target.None? then {} else
                      OptionSet(target.value.question.creator.userId) + OptionSet(target.value.version.creator.userId);
      var op := Operation(actor, Retirement, {actor} + users');
      failure := Begin(Tables(), op);
      if failure.Some? { return; }
      if target.None? { return Some(ResourceNotFound); }
      var t := target.value;
      if t.question.rowVersion != expectedQuestion || t.version.rowVersion != expected { return Some(VersionConflict); }
      var m := SingleVersionManifest(id, t);
      failure := ArmOperation(op, m);
      if failure.Some? { return; }
      if t.question.lifecycle != Active || t.version.status != Published || t.question.current != Some(id) {
        return Some(InvalidStateTransition);
      }
      var q := t.version.questionId;
      ArmedQuestion(Tables(), op, m, q);
      ArmedVersion(Tables(), op, m, id);
      WriteRetirement(actor, id, q, t.version.rowVersion, t.question.rowVersion, now);
      failure := None;
    }

    method WriteRetirement(actor: Id, id: Id, q: Id, versionRow: nat, questionRow: nat, now: Time)
      requires id in versions && q in questions
      modifies this
      ensures Tables() == RetireEffect(old(Tables()), actor, id, q, versionRow, questionRow, now)
    {
      hide RetiredRow, RetiredReview;
      questions := questions[q := questions[q].(current := None, rowVersion := questionRow + 1)];
      versions := versions[id := RetiredRow(versions[id], versionRow + 1, now)];
      reviews := reviews + [RetiredReview(id, q, actor, PublishedRetired, now)];
      audits := audits + [Audit(Retirement, Some(id), Some(AdminAccount(actor)), Some(versionRow), Some(versionRow + 1),
                                [VersionStatus, CurrentPublished])];
    }

    /** Archives a question: retires the current version, abandons the candidate, closes the question. */
    method ArchiveQuestion(actor: Id, questionId: Id, request: ArchiveRequest, target: Option<QuestionTarget>,
                           aggregate: map<Id, Version>, now: Time) returns (failure: Option<Failure>)
      modifies this
      ensures Observed(failure) == CommitArchive(old(Tables()), actor, questionId, request, target, aggregate, now)
      ensures failure.Some? ==> Tables() == old(Tables())
    {
      hide Arm, Begin, CandidateExpected, CandidateOf, AuthorSnapshot, ArchiveEffect, CreatorUsers;
      var named := if target.None? then {} else OptionSet(target.value.question.creator.userId);
      var op := Operation(actor, QuestionArchive, {actor} + named + CreatorUsers(aggregate));
      failure := Begin(Tables(), op);
      if failure.Some? { return; }
      if target.None? { return Some(ResourceNotFound); }
      var t := target.value;
      if t.question.rowVersion != request.expected { return Some(VersionConflict); }
      if !CandidateExpected(aggregate, request) { return Some(VersionConflict); }
      var m := ArchiveManifest(questionId, t, aggregate);
      failure := ArmOperation(op, m);
      if failure.Some? { return; }
      var current := ArchiveCurrent(t, aggregate);
      var candidate := CandidateOf(aggregate);
      if t.question.lifecycle != Active
         || (t.question.current.Some? && (current.None? || aggregate[current.value].status != Published)) {
        return Some(InvalidStateTransition);
      }
      if candidate.Some? && AuthorSnapshot(aggregate[candidate.value].creator).None? {
        return Some(InvalidStateTransition);
      }
      ArmedQuestion(Tables(), op, m, questionId);
      if current.Some? { ArmedVersion(Tables(), op, m, current.value); }
      if candidate.Some? { ArmedVersion(Tables(), op, m, candidate.value); }
      WriteArchive(actor, questionId, t.question.rowVersion, current, candidate, aggregate, now);
      failure := None;
    }

    /** The writes of an archive, version rows first, evidence after the question row. */
    method WriteArchive(actor: Id, questionId: Id, questionRow: nat, current: Option<Id>, candidate: Option<Id>,
                        rows: map<Id, Version>, now: Time)
      requires questionId in questions
      requires current.Some? ==> current.value in versions && current.value in rows
      requires candidate.Some? ==> candidate.value in versions && candidate.value in rows
      modifies this
      ensures Tables() == ArchiveEffect(old(Tables()), actor, questionId, questionRow, current, candidate, rows, now)
    {
      hide AuthorSnapshot;
      if current.Some? {
        versions := versions[current.value := RetiredRow(versions[current.value], rows[current.value].rowVersion + 1,
                                                         now)];
      }
      if candidate.Some? {
        versions := versions[candidate.value := AbandonedRow(versions[candidate.value],
                                                             rows[candidate.value].rowVersion + 1, now)];
      }
      questions := questions[questionId := questions[questionId].(current := None, lifecycle := Archived,
                                                                  rowVersion := questionRow + 1)];
      if current.Some? {
        reviews := reviews + [RetiredReview(current.value, questionId, actor, ArchivedQuestion, now)];
      }
      if candidate.Some? {
        reviews := reviews
          + [Review(candidate.value, questionId, ArchiveAbandoned, rows[candidate.value].status, Retired,
                    Some(AdminAccount(actor)), AuthorSnapshot(rows[candidate.value].creator), Some(ArchivedQuestion),
                    None, now)];
      }
      var changed := [LifecycleStatus];
      if current.Some? || candidate.Some? { changed := changed + [VersionStatus]; }
      if current.Some? { changed := changed + [CurrentPublished]; }
      assert changed == [LifecycleStatus]
                        + (if current.Some? || candidate.Some? then [VersionStatus] else [])
                        + (if current.Some? then [CurrentPublished] else []);
      audits := audits + [Audit(QuestionArchive, Some(questionId), Some(AdminAccount(actor)), Some(questionRow),
                                Some(questionRow + 1), changed)];
    }

    /** A question row, its first version and the audit; a content rule checked at the end undoes them all. */
    method CreateQuestion(actor: Id, questionId: Id, versionId: Id, content: Content, seen: ContentSeen)
      returns (failure: Option<Failure>)
      modifies this
      ensures Observed(failure) == CommitCreateQuestion(old(Tables()), actor, questionId, versionId, content, seen)
      ensures failure.Some? ==> Tables() == old(Tables())
    {
      hide Arm, Begin, Complete, FingerprintOf;
      if !seen.tagsResolve { return Some(ValidationError); }
      if seen.duplicate { return Some(DuplicateContent); }
      var op := Operation(actor, QuestionCreate, {actor});
      failure := Begin(Tables(), op);
      if failure.Some? { return; }
      failure := ArmOperation(op, Manifest(map[], map[], map[], content.tags));
      if failure.Some? { return; }
      if questionId in questions || versionId in versions { return Some(KeyTaken); }
      var saved := Tables();
      WriteQuestion(actor, questionId, versionId, content);
      failure := ContentCheck(Tables(), questionId, content);
      OwnVersionAside(saved, Tables(), questionId, versionId, content);
      if failure.Some? {
        Rollback(saved);
      }
    }

    method WriteQuestion(actor: Id, questionId: Id, versionId: Id, content: Content)
      modifies this
      ensures Tables() == InsertQuestion(old(Tables()), actor, questionId, versionId, content)
    {
      questions := questions[questionId := NewQuestion(actor)];
      versions := versions[versionId := NewVersion(actor, questionId, 1, content)];
      audits := audits
        + [Audit(QuestionCreate, Some(questionId), Some(AdminAccount(actor)), None, Some(1), CreateChangedFields())];
    }

    /** The question row is bumped before its next version is inserted. */
    method CreateVersion(actor: Id, questionId: Id, versionId: Id, expected: nat, content: Content,
                         target: Option<QuestionTarget>, seen: ContentSeen) returns (failure: Option<Failure>)
      modifies this
      ensures Observed(failure)
              == CommitCreateVersion(old(Tables()), actor, questionId, versionId, expected, content, target, seen)
      ensures failure.Some? ==> Tables() == old(Tables())
    {
      hide Arm, Begin, Complete, FingerprintOf, CrossQuestionDuplicate, ContentCheck;
      if target.None? { return Some(ResourceNotFound); }
      var t := target.value;
      if t.question.rowVersion != expected { return Some(VersionConflict); }
      if t.question.lifecycle != Active || t.hasOpen { return Some(InvalidStateTransition); }
      if !seen.tagsResolve { return Some(ValidationError); }
      if seen.duplicate { return Some(DuplicateContent); }
      var op := Operation(actor, VersionCreate, {actor} + OptionSet(t.question.creator.userId));
      failure := Begin(Tables(), op);
      if failure.Some? { return; }
      var m := Manifest(map[questionId := QuestionItem(t.question.rowVersion, t.question.lifecycle)], map[], map[],
                        content.tags);
      failure := ArmOperation(op, m);
      if failure.Some? { return; }
      if versionId in versions { return Some(KeyTaken); }
      ArmedQuestion(Tables(), op, m, questionId);
      var saved := Tables();
      WriteVersion(actor, questionId, versionId, t, content);
      failure := ContentCheck(Tables(), questionId, content);
      OwnVersionAside(saved, Tables(), questionId, versionId, content);
      if failure.Some? {
        Rollback(saved);
      }
    }

    method WriteVersion(actor: Id, questionId: Id, versionId: Id, t: QuestionTarget, content: Content)
      requires questionId in questions
      modifies this
      ensures Tables() == InsertVersion(old(Tables()), actor, questionId, versionId, t, content)
    {
      questions := questions[questionId := questions[questionId].(rowVersion := t.question.rowVersion + 1)];
      versions := versions[versionId := NewVersion(actor, questionId, t.maximum + 1, content)];
      audits := audits + [Audit(VersionCreate, Some(versionId), Some(AdminAccount(actor)), None, Some(1),
                                [VersionStatus] + CreateChangedFields()[1..])];
    }

    /** Rewrites the content of an editable version: the row, then each option, then the missing tags. */
    method UpdateVersion(actor: Id, id: Id, expected: nat, content: Content, target: Option<VersionTarget>,
                         options: map<Id, Choice>, tagsRead: set<Id>, seen: ContentSeen)
      returns (failure: Option<Failure>)
      modifies this
      ensures Observed(failure)
              == CommitUpdate(old(Tables()), actor, id, expected, content, target, options, tagsRead, seen)
      ensures failure.Some? ==> Tables() == old(Tables())
    {
      hide Arm, Begin, Complete, FingerprintOf, ValidateUpdate, ChangedFields, CrossQuestionDuplicate;
      if target.None? { return Some(ResourceNotFound); }
      var t := target.value;
      failure := ValidateUpdate(t, options, actor, expected, content);
      if failure.Some? { return; }
      if !seen.tagsResolve { return Some(ValidationError); }
      if seen.duplicate { return Some(DuplicateContent); }
      var q := t.version.questionId;
      var op := Operation(actor, VersionUpdate,
                          {actor} + OptionSet(t.question.creator.userId) + OptionSet(t.version.creator.userId));
      failure := Begin(Tables(), op);
      if failure.Some? { return; }
      var m := Manifest(map[q := QuestionItem(t.question.rowVersion, t.question.lifecycle)],
                        map[id := VersionItem(t.version.rowVersion, t.version.status)],
                        map[], content.tags);
      failure := ArmOperation(op, m);
      if failure.Some? { return; }
      if !EditableUnpinned(Tables(), id) { return Some(RuleViolation); }
      var saved := Tables();
      var complete := WriteContent(id, content, t.version.rowVersion + 1);
      if !complete {
        Rollback(saved);
        return Some(VersionConflict);
      }
      if !LiveAuthor(Tables(), id, actor) {
        Rollback(saved);
        return Some(NotAuthor);
      }
      audits := audits + [Audit(VersionUpdate, Some(id), Some(AdminAccount(actor)), Some(t.version.rowVersion),
                                Some(t.version.rowVersion + 1),
                                ChangedFields(t.version.content.(options := options, tags := tagsRead), content))];
      ArmedVersion(saved, op, m, id);
      ArmedHome(saved, op, m, id, q);
      OwnContentAside(saved, Tables(), id, versions[id].content);
      failure := ContentCheck(Tables(), q, versions[id].content);
      if failure.Some? {
        Rollback(saved);
      }
    }

    /** Replaces the content columns, the given options one by one, and the tags; false when an option is missing. */
    method WriteContent(id: Id, content: Content, rowVersion: nat) returns (complete: bool)
      requires id in versions
      modifies this
      ensures complete <==> content.options.Keys <= old(versions)[id].content.options.Keys
      ensures complete ==>
                Tables() == WithVersion(old(Tables()), id, old(versions)[id].(
                              content := content.(options := old(versions)[id].content.options + content.options),
                              rowVersion := rowVersion))
    {
      var row := versions[id];
      var keptTags := row.content.tags * content.tags;
      versions := versions[id := row.(content := content.(options := row.content.options, tags := keptTags),
                                      rowVersion := rowVersion)];
      var left := content.options.Keys;
      assert row.content.options + (content.options - left) == row.content.options;
      while left != {}
        invariant left <= content.options.Keys
        invariant content.options.Keys - left <= row.content.options.Keys
        invariant Tables() == WithVersion(old(Tables()), id, row.(
                                content := content.(options := row.content.options + (content.options - left),
                                                    tags := keptTags),
                                rowVersion := rowVersion))
      {
        var o :| o in left;
        var stored := versions[id].content.options;
        if o !in stored { return false; }
        OneMoreOption(row.content.options, content.options, left, o);
        var written := versions[id].content.(options := stored[o := content.options[o]]);
        versions := versions[id := versions[id].(content := written)];
        left := left - {o};
      }
      assert content.options - left == content.options;
      var missing := content.tags - row.content.tags;
      assert content.tags - missing == keptTags;
      while missing != {}
        invariant missing <= content.tags - row.content.tags
        invariant Tables() == WithVersion(old(Tables()), id, row.(
                                content := content.(options := row.content.options + content.options,
                                                    tags := content.tags - missing),
                                rowVersion := rowVersion))
      {
        var tag :| tag in missing;
        var current := versions[id].content;
        assert content.tags - (missing - {tag}) == current.tags + {tag};
        versions := versions[id := versions[id].(content := current.(tags := current.tags + {tag}))];
        missing := missing - {tag};
      }
      assert content.tags - missing == content.tags;
      complete := true;
    }

    /** Inserts every valid item, each with its own audit, and the audit of the import. */
    method ApplyImport(actor: Id, items: seq<ImportItem>, validSeen: bool) returns (failure: Option<Failure>)
      modifies this
      ensures Observed(failure) == CommitImport(old(Tables()), actor, items, validSeen)
      ensures failure.Some? ==> Tables() == old(Tables())
    {
      hide Arm, Begin, ImportValid, ImportTags;
      if !validSeen { return Some(ValidationError); }
      var op := Operation(actor, ImportApply, {actor});
      failure := Begin(Tables(), op);
      if failure.Some? { return; }
      if !ImportValid(Tables(), items) { return Some(ValidationError); }
      failure := ArmOperation(op, Manifest(map[], map[], map[], ImportTags(items)));
      if failure.Some? { return; }
      if !FreshKeys(Tables(), items) || !DistinctKeys(items) { return Some(KeyTaken); }
      WriteItems(actor, items);
      audits := audits + [Audit(ImportApply, None, Some(AdminAccount(actor)), None, None, [ImportItems])];
      failure := None;
    }

    method WriteItems(actor: Id, items: seq<ImportItem>)
      modifies this
      ensures Tables() == InsertItems(old(Tables()), actor, items)
    {
      hide InsertQuestion;
      for i := 0 to |items|
        invariant Tables() == InsertItems(old(Tables()), actor, items[..i])
      {
        assert items[..i + 1][..i] == items[..i];
        WriteQuestion(actor, items[i].questionId, items[i].versionId, items[i].content);
      }
      assert items[..|items|] == items;
    }

    /** Moves every planned item to review, or none. */
    method RequestReviews(actor: Id, items: seq<BatchItem>, targets: map<Id, BatchTarget>, now: Time)
      returns (failure: Option<Failure>)
      modifies this
      ensures Observed(failure) == CommitReviewBatch(old(Tables()), actor, items, targets, now)
      ensures failure.Some? ==> Tables() == old(Tables())
    {
      hide Arm, Begin, ArmedTargets, BatchUsers, BatchManifest, ItemFailure;
      var first := PlanBatch(items, targets, actor);
      var n := ArmedCount(items, first);
      var armedTargets := ArmedTargets(items, n, targets);
      var op := Operation(actor, ReviewRequestBatch, {actor} + BatchUsers(armedTargets));
      failure := Begin(Tables(), op);
      if failure.Some? { return; }
      if first.Some? && first.value.kind == PreArm && n == 0 { return Some(first.value.error); }
      if !DistinctIds(items[..n]) { return Some(BadManifest); }
      failure := ArmOperation(op, BatchManifest(armedTargets));
      if failure.Some? { return; }
      if first.Some? { return Some(first.value.error); }
      if !(forall i | 0 <= i < |items| :: RequestAuthor(Tables(), items[i].versionId, actor)) {
        return Some(NotAuthor);
      }
      PlannedTargets(items, targets, actor);
      WriteRequests(actor, items, targets, now);
      audits := audits + [Audit(ReviewRequestBatch, None, Some(AdminAccount(actor)), None, None, [VersionStatus])];
      failure := None;
    }

    /** Judges the items in request order and remembers the first failure. */
    method PlanBatch(items: seq<BatchItem>, targets: map<Id, BatchTarget>, actor: Id)
      returns (first: Option<BatchFailure>)
      ensures first == FirstFailure(items, targets, actor)
    {
      hide ItemFailure;
      first := None;
      for i := 0 to |items|
        invariant first == FirstFailure(items[..i], targets, actor)
      {
        assert items[..i + 1][..i] == items[..i];
        var f := ItemFailure(items[i], targets, actor);
        if first.None? && f.Some? {
          first := Some(BatchFailure(i, f.value.0, f.value.1));
        }
      }
      assert items[..|items|] == items;
    }

    method WriteRequests(actor: Id, items: seq<BatchItem>, targets: map<Id, BatchTarget>, now: Time)
      requires forall i | 0 <= i < |items| :: items[i].versionId in versions && items[i].versionId in targets
      modifies this
      ensures Tables() == BatchEffect(old(Tables()), actor, items, targets, now)
    {
      hide BatchEffect;
      ghost var before := Tables();
      BatchEffectStarts(before, actor, items, targets, now);
      for i := 0 to |items|
        invariant versions.Keys == before.versions.Keys
        invariant Tables() == BatchEffect(before, actor, items[..i], targets, now)
      {
        BatchEffectGrows(before, actor, items, targets, now, i);
        var id, was := items[i].versionId, targets[items[i].versionId].version;
        versions := versions[id := versions[id].(status := InReview, rowVersion := was.rowVersion + 1)];
        reviews := reviews
          + [Review(id, was.questionId, Requested, was.status, InReview, Some(AdminAccount(actor)), None, None,
                    items[i].comment, now)];
        audits := audits + [Audit(ReviewRequest, Some(id), Some(AdminAccount(actor)), Some(was.rowVersion),
                                  Some(was.rowVersion + 1), [VersionStatus])];
      }
      assert items[..|items|] == items;
    }

    /** Assigns an open report to the actor. */
    method TriageReport(actor: Id, id: Id, expected: nat, target: Option<ReportTarget>)
      returns (failure: Option<Failure>)
      modifies this
      ensures Observed(failure) == CommitTriage(old(Tables()), actor, id, expected, target)
      ensures failure.Some? ==> Tables() == old(Tables())
    {
      hide Arm, Begin;
      var op := Operation(actor, ReportTriage, {actor} + if target.None? then {} else TriageUsers(target.value));
      failure := Begin(Tables(), op);
      if failure.Some? { return; }
      if target.None? { return Some(ResourceNotFound); }
      var t := target.value;
      if t.report.rowVersion != expected { return Some(VersionConflict); }
      var m := ReportManifest(id, t, map[]);
      failure := ArmOperation(op, m);
      if failure.Some? { return; }
      if t.report.status != Open { return Some(InvalidStateTransition); }
      ArmedReport(Tables(), op, m, id);
      reports := reports[id := reports[id].(status := Triaged, assignee := Some(AdminAccount(actor)),
                                            rowVersion := t.report.rowVersion + 1)];
      audits := audits + [Audit(ReportTriage, Some(id), Some(AdminAccount(actor)), Some(t.report.rowVersion),
                                Some(t.report.rowVersion + 1), [Assignee, ReportStatusField])];
      failure := None;
    }

    /** Closes a triaged report, with or without a remediation. */
    method ResolveReport(actor: Id, id: Id, request: ResolveRequest, outer: set<Id>, target: Option<ReportTarget>,
                         row: Option<Version>, now: Time) returns (failure: Option<Failure>)
      modifies this
      ensures Observed(failure) == CommitResolve(old(Tables()), actor, id, request, outer, target, row, now)
      ensures failure.Some? ==> Tables() == old(Tables())
    {
      hide Arm, Begin;
      var op := Operation(actor, ReportResolution, {actor} + outer);
      failure := Begin(Tables(), op);
      if failure.Some? { return; }
      if target.None? { return Some(ResourceNotFound); }
      var t := target.value;
      if t.report.rowVersion != request.expected { return Some(VersionConflict); }
      var remediation := RemediationRow(t, request.remediation, row);
      var m := ReportManifest(id, t, remediation);
      failure := ArmOperation(op, m);
      if failure.Some? { return; }
      if t.report.status != Triaged { return Some(InvalidStateTransition); }
      if request.remediation.Some? && remediation == map[] { return Some(ResourceNotFound); }
      if request.remediation.Some? && row.Some? && !RemediationAccepted(t, request, row.value) {
        return Some(ResourceNotFound);
      }
      ArmedReport(Tables(), op, m, id);
      reports := reports[id := reports[id].(status := if request.resolved then Resolved else Dismissed,
                                            resolutionReason := Some(request.reason),
                                            remediation := request.remediation,
                                            resolvedAt := Some(now), rowVersion := t.report.rowVersion + 1)];
      audits := audits + [Audit(ReportResolution, Some(id), Some(AdminAccount(actor)), Some(t.report.rowVersion),
                                Some(t.report.rowVersion + 1), [Resolution, ReportStatusField])];
      failure := None;
    }

    /** Erases a user: abandons the locked open versions one by one, then tombstones every reference. */
    method EraseUser(user: Id, order: seq<Id>, now: Time) returns (done: bool)
      requires LockOrder(Tables(), order, user)
      modifies this
      ensures done <==> CommitErase(old(Tables()), user, order, now).Some?
      ensures done ==> CommitErase(old(Tables()), user, order, now) == Some(Tables())
      ensures !done ==> Tables() == old(Tables())
    {
      hide Entomb, Abandon;
      if user !in users { return false; }
      AbandonAll(user, order, now);
      Tombstones(user, now);
      if |order| > 0 {
        audits := audits + [Audit(ErasureAbandon, None, None, None, None, [AuthorTombstone])];
      }
      done := true;
    }

    method AbandonAll(user: Id, order: seq<Id>, now: Time)
      requires forall i | 0 <= i < |order| :: order[i] in versions
      requires forall i, j | 0 <= i < j < |order| :: order[i] != order[j]
      modifies this
      ensures Tables() == Abandon(old(Tables()), order, user, now)
    {
      hide AbandonRow, AbandonReview, AbandonAudit;
      for k := 0 to |order|
        invariant versions.Keys == old(versions).Keys
        invariant forall i | k <= i < |order| :: versions[order[i]] == old(versions)[order[i]]
        invariant Tables() == Abandon(old(Tables()), order[..k], user, now)
      {
        assert order[..k + 1][..k] == order[..k];
        var id := order[k];
        var row := versions[id];
        versions := versions[id := AbandonRow(row, now)];
        reviews := reviews + [AbandonReview(id, row, user, now)];
        audits := audits + [AbandonAudit(id, row)];
      }
      assert order[..|order|] == order;
    }

    /** The update statements over whole tables, then the deletion of the user row. */
    method Tombstones(user: Id, now: Time)
      modifies this
      ensures Tables() == Entomb(old(Tables()), user, now)
    {
      hide ErasedVersions, ErasedQuestions, EraseReviews, EraseAudits, ErasedReports;
      versions := ErasedVersions(versions, user, now);
      questions := ErasedQuestions(questions, versions, user, now);
      reviews := EraseReviews(reviews, user);
      audits := EraseAudits(audits, user);
      reports := ErasedReports(reports, user);
      users, erased := users - {user}, erased + {user};
    }
  }

  lemma PublishRowsHas(id: Id, t: VersionTarget, aggregate: map<Id, Version>)
    requires PublishRowsOk(id, t, aggregate)
    ensures id in aggregate
  {
  }

  /** The written version belongs to the question itself, so the content rules see what they saw before. */
  lemma OwnVersionAside(before: Db, after: Db, questionId: Id, versionId: Id, content: Content)
    requires versionId !in before.versions && versionId in after.versions
    requires after.versions == before.versions[versionId := after.versions[versionId]]
    requires after.versions[versionId].questionId == questionId
    ensures ContentCheck(after, questionId, content) == ContentCheck(before, questionId, content)
  {
    hide Complete, FingerprintOf;
    var f := FingerprintOf(content);
    if CrossQuestionDuplicate(before, questionId, f) {
      var v :| v in before.versions && FingerprintOf(before.versions[v].content) == f
               && before.versions[v].questionId != questionId;
      assert after.versions[v] == before.versions[v];
    }
    if CrossQuestionDuplicate(after, questionId, f) {
      var v :| v in after.versions && FingerprintOf(after.versions[v].content) == f
               && after.versions[v].questionId != questionId;
      assert after.versions[v] == before.versions[v];
    }
  }

  /** A version keeps its question while its content is rewritten, so the content rules see what they saw before. */
  lemma OwnContentAside(before: Db, after: Db, id: Id, content: Content)
    requires id in before.versions && after.versions.Keys == before.versions.Keys
    requires after.versions == before.versions[id := after.versions[id]]
    requires after.versions[id].questionId == before.versions[id].questionId
    ensures ContentCheck(after, before.versions[id].questionId, content)
            == ContentCheck(before, before.versions[id].questionId, content)
  {
    hide Complete, FingerprintOf;
    var q, f := before.versions[id].questionId, FingerprintOf(content);
    if CrossQuestionDuplicate(before, q, f) {
      var v :| v in before.versions && FingerprintOf(before.versions[v].content) == f
               && before.versions[v].questionId != q;
      assert after.versions[v] == before.versions[v];
    }
    if CrossQuestionDuplicate(after, q, f) {
      var v :| v in after.versions && FingerprintOf(after.versions[v].content) == f
               && after.versions[v].questionId != q;
      assert after.versions[v] == before.versions[v];
    }
  }

  lemma OneMoreOption(stored: map<Id, Choice>, given: map<Id, Choice>, left: set<Id>, o: Id)
    requires o in left && o in given && left <= given.Keys
    ensures (stored + (given - left))[o := given[o]] == stored + (given - (left - {o}))
  {
  }

  lemma ArmedHome(db: Db, op: Operation, m: Manifest, id: Id, q: Id)
    requires Arm(db, op, m).None? && id in m.versions && m.questions.Keys == {q}
    ensures id in db.versions && db.versions[id].questionId == q
  {
    hide Arm;
    ArmedVersion(db, op, m, id);
  }

  lemma PlannedTargets(items: seq<BatchItem>, targets: map<Id, BatchTarget>, actor: Id)
    requires FirstFailure(items, targets, actor).None?
    ensures forall i | 0 <= i < |items| :: items[i].versionId in targets
  {
    FailureFree(items, targets, actor);
    forall i | 0 <= i < |items| ensures items[i].versionId in targets {
      assert ItemFailure(items[i], targets, actor).None?;
    }
  }
}
