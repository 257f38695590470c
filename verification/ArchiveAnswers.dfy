/** What an archive answers on current rows, for a question with any mix of a current and an open version. */
module ArchiveAnswers {
  import opened Common
  import opened ContentTables
  import opened ContentArm
  import opened ContentCommands
  import opened ContentInvariant
  import opened ContentPreservation
  import opened AnswerGuards
  import opened LifecycleAnswers

  /** The request names the open version of the question with its row version, or says that there is none. */
  ghost predicate NamesOpenVersion(db: Db, q: Id, request: ArchiveRequest) {
    && (forall v | v in db.versions && db.versions[v].questionId == q && OpenStatus(db.versions[v].status) ::
          request.candidateId == Some(v) && request.candidateRow == Some(db.versions[v].rowVersion))
    && ((forall v | v in db.versions && db.versions[v].questionId == q :: !OpenStatus(db.versions[v].status)) ==>
          request.candidateId.None? && request.candidateRow.None?)
  }

  /** What an archive locks: the current version and the open one. */
  ghost predicate Archived(db: Db, q: Id, rows: map<Id, Version>) {
    && q in db.questions
    && rows.Keys == OptionSet(db.questions[q].current) + OpenCandidates(db, q) <= db.versions.Keys
    && (forall v | v in rows :: rows[v] == db.versions[v] && rows[v].questionId == q)
    && (forall v | v in rows && db.questions[q].current == Some(v) :: rows[v].status == Published)
    && |OpenCandidates(db, q)| <= 1 && |rows| <= 2
    && (db.questions[q].lifecycle == Lifecycle.Archived ==> rows == map[])
  }

  lemma LockedForArchive(db: Db, q: Id)
    requires Inv(db) && q in db.questions
    ensures Archived(db, q, LoadLifecycleVersions(db, q))
  {
    hide Inv, LoadLifecycleVersions, VersionsShaped, QuestionShape, NumberingOk, OneOpen, CurrentOk;
    LockedVersions(db, q);
    QuestionLive(db, q);
    CurrentIsClosed(db, q);
    if db.questions[q].lifecycle == Lifecycle.Archived {
      forall v | v in db.versions && db.versions[v].questionId == q ensures !OpenStatus(db.versions[v].status) {
        assert Of(db.versions, v, q);
      }
    }
  }

  lemma CandidateIsOpen(db: Db, q: Id, rows: map<Id, Version>)
    requires Archived(db, q, rows)
    ensures |OpenIds(rows)| <= 1 && OptionSet(CandidateOf(rows)) == OpenCandidates(db, q)
    ensures CandidateOf(rows).Some? ==>
              CandidateOf(rows).value in db.versions
              && rows[CandidateOf(rows).value] == db.versions[CandidateOf(rows).value]
  {
    assert OpenIds(rows) == OpenCandidates(db, q);
    if |OpenIds(rows)| == 1 {
      var v := OnlyElement(OpenIds(rows));
      assert v in OpenIds(rows);
    } else {
      assert OpenIds(rows) == {};
    }
  }

  lemma NamesCandidate(db: Db, q: Id, candidate: Option<Id>, request: ArchiveRequest)
    requires OptionSet(candidate) == OpenCandidates(db, q) && (candidate.Some? ==> candidate.value in db.versions)
    ensures NamesOpenVersion(db, q, request) <==>
              && request.candidateId == candidate
              && request.candidateRow == if candidate.Some? then Some(db.versions[candidate.value].rowVersion) else None
  {
    if candidate.Some? {
      assert candidate.value in OpenCandidates(db, q);
      forall v | v in db.versions && db.versions[v].questionId == q && OpenStatus(db.versions[v].status)
        ensures v == candidate.value
      {
        assert v in OpenCandidates(db, q);
      }
    } else {
      forall v | v in db.versions && db.versions[v].questionId == q ensures !OpenStatus(db.versions[v].status) {
        assert v !in OpenCandidates(db, q);
      }
    }
  }

  /** The candidate read is the open version, so the request is checked against the rows. */
  lemma CandidateIsNamed(db: Db, q: Id, rows: map<Id, Version>, request: ArchiveRequest)
    requires Archived(db, q, rows)
    ensures CandidateExpected(rows, request) <==> NamesOpenVersion(db, q, request)
    ensures OptionSet(CandidateOf(rows)) == OpenCandidates(db, q)
  {
    hide CandidateOf, NamesOpenVersion, OpenCandidates, OptionSet, Archived, OpenIds;
    CandidateIsOpen(db, q, rows);
    NamesCandidate(db, q, CandidateOf(rows), request);
  }

  lemma ArchiveNames(db: Db, actor: Id, q: Id)
    requires Inv(db) && q in db.questions
    ensures FewLive(db, actor, {actor} + OptionSet(db.questions[q].creator.userId)
                               + CreatorUsers(LoadLifecycleVersions(db, q)))
  {
    hide *;
    var rows := LoadLifecycleVersions(db, q);
    LockedVersions(db, q);
    CreatorsBounded(rows);
    CreatorsLive(db, rows);
    QuestionCreatorLive(db, q);
    FewCreators(db, actor, OptionSet(db.questions[q].creator.userId), CreatorUsers(rows), {});
  }

  lemma ArchiveManifestKeys(q: Id, t: QuestionTarget, rows: map<Id, Version>)
    requires |rows| <= 2
    ensures var m := ArchiveManifest(q, t, rows);
            && ShapeOk(QuestionArchive, m) && m.tags == {} && m.reports == map[]
            && m.questions.Keys == {q} && m.versions.Keys == rows.Keys
  {
    var m := ArchiveManifest(q, t, rows);
    assert m.questions.Keys == {q} && m.versions.Keys == rows.Keys;
    assert |m.questions| == |m.questions.Keys| && |m.versions| == |m.versions.Keys| && |rows| == |rows.Keys|;
  }

  lemma ArchiveManifestCurrent(db: Db, q: Id, t: QuestionTarget, rows: map<Id, Version>)
    requires Archived(db, q, rows) && t.question == db.questions[q]
    ensures Current(db, ArchiveManifest(q, t, rows))
  {
    hide OpenCandidates, OptionSet;
  }

  lemma ArchiveIsExact(db: Db, q: Id, rows: map<Id, Version>, m: Manifest)
    requires Archived(db, q, rows) && TargetsMatch(db, m)
    requires m.questions.Keys == {q} && m.versions.Keys == rows.Keys
    ensures q in db.questions && ArchiveExact(db, m)
  {
    LockedKeysExact(db, q, rows);
    hide TargetsMatch, OpenCandidates, Archived, OptionSet;
  }

  lemma ArchiveRules(db: Db, q: Id, rows: map<Id, Version>, m: Manifest)
    requires Archived(db, q, rows) && TargetsMatch(db, m)
    requires m.questions.Keys == {q} && m.versions.Keys == rows.Keys && m.reports == map[]
    ensures AggregateRulesOk(db, QuestionArchive, m) <==> db.questions[q].lifecycle == Active
  {
    ArchiveIsExact(db, q, rows, m);
    assert forall s: Status :: VersionStateOk(QuestionArchive, s);
    assert ActiveQuestionCommand(QuestionArchive);
    hide VersionStateOk, ActiveQuestionCommand;
    hide TargetsMatch, Archived, ArchiveExact, PublicationExact, RetirementExact, BatchExact, HasOpenCandidate;
    assert q in m.questions;
  }

  lemma LockedKeysExact(db: Db, q: Id, rows: map<Id, Version>)
    requires Archived(db, q, rows)
    ensures q in db.questions && OptionSet(db.questions[q].current) + OpenCandidates(db, q) == rows.Keys
  {
  }

  lemma ArchiveUsers(db: Db, op: Operation, q: Id, rows: map<Id, Version>, m: Manifest)
    requires Archived(db, q, rows) && TargetsMatch(db, m) && op.command == QuestionArchive
    requires m.questions.Keys == {q} && m.versions.Keys == rows.Keys && m.reports == map[]
    ensures DerivedUsers(db, op, m) == {op.actor} + OptionSet(db.questions[q].creator.userId) + CreatorUsers(rows)
  {
    hide DerivedUsers, TargetsMatch, LatestApprover, OptionSet, OpenCandidates, CreatorUsers, VersionCreators,
         Approvers, QuestionCreators;
    DerivedParts(db, op, m);
    OneQuestionCreator(db, q);
    ArchiveCreators(db, q, rows);
  }

  lemma ArchiveCreators(db: Db, q: Id, rows: map<Id, Version>)
    requires Archived(db, q, rows)
    ensures VersionCreators(db, rows.Keys) == CreatorUsers(rows)
    ensures Approvers(db, QuestionArchive, rows.Keys) == {}
  {
    hide OpenCandidates, OptionSet, LatestApprover;
  }

  lemma ArchiveIsSmall(db: Db, q: Id, rows: map<Id, Version>)
    requires Archived(db, q, rows)
    ensures q in db.questions && |rows| <= 2
  {
  }

  lemma ArchiveGuards(db: Db, actor: Id, q: Id, t: QuestionTarget, rows: map<Id, Version>)
    requires Archived(db, q, rows) && t.question == db.questions[q]
    ensures Arm(db, Operation(actor, QuestionArchive, {actor} + OptionSet(t.question.creator.userId)
                                                      + CreatorUsers(rows)), ArchiveManifest(q, t, rows))
         == if db.questions[q].lifecycle == Active then None else Some(RuleViolation)
  {
    hide Arm, Archived, LatestApprover, ArchiveManifest, ShapeOk, AggregateRulesOk, DerivedUsers, TargetsMatch, Current,
         CreatorUsers, OptionSet;
    var op := Operation(actor, QuestionArchive, {actor} + OptionSet(t.question.creator.userId) + CreatorUsers(rows));
    var m := ArchiveManifest(q, t, rows);
    ArchiveIsSmall(db, q, rows);
    ArchiveManifestKeys(q, t, rows);
    ArchiveManifestCurrent(db, q, t, rows);
    ArmAnswers(db, op, m);
    ArchiveRules(db, q, rows, m);
    ArchiveUsers(db, op, q, rows, m);
  }

  /** The row of an open version that is given up with its question. */
  function GivenUp(was: Version, now: Time): Version {
    was.(status := Retired, retirement := Some(QuestionArchiveAbandoned), retiredAt := Some(now),
         rowVersion := was.rowVersion + 1)
  }

  ghost predicate ClosedRows(db: Db, after: Db, q: Id, current: Option<Id>, open: Option<Id>, now: Time)
    requires q in db.questions
  {
    && SameKeys(db, after) && OnlyVersions(db, after, OptionSet(current) + OptionSet(open))
    && (current.Some? ==>
          && current.value in db.versions && current != open
          && VersionWritten(after, current.value, Superseded(db.versions[current.value], now)))
    && (open.Some? ==>
          && open.value in db.versions && VersionWritten(after, open.value, GivenUp(db.versions[open.value], now)))
    && QuestionWritten(db, after, q,
                       db.questions[q].(current := None, lifecycle := Lifecycle.Archived,
                                        rowVersion := db.questions[q].rowVersion + 1))
  }

  ghost predicate ClosedLogs(db: Db, after: Db, actor: Id, q: Id, current: Option<Id>, open: Option<Id>, now: Time)
    requires q in db.questions && (open.Some? ==> open.value in db.versions)
  {
    var row := db.questions[q];
    && after.reviews == db.reviews
       + (if current.None? then []
          else [Review(current.value, q, RetiredVersion, Published, Retired, Actor(actor), None, Some(ArchivedQuestion),
                       None, now)])
       + (if open.None? then []
          else [Review(open.value, q, ArchiveAbandoned, db.versions[open.value].status, Retired, Actor(actor),
                       AuthorSnapshot(db.versions[open.value].creator), Some(ArchivedQuestion), None, now)])
    && after.audits == db.audits
       + [Audit(QuestionArchive, Some(q), Actor(actor), Some(row.rowVersion), Some(row.rowVersion + 1),
                [LifecycleStatus] + (if current.Some? || open.Some? then [VersionStatus] else [])
                + (if current.Some? then [CurrentPublished] else []))]
  }

  /** The question is closed: its current version is superseded, its open version given up. */
  ghost predicate QuestionClosed(db: Db, after: Db, actor: Id, q: Id, open: Option<Id>, now: Time)
    requires q in db.questions
  {
    && OptionSet(open) == OpenCandidates(db, q)
    && ClosedRows(db, after, q, db.questions[q].current, open, now)
    && ClosedLogs(db, after, actor, q, db.questions[q].current, open, now)
  }

  lemma ArchiveLogs(db: Db, actor: Id, q: Id, current: Option<Id>, open: Option<Id>, rows: map<Id, Version>, now: Time)
    requires q in db.questions
    requires rows.Keys == OptionSet(current) + OptionSet(open) <= db.versions.Keys
    requires forall v | v in rows :: rows[v] == db.versions[v]
    ensures ClosedLogs(db, ArchiveEffect(db, actor, q, db.questions[q].rowVersion, current, open, rows, now), actor, q,
                       current, open, now)
  {
    hide AuthorSnapshot;
    assert db.reviews + [] == db.reviews;
  }

  lemma ArchiveRows(db: Db, actor: Id, q: Id, current: Option<Id>, open: Option<Id>, rows: map<Id, Version>, now: Time)
    requires q in db.questions
    requires rows.Keys == OptionSet(current) + OptionSet(open) <= db.versions.Keys
    requires forall v | v in rows :: rows[v] == db.versions[v]
    requires current.Some? ==> current != open
    ensures ClosedRows(db, ArchiveEffect(db, actor, q, db.questions[q].rowVersion, current, open, rows, now), q,
                       current, open, now)
  {
    hide AuthorSnapshot;
  }

  lemma ArchiveWrites(db: Db, actor: Id, q: Id, current: Option<Id>, open: Option<Id>, rows: map<Id, Version>,
                      now: Time)
    requires q in db.questions && current == db.questions[q].current && OptionSet(open) == OpenCandidates(db, q)
    requires rows.Keys == OptionSet(current) + OptionSet(open) <= db.versions.Keys
    requires forall v | v in rows :: rows[v] == db.versions[v]
    requires current.Some? ==> current != open
    ensures QuestionClosed(db, ArchiveEffect(db, actor, q, db.questions[q].rowVersion, current, open, rows, now),
                           actor, q, open, now)
  {
    hide OptionSet, OpenCandidates, ArchiveEffect, ClosedLogs, ClosedRows;
    ArchiveLogs(db, actor, q, current, open, rows, now);
    ArchiveRows(db, actor, q, current, open, rows, now);
  }

  /** With both guards passed, an archive of the rows it locked writes. */
  lemma ArchiveSteps(db: Db, actor: Id, q: Id, request: ArchiveRequest, t: QuestionTarget, rows: map<Id, Version>,
                     now: Time)
    requires Archived(db, q, rows) && t.question == db.questions[q] && t.question.rowVersion == request.expected
    requires t.question.lifecycle == Active && CandidateExpected(rows, request)
    requires var op := Operation(actor, QuestionArchive, {actor} + OptionSet(t.question.creator.userId)
                                                         + CreatorUsers(rows));
             Begin(db, op).None? && Arm(db, op, ArchiveManifest(q, t, rows)).None?
    requires CandidateOf(rows).Some? ==> AuthorSnapshot(rows[CandidateOf(rows).value].creator).Some?
    ensures db.questions[q].current.Some? ==> db.questions[q].current.value in rows
    ensures CommitArchive(db, actor, q, request, Some(t), rows, now)
         == Ok(ArchiveEffect(db, actor, q, request.expected, t.question.current, CandidateOf(rows), rows, now))
  {
    hide Arm, Begin, ArchiveManifest, ArchiveEffect, AuthorSnapshot, CandidateExpected, CandidateOf, CreatorUsers,
         OpenCandidates;
  }

  lemma ArchiveCommits(db: Db, actor: Id, q: Id, request: ArchiveRequest, t: QuestionTarget, now: Time)
    requires Inv(db) && HasAuthority(db, actor) && q in db.questions && t.question == db.questions[q]
    requires t.question.rowVersion == request.expected && t.question.lifecycle == Active
    requires NamesOpenVersion(db, q, request)
    ensures var r := CommitArchive(db, actor, q, request, Some(t), LoadLifecycleVersions(db, q), now);
            r.Ok? && QuestionClosed(db, r.value, actor, q, request.candidateId, now)
  {
    hide Inv, Arm, Begin, LoadLifecycleVersions, ArchiveManifest, ArchiveEffect, FewLive, NamesOpenVersion,
         QuestionClosed, CandidateOf, CommitArchive, CreatorUsers, OpenCandidates, OptionSet, HasAuthority, Archived;
    var rows := LoadLifecycleVersions(db, q);
    LockedForArchive(db, q);
    LockedVersions(db, q);
    CandidateIsNamed(db, q, rows, request);
    var open := CandidateOf(rows);
    if open.Some? {
      OpenAuthor(db, open.value);
    }
    ArchiveNames(db, actor, q);
    BeginAnswers(db, Operation(actor, QuestionArchive, {actor} + OptionSet(t.question.creator.userId)
                                                       + CreatorUsers(rows)));
    ArchiveGuards(db, actor, q, t, rows);
    ArchiveSteps(db, actor, q, request, t, rows, now);
    CurrentIsNotOpen(db, q, open);
    ArchiveWrites(db, actor, q, t.question.current, open, rows, now);
  }

  lemma CurrentIsNotOpen(db: Db, q: Id, open: Option<Id>)
    requires q in db.questions && OptionSet(db.questions[q].current) !! OpenCandidates(db, q)
    requires OptionSet(open) == OpenCandidates(db, q)
    ensures db.questions[q].current.Some? ==> db.questions[q].current != open
  {
  }

  /**
    * Every answer of an archive on current rows: it commits exactly when an active
    * administrator names the row version of an active question and its open
    * version as it is, if it has one. It closes whatever is current or open.
    */
  lemma ArchiveAnswer(db: Db, actor: Id, q: Id, request: ArchiveRequest, target: Option<QuestionTarget>, now: Time)
    requires Inv(db) && IsQuestionTarget(db, q, target)
    ensures var r := CommitArchive(db, actor, q, request, target, LoadLifecycleVersions(db, q), now);
            if !(actor in db.users && db.users[actor] == User(Admin, ActiveAccount)) then r == Err(AuthorityLost)
            else if q !in db.questions then r == Err(ResourceNotFound)
            else if db.questions[q].rowVersion != request.expected || !NamesOpenVersion(db, q, request) then
              r == Err(VersionConflict)
            else if db.questions[q].lifecycle != Active then r == Err(RuleViolation)
            else r.Ok? && QuestionClosed(db, r.value, actor, q, request.candidateId, now)
  {
    hide Inv, Arm, Begin, ArchiveManifest, ArchiveEffect, FewLive, NamesOpenVersion, QuestionClosed, CandidateOf,
         CandidateExpected, OpenCandidates, OptionSet, Archived;
    if q !in db.questions {
      NobodyBegins(db, actor, QuestionArchive);
      assert {actor} + {} + CreatorUsers(map[]) == {actor};
    } else {
      hide LoadLifecycleVersions, CreatorUsers;
      var t, rows := target.value, LoadLifecycleVersions(db, q);
      LockedForArchive(db, q);
      CandidateIsNamed(db, q, rows, request);
      ArchiveNames(db, actor, q);
      BeginAnswers(db, Operation(actor, QuestionArchive, {actor} + OptionSet(t.question.creator.userId)
                                                         + CreatorUsers(rows)));
      ArchiveGuards(db, actor, q, t, rows);
      if HasAuthority(db, actor) && t.question.rowVersion == request.expected && NamesOpenVersion(db, q, request)
         && t.question.lifecycle == Active {
        ArchiveCommits(db, actor, q, request, t, now);
      }
    }
  }
}
