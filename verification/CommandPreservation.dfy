/**
  * Every admin command that commits keeps the invariant. Here each command reads
  * its rows from the database it commits to; ContentConcurrency reduces
  * commands with older reads to this case.
  */
module CommandPreservation {
  import opened Common
  import opened ContentTables
  import opened ContentArm
  import opened ContentCommands
  import opened ReviewBatch
  import opened ContentInvariant
  import opened ContentPreservation

  // ----- what the guards established

  lemma ArmedQuestion(db: Db, op: Operation, m: Manifest, q: Id)
    requires Arm(db, op, m).None? && q in m.questions
    ensures q in db.questions
    ensures db.questions[q].rowVersion == m.questions[q].rowVersion && db.questions[q].lifecycle == m.questions[q].state
    ensures ActiveQuestionCommand(op.command) ==> db.questions[q].lifecycle == Active
    ensures op.command == VersionCreate ==> !HasOpenCandidate(db, q)
  {
    assert QuestionMatches(db, q, m.questions[q]);
  }

  lemma ArmedVersion(db: Db, op: Operation, m: Manifest, v: Id)
    requires Arm(db, op, m).None? && v in m.versions
    ensures v in db.versions
    ensures db.versions[v].rowVersion == m.versions[v].rowVersion && db.versions[v].status == m.versions[v].state
    ensures VersionStateOk(op.command, db.versions[v].status)
    ensures db.versions[v].questionId in m.questions
  {
    assert VersionMatches(db, m, v, m.versions[v]);
  }

  lemma ArmedReport(db: Db, op: Operation, m: Manifest, r: Id)
    requires Arm(db, op, m).None? && r in m.reports
    ensures r in db.reports
    ensures db.reports[r].rowVersion == m.reports[r].rowVersion && db.reports[r].status == m.reports[r].state
    ensures db.reports[r].questionId in m.questions && db.reports[r].versionId in m.versions
  {
    assert ReportMatches(db, m, r, m.reports[r]);
  }

  lemma ArmedTags(db: Db, op: Operation, m: Manifest)
    requires Arm(db, op, m).None?
    ensures m.tags <= db.tags
  {
  }

  lemma ArmedPublication(db: Db, op: Operation, m: Manifest, q: Id)
    requires Arm(db, op, m).None? && q in m.questions && op.command == Publication
    ensures q in db.questions
    ensures if db.questions[q].current.None? then |m.versions| == 1 else db.questions[q].current.value in m.versions
    ensures db.questions[q].current.Some? ==>
              db.questions[q].current.value in db.versions
              && db.versions[db.questions[q].current.value].status == Published
  {
    hide DerivedUsers;
    assert PublicationExact(db, m) && QuestionMatches(db, q, m.questions[q]);
  }

  lemma ArmedArchive(db: Db, op: Operation, m: Manifest, q: Id)
    requires Arm(db, op, m).None? && q in m.questions && op.command == QuestionArchive
    ensures q in db.questions
    ensures OptionSet(db.questions[q].current) + OpenCandidates(db, q) == m.versions.Keys
  {
    hide DerivedUsers;
    assert ArchiveExact(db, m) && QuestionMatches(db, q, m.questions[q]);
  }

  lemma OnlyKey(keys: set<Id>, a: Id, b: Id)
    requires |keys| == 1 && a in keys && b in keys
    ensures a == b
  {
    assert |keys - {a}| == 0;
  }

  // ----- create question, create version

  lemma CreateQuestionKeeps(db: Db, actor: Id, questionId: Id, versionId: Id, content: Content, seen: ContentSeen)
    requires Inv(db)
    ensures var r := CommitCreateQuestion(db, actor, questionId, versionId, content, seen);
            r.Ok? ==> Inv(r.value)
  {
    hide Arm, ContentCheck;
    if CommitCreateQuestion(db, actor, questionId, versionId, content, seen).Ok? {
      CheckedIsAdmissible(db, NewVersion(actor, questionId, 1, content));
      InsertQuestionKeeps(db, actor, questionId, versionId, content);
    }
  }

  /** Everything a committed version creation rests on, and exactly what it writes. */
  lemma CreateVersionFacts(db: Db, actor: Id, questionId: Id, versionId: Id, expected: nat, content: Content,
                           target: Option<QuestionTarget>, seen: ContentSeen)
    requires CommitCreateVersion(db, actor, questionId, versionId, expected, content, target, seen).Ok?
    ensures target.Some? && HasAuthority(db, actor)
    ensures questionId in db.questions && versionId !in db.versions
    ensures db.questions[questionId].lifecycle == Active && !HasOpenCandidate(db, questionId)
    ensures target.value.question.rowVersion == db.questions[questionId].rowVersion == expected
    ensures ContentCheck(db, questionId, content).None?
    ensures content.tags <= db.tags
    ensures CommitCreateVersion(db, actor, questionId, versionId, expected, content, target, seen).value ==
            WithAudit(
              WithVersion(WithQuestion(db, questionId, db.questions[questionId].(rowVersion := expected + 1)),
                          versionId, NewVersion(actor, questionId, target.value.maximum + 1, content)),
              Audit(VersionCreate, Some(versionId), Some(AdminAccount(actor)), None, Some(1),
                    [VersionStatus] + CreateChangedFields()[1..]))
  {
    hide Arm, ContentCheck, HasOpenCandidate;
    var t := target.value;
    var op := Operation(actor, VersionCreate, {actor} + OptionSet(t.question.creator.userId));
    var m := Manifest(map[questionId := QuestionItem(t.question.rowVersion, t.question.lifecycle)], map[], map[],
                      content.tags);
    ArmedQuestion(db, op, m, questionId);
    ArmedTags(db, op, m);
  }

  lemma CreateVersionKeeps(db: Db, actor: Id, questionId: Id, versionId: Id, expected: nat, content: Content,
                           target: Option<QuestionTarget>, seen: ContentSeen)
    requires Inv(db) && IsQuestionTarget(db, questionId, target)
    ensures var r := CommitCreateVersion(db, actor, questionId, versionId, expected, content, target, seen);
            r.Ok? ==> Inv(r.value)
  {
    hide CommitCreateVersion, ContentCheck;
    var r := CommitCreateVersion(db, actor, questionId, versionId, expected, content, target, seen);
    if r.Ok? {
      CreateVersionFacts(db, actor, questionId, versionId, expected, content, target, seen);
      var maximum := target.value.maximum;
      CheckedIsAdmissible(db, NewVersion(actor, questionId, maximum + 1, content));
      InsertVersionKeeps(db, actor, questionId, versionId, content, maximum, expected);
    }
  }

  // ----- update

  /** Everything a committed update rests on, and exactly what it writes. */
  lemma UpdateFacts(db: Db, actor: Id, id: Id, expected: nat, content: Content,
                    target: Option<VersionTarget>, options: map<Id, Choice>, tagsRead: set<Id>, seen: ContentSeen)
    requires CommitUpdate(db, actor, id, expected, content, target, options, tagsRead, seen).Ok?
    ensures target.Some? && HasAuthority(db, actor)
    ensures id in db.versions && Editable(db.versions[id].status) && id !in db.pinned
    ensures db.versions[id].creator == AdminCreator(actor)
    ensures db.versions[id].rowVersion == target.value.version.rowVersion == expected
    ensures db.versions[id].status == target.value.version.status
    ensures db.versions[id].questionId == target.value.version.questionId && db.versions[id].questionId in db.questions
    ensures var row := db.versions[id];
            var written := content.(options := row.content.options + content.options);
            && content.options.Keys <= row.content.options.Keys
            && ContentCheck(db, row.questionId, written).None?
            && CommitUpdate(db, actor, id, expected, content, target, options, tagsRead, seen).value ==
               WithAudit(WithVersion(db, id, row.(content := written, rowVersion := expected + 1)),
                         Audit(VersionUpdate, Some(id), Some(AdminAccount(actor)), Some(expected), Some(expected + 1),
                               ChangedFields(target.value.version.content.(options := options, tags := tagsRead),
                                             content)))
  {
    hide Arm, ContentCheck, ChangedFields;
    var t := target.value;
    var q := t.version.questionId;
    var op := Operation(actor, VersionUpdate,
                        {actor} + OptionSet(t.question.creator.userId) + OptionSet(t.version.creator.userId));
    var m := Manifest(map[q := QuestionItem(t.question.rowVersion, t.question.lifecycle)],
                      map[id := VersionItem(t.version.rowVersion, t.version.status)],
                      map[], content.tags);
    ArmedQuestion(db, op, m, q);
    ArmedVersion(db, op, m, id);
  }

  lemma UpdateCommitKeeps(db: Db, actor: Id, id: Id, expected: nat, content: Content,
                          target: Option<VersionTarget>, options: map<Id, Choice>, tagsRead: set<Id>, seen: ContentSeen)
    requires Inv(db)
    ensures var r := CommitUpdate(db, actor, id, expected, content, target, options, tagsRead, seen);
            r.Ok? ==> Inv(r.value)
  {
    hide CommitUpdate, ContentCheck, ChangedFields;
    if CommitUpdate(db, actor, id, expected, content, target, options, tagsRead, seen).Ok? {
      UpdateFacts(db, actor, id, expected, content, target, options, tagsRead, seen);
      var row := db.versions[id];
      assert VersionShape(row);
      var written := content.(options := row.content.options + content.options);
      CheckedIsAdmissible(db, row.(content := written, rowVersion := expected + 1));
      UpdateKeeps(db, id, written, expected + 1);
    }
  }

  // ----- review transitions

  lemma TransitionFacts(db: Db, operation: LifecycleOperation, actor: Id, id: Id, request: TransitionRequest,
                        target: Option<VersionTarget>, now: Time)
    requires CommitTransition(db, operation, actor, id, request, target, now).Ok?
    ensures target.Some? && HasAuthority(db, actor)
    ensures TransitionReferenced(operation, actor, target) <= db.users.Keys
    ensures id in db.versions && target.value.version.questionId == db.versions[id].questionId
            && db.versions[id].questionId in db.questions
    ensures db.versions[id].rowVersion == target.value.version.rowVersion == request.expected
    ensures db.versions[id].status == target.value.version.status
            && db.versions[id].status in Config(operation).fromStates
    ensures db.questions[db.versions[id].questionId].rowVersion == target.value.question.rowVersion
    ensures StateAndDuties(Config(operation), actor, target.value).None?
    ensures CommitTransition(db, operation, actor, id, request, target, now).value ==
            TransitionEffect(db, Config(operation), actor, id, target.value.version, request, now)
  {
    hide Arm;
    var config := Config(operation);
    var op := Operation(actor, config.command, TransitionReferenced(operation, actor, target));
    var m := SingleVersionManifest(id, target.value);
    ArmedQuestion(db, op, m, target.value.version.questionId);
    ArmedVersion(db, op, m, id);
  }

  lemma TransitionCommitKeeps(db: Db, operation: LifecycleOperation, actor: Id, id: Id, request: TransitionRequest,
                              now: Time)
    requires Inv(db)
    ensures var r := CommitTransition(db, operation, actor, id, request, LoadVersionTarget(db, id), now);
            r.Ok? ==> Inv(r.value)
  {
    hide CommitTransition;
    if CommitTransition(db, operation, actor, id, request, LoadVersionTarget(db, id), now).Ok? {
      TransitionFacts(db, operation, actor, id, request, LoadVersionTarget(db, id), now);
      TransitionKeeps(db, operation, actor, id, request, now);
    }
  }

  // ----- publish, retire, archive

  lemma PublishFacts(db: Db, actor: Id, id: Id, expectedQuestion: nat, expected: nat,
                     target: Option<VersionTarget>, aggregate: map<Id, Version>, now: Time)
    requires CommitPublish(db, actor, id, expectedQuestion, expected, target, aggregate, now).Ok?
    ensures target.Some? && target.value.approver.Some? && HasAuthority(db, actor)
    ensures PublishReferenced(actor, target, aggregate) <= db.users.Keys
    ensures target.value.version.rowVersion == expected && target.value.question.rowVersion == expectedQuestion
    ensures id in aggregate && id in db.versions && db.versions[id].questionId == target.value.version.questionId
    ensures aggregate[id].rowVersion == db.versions[id].rowVersion && db.versions[id].status == Approved
    ensures target.value.version.questionId in db.questions
    ensures db.questions[target.value.version.questionId].rowVersion == expectedQuestion
    ensures var previous := PreviousCurrent(target.value, aggregate);
            && (target.value.question.current.Some? ==> previous.Some?)
            && (previous.Some? ==> previous.value in db.versions && previous.value in aggregate
                                   && db.versions[previous.value].status == Published
                                   && db.versions[previous.value].rowVersion == aggregate[previous.value].rowVersion)
            && (forall v | v in aggregate :: v == id || previous == Some(v))
            && (forall v | v in aggregate :: v in db.versions && db.versions[v].rowVersion == aggregate[v].rowVersion
                                             && db.versions[v].status == aggregate[v].status)
            && CommitPublish(db, actor, id, expectedQuestion, expected, target, aggregate, now).value ==
               PublishEffect(db, actor, id, target.value.version.questionId, previous,
                             if previous.Some? then aggregate[previous.value].rowVersion else 0,
                             expected, expectedQuestion, target.value.approver.value, now)
  {
    hide Arm, CrossQuestionDuplicate, FingerprintOf, PublishEffect, CreatorUsers, OptionSet, AuthorSnapshot;
    var t := target.value;
    var op := Operation(actor, Publication, PublishReferenced(actor, target, aggregate));
    var m := PublishManifest(t, aggregate);
    ArmedQuestion(db, op, m, t.version.questionId);
    ArmedVersion(db, op, m, id);
    var previous := PreviousCurrent(t, aggregate);
    if previous.Some? {
      ArmedVersion(db, op, m, previous.value);
    }
  }

  /** The replaced version is exactly the current one: arming compares the whole aggregate. */
  lemma PublishReplacesCurrent(db: Db, actor: Id, id: Id, expectedQuestion: nat, expected: nat,
                               target: Option<VersionTarget>, aggregate: map<Id, Version>, now: Time)
    requires CommitPublish(db, actor, id, expectedQuestion, expected, target, aggregate, now).Ok?
    ensures target.Some? && target.value.version.questionId in db.questions
    ensures PreviousCurrent(target.value, aggregate) == db.questions[target.value.version.questionId].current
  {
    hide CommitPublish, Arm;
    PublishFacts(db, actor, id, expectedQuestion, expected, target, aggregate, now);
    var m := PublishManifest(target.value, aggregate);
    var q := target.value.version.questionId;
    PublishArmed(db, actor, id, expectedQuestion, expected, target, aggregate, now);
    ArmedPublication(db, Operation(actor, Publication, PublishReferenced(actor, target, aggregate)), m, q);
    var previous := PreviousCurrent(target.value, aggregate);
    if db.questions[q].current.None? && previous.Some? {
      OnlyKey(m.versions.Keys, id, previous.value);
    }
  }

  lemma PublishArmed(db: Db, actor: Id, id: Id, expectedQuestion: nat, expected: nat,
                     target: Option<VersionTarget>, aggregate: map<Id, Version>, now: Time)
    requires CommitPublish(db, actor, id, expectedQuestion, expected, target, aggregate, now).Ok?
    ensures target.Some?
    ensures Arm(db, Operation(actor, Publication, PublishReferenced(actor, target, aggregate)),
                PublishManifest(target.value, aggregate)).None?
  {
    hide Arm, CrossQuestionDuplicate, FingerprintOf, PublishReferenced;
  }

  /** A committed publication keeps the invariant, whenever its rows were read. */
  lemma PublishCommitKeeps(db: Db, actor: Id, id: Id, expectedQuestion: nat, expected: nat,
                           target: Option<VersionTarget>, aggregate: map<Id, Version>, now: Time)
    requires Inv(db)
    requires target.Some? ==> OptionalLive(db.users.Keys, db.erased, target.value.approver)
    ensures var r := CommitPublish(db, actor, id, expectedQuestion, expected, target, aggregate, now);
            r.Ok? ==> Inv(r.value)
  {
    hide CommitPublish;
    if CommitPublish(db, actor, id, expectedQuestion, expected, target, aggregate, now).Ok? {
      PublishFacts(db, actor, id, expectedQuestion, expected, target, aggregate, now);
      PublishReplacesCurrent(db, actor, id, expectedQuestion, expected, target, aggregate, now);
      var previous := PreviousCurrent(target.value, aggregate);
      PublishKeeps(db, actor, id, previous, if previous.Some? then aggregate[previous.value].rowVersion else 0,
                   expected, expectedQuestion, target.value.approver.value, now);
    }
  }

  lemma RetireFacts(db: Db, actor: Id, id: Id, expectedQuestion: nat, expected: nat, target: Option<VersionTarget>,
                    now: Time)
    requires CommitRetire(db, actor, id, expectedQuestion, expected, target, now).Ok?
    ensures target.Some? && HasAuthority(db, actor)
    ensures id in db.versions && db.versions[id].questionId == target.value.version.questionId
    ensures db.versions[id].questionId in db.questions
    ensures db.versions[id].status == Published == target.value.version.status
    ensures db.versions[id].rowVersion == expected == target.value.version.rowVersion
    ensures db.questions[db.versions[id].questionId].rowVersion == expectedQuestion == target.value.question.rowVersion
    ensures CommitRetire(db, actor, id, expectedQuestion, expected, target, now).value ==
            RetireEffect(db, actor, id, db.versions[id].questionId, expected, expectedQuestion, now)
  {
    hide Arm;
    var op := Operation(actor, Retirement, {actor} + (OptionSet(target.value.question.creator.userId)
                                                      + OptionSet(target.value.version.creator.userId)));
    var m := SingleVersionManifest(id, target.value);
    ArmedQuestion(db, op, m, target.value.version.questionId);
    ArmedVersion(db, op, m, id);
  }

  lemma RetireCommitKeeps(db: Db, actor: Id, id: Id, expectedQuestion: nat, expected: nat,
                          target: Option<VersionTarget>, now: Time)
    requires Inv(db)
    ensures var r := CommitRetire(db, actor, id, expectedQuestion, expected, target, now);
            r.Ok? ==> Inv(r.value)
  {
    hide CommitRetire;
    if CommitRetire(db, actor, id, expectedQuestion, expected, target, now).Ok? {
      RetireFacts(db, actor, id, expectedQuestion, expected, target, now);
      RetireKeeps(db, actor, id, expected, expectedQuestion, now);
    }
  }

  function ArchiveOperation(actor: Id, target: QuestionTarget, aggregate: map<Id, Version>): Operation {
    Operation(actor, QuestionArchive, {actor} + OptionSet(target.question.creator.userId) + CreatorUsers(aggregate))
  }

  lemma ArchiveArmed(db: Db, actor: Id, questionId: Id, request: ArchiveRequest,
                     target: Option<QuestionTarget>, aggregate: map<Id, Version>, now: Time)
    requires CommitArchive(db, actor, questionId, request, target, aggregate, now).Ok?
    ensures target.Some? && target.value.question.rowVersion == request.expected && HasAuthority(db, actor)
    ensures target.value.question.lifecycle == Active
    ensures CandidateExpected(aggregate, request)
    ensures Arm(db, ArchiveOperation(actor, target.value, aggregate),
                ArchiveManifest(questionId, target.value, aggregate)).None?
  {
    hide CandidateExpected, CandidateOf, Arm, CreatorUsers, ArchiveManifest, ArchiveEffect, ArchiveCurrent;
  }

  lemma ArchiveFacts(db: Db, actor: Id, questionId: Id, request: ArchiveRequest,
                     target: Option<QuestionTarget>, aggregate: map<Id, Version>, now: Time)
    requires CommitArchive(db, actor, questionId, request, target, aggregate, now).Ok?
    ensures target.Some? && HasAuthority(db, actor)
    ensures questionId in db.questions
    ensures db.questions[questionId].rowVersion == request.expected == target.value.question.rowVersion
    ensures db.questions[questionId].lifecycle == Active == target.value.question.lifecycle
    ensures OptionSet(db.questions[questionId].current) + OpenCandidates(db, questionId) == aggregate.Keys
    ensures CandidateExpected(aggregate, request)
    ensures forall v | v in aggregate ::
              && v in db.versions && db.versions[v].questionId == questionId
              && db.versions[v].rowVersion == aggregate[v].rowVersion && db.versions[v].status == aggregate[v].status
  {
    hide CommitArchive, CandidateExpected, Arm;
    ArchiveArmed(db, actor, questionId, request, target, aggregate, now);
    var m := ArchiveManifest(questionId, target.value, aggregate);
    var op := ArchiveOperation(actor, target.value, aggregate);
    ArmedQuestion(db, op, m, questionId);
    ArmedArchive(db, op, m, questionId);
    assert m.versions.Keys == aggregate.Keys;
    forall v | v in aggregate
      ensures v in db.versions && db.versions[v].questionId == questionId
      ensures db.versions[v].rowVersion == aggregate[v].rowVersion && db.versions[v].status == aggregate[v].status
    {
      ArmedVersion(db, op, m, v);
    }
  }

  lemma ArchiveWrites(db: Db, actor: Id, questionId: Id, request: ArchiveRequest,
                      target: Option<QuestionTarget>, aggregate: map<Id, Version>, now: Time)
    requires CommitArchive(db, actor, questionId, request, target, aggregate, now).Ok?
    requires target.Some? && questionId in db.questions
    requires forall v | v in aggregate :: v in db.versions
    ensures var current, candidate := ArchiveCurrent(target.value, aggregate), CandidateOf(aggregate);
            && (target.value.question.current.Some? ==> current.Some? && aggregate[current.value].status == Published)
            && (candidate.Some? ==> AuthorSnapshot(aggregate[candidate.value].creator).Some?)
            && CommitArchive(db, actor, questionId, request, target, aggregate, now).value ==
               ArchiveEffect(db, actor, questionId, request.expected, current, candidate, aggregate, now)
  {
    hide CandidateExpected, CandidateOf, Arm, CreatorUsers, ArchiveManifest, ArchiveEffect;
  }

  /** With at most one open version read, the candidate is every open version read. */
  lemma CandidateIsTheOpenOne(aggregate: map<Id, Version>, request: ArchiveRequest)
    requires CandidateExpected(aggregate, request)
    ensures forall v | v in aggregate && OpenStatus(aggregate[v].status) :: CandidateOf(aggregate) == Some(v)
  {
    var open := OpenIds(aggregate);
    forall v | v in aggregate && OpenStatus(aggregate[v].status) ensures CandidateOf(aggregate) == Some(v) {
      assert v in open;
      assert |open| == 1;
    }
  }

  lemma ArchiveRowsFit(db: Db, questionId: Id, request: ArchiveRequest, current: Option<Id>,
                       aggregate: map<Id, Version>)
    requires questionId in db.questions && QuestionOk(db.versions, questionId, db.questions[questionId])
    requires aggregate == LoadLifecycleVersions(db, questionId)
    requires CandidateExpected(aggregate, request)
    requires current == db.questions[questionId].current
    requires CandidateOf(aggregate).Some? ==> AuthorSnapshot(aggregate[CandidateOf(aggregate).value].creator).Some?
    ensures Archivable(db, questionId, current, CandidateOf(aggregate), aggregate)
  {
    hide CandidateExpected, CandidateOf, AuthorSnapshot;
    CandidateIsTheOpenOne(aggregate, request);
    forall v: Id | OpenOf(db.versions, v, questionId) ensures CandidateOf(aggregate) == Some(v) {
      assert v in aggregate;
    }
  }

  lemma ArchiveCommitKeeps(db: Db, actor: Id, questionId: Id, request: ArchiveRequest, target: Option<QuestionTarget>,
                           now: Time)
    requires Inv(db) && IsQuestionTarget(db, questionId, target)
    ensures var r := CommitArchive(db, actor, questionId, request, target, LoadLifecycleVersions(db, questionId), now);
            r.Ok? ==> Inv(r.value)
  {
    hide CommitArchive, CandidateExpected, CandidateOf, OpenCandidates, HasOpenCandidate, AuthorSnapshot, Archivable,
         ArchiveEffect;
    var aggregate := LoadLifecycleVersions(db, questionId);
    if CommitArchive(db, actor, questionId, request, target, aggregate, now).Ok? {
      ArchiveFacts(db, actor, questionId, request, target, aggregate, now);
      ArchiveWrites(db, actor, questionId, request, target, aggregate, now);
      var current := ArchiveCurrent(target.value, aggregate);
      assert QuestionOk(db.versions, questionId, db.questions[questionId]);
      ArchiveRowsFit(db, questionId, request, current, aggregate);
      ArchiveKeeps(db, actor, questionId, request.expected, current, CandidateOf(aggregate), aggregate, now);
    }
  }

  // ----- reports

  lemma TriageFacts(db: Db, actor: Id, id: Id, expected: nat, target: Option<ReportTarget>)
    requires CommitTriage(db, actor, id, expected, target).Ok?
    ensures HasAuthority(db, actor) && id in db.reports
    ensures db.reports[id].status == Open && db.reports[id].rowVersion == expected
    ensures CommitTriage(db, actor, id, expected, target).value ==
            WithAudit(
              WithReport(db, id, db.reports[id].(status := Triaged, assignee := Some(AdminAccount(actor)),
                                                 rowVersion := expected + 1)),
              Audit(ReportTriage, Some(id), Some(AdminAccount(actor)), Some(expected), Some(expected + 1),
                    [Assignee, ReportStatusField]))
  {
    hide Arm;
    ArmedReport(db, Operation(actor, ReportTriage, {actor} + TriageUsers(target.value)),
                ReportManifest(id, target.value, map[]), id);
  }

  lemma TriageCommitKeeps(db: Db, actor: Id, id: Id, expected: nat, target: Option<ReportTarget>)
    requires Inv(db)
    ensures var r := CommitTriage(db, actor, id, expected, target);
            r.Ok? ==> Inv(r.value)
  {
    hide CommitTriage;
    if CommitTriage(db, actor, id, expected, target).Ok? {
      TriageFacts(db, actor, id, expected, target);
      var row := db.reports[id];
      assert ReportOk(db.versions, row) && ReportLive(db.users.Keys, db.erased, row);
      ReportKeeps(db, id, row.(status := Triaged, assignee := Some(AdminAccount(actor)), rowVersion := expected + 1));
    }
  }

  lemma ResolveFacts(db: Db, actor: Id, id: Id, request: ResolveRequest, outer: set<Id>,
                     target: Option<ReportTarget>, row: Option<Version>, now: Time)
    requires CommitResolve(db, actor, id, request, outer, target, row, now).Ok?
    ensures target.Some? && HasAuthority(db, actor) && id in db.reports
    ensures db.reports[id].rowVersion == request.expected == target.value.report.rowVersion
    ensures db.reports[id].status == Triaged
    ensures request.remediation.Some? ==>
              && row.Some? && row.value.questionId == target.value.report.questionId
              && RemediationAccepted(target.value, request, row.value)
    ensures CommitResolve(db, actor, id, request, outer, target, row, now).value ==
            WithAudit(
              WithReport(db, id, db.reports[id].(status := if request.resolved then Resolved else Dismissed,
                                                 resolutionReason := Some(request.reason),
                                                 remediation := request.remediation, resolvedAt := Some(now),
                                                 rowVersion := request.expected + 1)),
              Audit(ReportResolution, Some(id), Some(AdminAccount(actor)), Some(request.expected),
                    Some(request.expected + 1), [Resolution, ReportStatusField]))
  {
    hide Arm;
    ArmedReport(db, Operation(actor, ReportResolution, {actor} + outer),
                ReportManifest(id, target.value, RemediationRow(target.value, request.remediation, row)), id);
  }

  lemma ResolveCommitKeeps(db: Db, actor: Id, id: Id, request: ResolveRequest, outer: set<Id>, now: Time)
    requires Inv(db)
    ensures var row := if request.remediation.Some? && request.remediation.value in db.versions
                       then Some(db.versions[request.remediation.value]) else None;
            var r := CommitResolve(db, actor, id, request, outer, LoadReportTarget(db, id), row, now);
            r.Ok? ==> Inv(r.value)
  {
    hide CommitResolve;
    var row := if request.remediation.Some? && request.remediation.value in db.versions
               then Some(db.versions[request.remediation.value]) else None;
    if CommitResolve(db, actor, id, request, outer, LoadReportTarget(db, id), row, now).Ok? {
      ResolveFacts(db, actor, id, request, outer, LoadReportTarget(db, id), row, now);
      var report := db.reports[id];
      assert ReportOk(db.versions, report) && ReportLive(db.users.Keys, db.erased, report);
      ReportKeeps(db, id, report.(status := if request.resolved then Resolved else Dismissed,
                                  resolutionReason := Some(request.reason), remediation := request.remediation,
                                  resolvedAt := Some(now), rowVersion := request.expected + 1));
    }
  }

  // ----- import

  /** The rows after an import: the old ones, and one version for each item. */
  ghost predicate Imported(db: Db, after: Db, items: seq<ImportItem>) {
    && after.users == db.users
    && (forall q | q in after.questions ::
          q in db.questions || exists i :: 0 <= i < |items| && items[i].questionId == q)
    && (forall v | v in after.versions ::
          (v in db.versions && after.versions[v] == db.versions[v])
          || exists i :: 0 <= i < |items| && items[i].versionId == v && after.versions[v].content == items[i].content)
  }

  lemma NewItemAdmissible(db: Db, before: Db, actor: Id, items: seq<ImportItem>, k: nat)
    requires k < |items| && ImportValid(db, items) && Imported(db, before, items[..k])
    ensures Admissible(before.versions, NewVersion(actor, items[k].questionId, 1, items[k].content))
  {
    hide FingerprintOf;
    var row := NewVersion(actor, items[k].questionId, 1, items[k].content);
    forall v | v in before.versions ensures Apart(row, before.versions[v]) {
      if !(v in db.versions && before.versions[v] == db.versions[v]) {
        var i :| 0 <= i < k && items[..k][i].versionId == v && before.versions[v].content == items[..k][i].content;
        assert FingerprintOf(items[i].content) != FingerprintOf(items[k].content);
      }
    }
  }

  lemma ImportedNext(db: Db, before: Db, actor: Id, items: seq<ImportItem>, k: nat)
    requires k < |items| && Imported(db, before, items[..k])
    ensures Imported(db, InsertQuestion(before, actor, items[k].questionId, items[k].versionId, items[k].content),
                     items[..k + 1])
  {
    var next := items[..k + 1];
    assert next[k] == items[k];
    forall i | 0 <= i < k ensures next[i] == items[..k][i] {
    }
  }

  /** Importing any prefix of valid items keeps the invariant. */
  lemma {:induction false} InsertItemsKeeps(db: Db, actor: Id, items: seq<ImportItem>, k: nat)
    requires Inv(db) && HasAuthority(db, actor) && k <= |items|
    requires ImportValid(db, items) && FreshKeys(db, items) && DistinctKeys(items)
    ensures Inv(InsertItems(db, actor, items[..k])) && Imported(db, InsertItems(db, actor, items[..k]), items[..k])
    decreases k
  {
    hide Inv, ImportValid, InsertQuestion, HasAuthority;
    if k == 0 {
      assert items[..0] == [];
    } else {
      InsertItemsKeeps(db, actor, items, k - 1);
      var before := InsertItems(db, actor, items[..k - 1]);
      assert items[..k][..k - 1] == items[..k - 1];
      NewItemAdmissible(db, before, actor, items, k - 1);
      NewKeysFresh(db, before, items, k - 1);
      AuthorityFrame(db, before, actor);
      InsertQuestionKeeps(before, actor, items[k - 1].questionId, items[k - 1].versionId, items[k - 1].content);
      ImportedNext(db, before, actor, items, k - 1);
    }
  }

  lemma AuthorityFrame(db: Db, after: Db, actor: Id)
    requires HasAuthority(db, actor) && after.users == db.users
    ensures HasAuthority(after, actor)
  {
  }

  lemma NewKeysFresh(db: Db, before: Db, items: seq<ImportItem>, k: nat)
    requires k < |items| && FreshKeys(db, items) && DistinctKeys(items) && Imported(db, before, items[..k])
    ensures items[k].questionId !in before.questions && items[k].versionId !in before.versions
  {
    forall i | 0 <= i < k
      ensures items[..k][i].questionId != items[k].questionId && items[..k][i].versionId != items[k].versionId
    {
    }
  }

  lemma ImportCommitKeeps(db: Db, actor: Id, items: seq<ImportItem>, validSeen: bool)
    requires Inv(db)
    ensures var r := CommitImport(db, actor, items, validSeen);
            r.Ok? ==> Inv(r.value)
  {
    hide Inv, Arm, ImportValid, InsertItems;
    if CommitImport(db, actor, items, validSeen).Ok? {
      InsertItemsKeeps(db, actor, items, |items|);
      assert items[..|items|] == items;
      InvAudit(InsertItems(db, actor, items),
               Audit(ImportApply, None, Some(AdminAccount(actor)), None, None, [ImportItems]));
    }
  }

  // ----- batch review requests

  /** Every item names a version of the actor that may be requested, as it was read. */
  ghost predicate BatchReady(db: Db, actor: Id, items: seq<BatchItem>, targets: map<Id, BatchTarget>) {
    && DistinctIds(items)
    && forall i | 0 <= i < |items| ::
         && items[i].versionId in db.versions && items[i].versionId in targets
         && targets[items[i].versionId].version == db.versions[items[i].versionId]
         && Editable(db.versions[items[i].versionId].status)
         && db.versions[items[i].versionId].creator.userId == Some(actor)
  }

  lemma {:induction false} BatchEffectKeeps(db: Db, actor: Id, items: seq<BatchItem>, targets: map<Id, BatchTarget>,
                                            now: Time, k: nat)
    requires Inv(db) && actor in db.users && k <= |items| && BatchReady(db, actor, items, targets)
    ensures var after := BatchEffect(db, actor, items[..k], targets, now);
            && Inv(after)
            && after.users == db.users
            && (forall i | k <= i < |items| :: after.versions[items[i].versionId] == db.versions[items[i].versionId])
    decreases k
  {
    hide Inv;
    if k > 0 {
      BatchEffectKeeps(db, actor, items, targets, now, k - 1);
      assert items[..k][..k - 1] == items[..k - 1];
      var before := BatchEffect(db, actor, items[..k - 1], targets, now);
      var item := items[k - 1];
      LiveAuthorSnapshot(before, item.versionId);
      TransitionKeeps(before, RequestContentReview, actor, item.versionId,
                      TransitionRequest(item.expected, None, item.comment), now);
    }
  }

  lemma LiveAuthorSnapshot(db: Db, id: Id)
    requires Inv(db) && id in db.versions && db.versions[id].creator.userId.Some?
    ensures AuthorSnapshot(db.versions[id].creator).Some?
  {
    assert VersionShape(db.versions[id]);
  }
}
