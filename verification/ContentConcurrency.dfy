/**
  * Commands that planned on rows read in earlier states. Whatever was committed
  * in between, a commit equals the whole command run on the rows of its own
  * database, except for a publication whose two reads saw different versions.
  */
module ContentConcurrency {
  import opened Common
  import opened ContentTables
  import opened ContentArm
  import opened ContentCommands
  import opened ContentInvariant
  import opened ContentOrder
  import opened CommandPreservation

  // ----- rows that kept their row version

  lemma SameVersionRow(s: Db, db: Db, id: Id, row: Version)
    requires Follows(s, db) && id in s.versions && id in db.versions && row == s.versions[id]
    requires db.versions[id].rowVersion == row.rowVersion && db.versions[id].status == row.status
    ensures db.versions[id] == row
    ensures SameOrErased(LatestApprover(s.reviews, id), LatestApprover(db.reviews, id), db.erased)
  {
    assert VersionFollows(s.versions[id], db.versions[id]);
    assert ApproverKept(LogOf(s), LogOf(db), id);
  }

  lemma SameQuestionRow(s: Db, db: Db, q: Id)
    requires Follows(s, db) && q in s.questions && q in db.questions
    requires db.questions[q].rowVersion == s.questions[q].rowVersion
    ensures db.questions[q] == s.questions[q]
    ensures forall v :: Of(db.versions, v, q) <==> Of(s.versions, v, q)
    ensures forall v :: OpenOf(db.versions, v, q) <==> OpenOf(s.versions, v, q)
  {
    assert QuestionFollows(CatalogOf(s), CatalogOf(db), q);
  }

  lemma PlaceKept(s: Db, db: Db, id: Id)
    requires Follows(s, db) && id in s.versions
    ensures id in db.versions && db.versions[id].questionId == s.versions[id].questionId
    ensures db.versions[id].number == s.versions[id].number
  {
    assert VersionFollows(s.versions[id], db.versions[id]);
  }

  /** An approver whose user is still live is exactly the approver recorded now. */
  lemma LiveApproverKept(s: Db, db: Db, id: Id)
    requires Inv(db) && SameOrErased(LatestApprover(s.reviews, id), LatestApprover(db.reviews, id), db.erased)
    requires LatestApprover(s.reviews, id).Some? && LatestApprover(s.reviews, id).value.userId.Some? ==>
               LatestApprover(s.reviews, id).value.userId.value in db.users
    ensures LatestApprover(s.reviews, id) == LatestApprover(db.reviews, id)
  {
  }

  // ----- review transitions

  /** A transition looks at the version and the question of its target, and at the users it names. */
  lemma TransitionLooksAt(db: Db, operation: LifecycleOperation, actor: Id, id: Id, request: TransitionRequest,
                          a: VersionTarget, b: VersionTarget, now: Time)
    requires a.version == b.version && a.question == b.question
    requires TransitionReferenced(operation, actor, Some(a)) == TransitionReferenced(operation, actor, Some(b))
    ensures CommitTransition(db, operation, actor, id, request, Some(a), now)
         == CommitTransition(db, operation, actor, id, request, Some(b), now)
  {
    hide Arm, TransitionReferenced, TransitionEffect;
    assert SingleVersionManifest(id, a) == SingleVersionManifest(id, b);
  }

  lemma StaleTransition(s: Db, db: Db, operation: LifecycleOperation, actor: Id, id: Id, request: TransitionRequest,
                        now: Time)
    requires Inv(db) && Follows(s, db)
    requires CommitTransition(db, operation, actor, id, request, LoadVersionTarget(s, id), now).Ok?
    ensures CommitTransition(db, operation, actor, id, request, LoadVersionTarget(db, id), now)
         == CommitTransition(db, operation, actor, id, request, LoadVersionTarget(s, id), now)
  {
    hide CommitTransition, Follows, Inv;
    TransitionFacts(db, operation, actor, id, request, LoadVersionTarget(s, id), now);
    var t := LoadVersionTarget(s, id).value;
    SameVersionRow(s, db, id, t.version);
    SameQuestionRow(s, db, t.version.questionId);
    var latest := LoadVersionTarget(db, id).value;
    if operation == WithdrawQuestionApproval {
      LiveApproverKept(s, db, id);
    }
    TransitionLooksAt(db, operation, actor, id, request, t, latest, now);
  }

  // ----- create question, create version, import

  lemma StaleCreateQuestion(db: Db, actor: Id, questionId: Id, versionId: Id, content: Content, seen: ContentSeen)
    requires CommitCreateQuestion(db, actor, questionId, versionId, content, seen).Ok?
    ensures CommitCreateQuestion(db, actor, questionId, versionId, content, SeeContent(db, questionId, content))
         == CommitCreateQuestion(db, actor, questionId, versionId, content, seen)
  {
    hide Arm, FingerprintOf, CrossQuestionDuplicate, Complete;
    ArmedTags(db, Operation(actor, QuestionCreate, {actor}), Manifest(map[], map[], map[], content.tags));
  }

  /** The question read is still the question: row, highest number and open candidate included. */
  lemma StaleQuestionTarget(s: Db, db: Db, q: Id, target: Option<QuestionTarget>)
    requires Follows(s, db) && IsQuestionTarget(s, q, target) && target.Some? && q in db.questions
    requires db.questions[q].rowVersion == target.value.question.rowVersion
    ensures IsQuestionTarget(db, q, target)
  {
    SameQuestionRow(s, db, q);
    forall v | Of(s.versions, v, q) ensures db.versions[v].number == s.versions[v].number {
      PlaceKept(s, db, v);
    }
    var m := target.value.maximum;
    forall v | v in db.versions && db.versions[v].questionId == q ensures db.versions[v].number <= m {
      assert Of(db.versions, v, q);
    }
    if m != 0 {
      var v :| v in s.versions && s.versions[v].questionId == q && s.versions[v].number == m;
      assert Of(s.versions, v, q);
    }
    OpenFlag(s, q);
    OpenFlag(db, q);
  }

  lemma OpenFlag(db: Db, q: Id)
    ensures HasOpenCandidate(db, q) <==> exists v: Id :: OpenOf(db.versions, v, q)
  {
    if HasOpenCandidate(db, q) {
      var v :| v in db.versions && db.versions[v].questionId == q && OpenStatus(db.versions[v].status);
      assert OpenOf(db.versions, v, q);
    }
  }

  lemma StaleCreateVersion(s: Db, db: Db, actor: Id, questionId: Id, versionId: Id, expected: nat, content: Content,
                           target: Option<QuestionTarget>, seen: ContentSeen)
    requires Follows(s, db) && IsQuestionTarget(s, questionId, target)
    requires CommitCreateVersion(db, actor, questionId, versionId, expected, content, target, seen).Ok?
    ensures IsQuestionTarget(db, questionId, target)
    ensures CommitCreateVersion(db, actor, questionId, versionId, expected, content, target,
                                SeeContent(db, questionId, content))
         == CommitCreateVersion(db, actor, questionId, versionId, expected, content, target, seen)
  {
    hide Follows;
    CreateVersionFacts(db, actor, questionId, versionId, expected, content, target, seen);
    StaleQuestionTarget(s, db, questionId, target);
    CheckedIsSeen(db, questionId, content, seen);
    SeenByCreateVersion(db, actor, questionId, versionId, expected, content, target, seen);
  }

  lemma SeenByCreateVersion(db: Db, actor: Id, questionId: Id, versionId: Id, expected: nat, content: Content,
                            target: Option<QuestionTarget>, seen: ContentSeen)
    requires CommitCreateVersion(db, actor, questionId, versionId, expected, content, target, seen).Ok?
    ensures seen == ContentSeen(true, false)
  {
    hide Arm, ContentCheck;
  }

  lemma CheckedIsSeen(db: Db, questionId: Id, content: Content, seen: ContentSeen)
    requires ContentCheck(db, questionId, content).None? && content.tags <= db.tags
    ensures SeeContent(db, questionId, content) == ContentSeen(true, false)
  {
    hide FingerprintOf, CrossQuestionDuplicate, Complete;
  }

  lemma StaleImport(db: Db, actor: Id, items: seq<ImportItem>, validSeen: bool)
    requires CommitImport(db, actor, items, validSeen).Ok?
    ensures CommitImport(db, actor, items, ImportValid(db, items)) == CommitImport(db, actor, items, validSeen)
  {
    hide Arm, ImportValid, InsertItems;
  }

  // ----- update

  /** The content an update compares with is read after the version row, in states of its own. */
  lemma StaleUpdate(s: Db, o: Db, g: Db, db: Db, actor: Id, id: Id, expected: nat, content: Content, seen: ContentSeen)
    requires Follows(s, o) && Follows(o, db) && Follows(s, g) && Follows(g, db)
    requires id in o.versions && id in g.versions
    requires var options, tags := o.versions[id].content.options, g.versions[id].content.tags;
             CommitUpdate(db, actor, id, expected, content, LoadVersionTarget(s, id), options, tags, seen).Ok?
    ensures id in db.versions
    ensures CommitUpdate(db, actor, id, expected, content, LoadVersionTarget(db, id), db.versions[id].content.options,
                         db.versions[id].content.tags, SeeContent(db, db.versions[id].questionId, content))
         == CommitUpdate(db, actor, id, expected, content, LoadVersionTarget(s, id), o.versions[id].content.options,
                         g.versions[id].content.tags, seen)
  {
    hide CommitUpdate, Follows, ContentCheck, ChangedFields;
    var t := LoadVersionTarget(s, id);
    var options, tags := o.versions[id].content.options, g.versions[id].content.tags;
    UpdateFacts(db, actor, id, expected, content, t, options, tags, seen);
    UpdateChecked(db, actor, id, expected, content, t, options, tags, seen);
    FollowsTwo(s, o, db);
    SameVersionRow(s, db, id, t.value.version);
    SameQuestionRow(s, db, t.value.version.questionId);
    SameBetween(s, o, db, id);
    SameBetween(s, g, db, id);
    SameKeys(options, content.options);
    CheckedIsSeen(db, t.value.version.questionId, content, seen);
    UpdateIgnoresApprover(db, actor, id, expected, content, t.value, LoadVersionTarget(db, id).value, options, tags,
                          seen);
  }

  /** Options given for every stored key replace the stored options. */
  lemma SameKeys(options: map<Id, Choice>, given: map<Id, Choice>)
    requires options.Keys == given.Keys
    ensures options + given == given
  {
  }

  /** A row equal at both ends was the same in between. */
  lemma SameBetween(s: Db, m: Db, db: Db, id: Id)
    requires Follows(s, m) && Follows(m, db) && id in s.versions && id in m.versions && id in db.versions
    requires s.versions[id] == db.versions[id]
    ensures m.versions[id] == db.versions[id]
  {
    assert VersionFollows(s.versions[id], m.versions[id]) && VersionFollows(m.versions[id], db.versions[id]);
  }

  lemma UpdateChecked(db: Db, actor: Id, id: Id, expected: nat, content: Content,
                      target: Option<VersionTarget>, options: map<Id, Choice>, tagsRead: set<Id>, seen: ContentSeen)
    requires CommitUpdate(db, actor, id, expected, content, target, options, tagsRead, seen).Ok?
    ensures target.Some? && !target.value.isPinned && seen == ContentSeen(true, false)
    ensures target.value.question.rowVersion == (if target.value.version.questionId in db.questions
                                                 then db.questions[target.value.version.questionId].rowVersion else 0)
    ensures content.tags <= db.tags && options.Keys <= content.options.Keys
  {
    hide Arm, ContentCheck, ChangedFields;
    var t := target.value;
    var q := t.version.questionId;
    var op := Operation(actor, VersionUpdate,
                        {actor} + OptionSet(t.question.creator.userId) + OptionSet(t.version.creator.userId));
    var m := Manifest(map[q := QuestionItem(t.question.rowVersion, t.question.lifecycle)],
                      map[id := VersionItem(t.version.rowVersion, t.version.status)],
                      map[], content.tags);
    ArmedQuestion(db, op, m, q);
    ArmedTags(db, op, m);
  }

  lemma UpdateIgnoresApprover(db: Db, actor: Id, id: Id, expected: nat, content: Content, a: VersionTarget,
                              b: VersionTarget, options: map<Id, Choice>, tagsRead: set<Id>, seen: ContentSeen)
    requires a.version == b.version && a.question == b.question && a.isPinned == b.isPinned
    ensures CommitUpdate(db, actor, id, expected, content, Some(a), options, tagsRead, seen)
         == CommitUpdate(db, actor, id, expected, content, Some(b), options, tagsRead, seen)
  {
    hide Arm, ContentCheck, ChangedFields, EditableUnpinned, LiveAuthor, Begin;
    assert ValidateUpdate(a, options, actor, expected, content) == ValidateUpdate(b, options, actor, expected, content);
    hide ValidateUpdate;
  }
}
