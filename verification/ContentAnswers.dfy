/** What the commands that write content answer on current rows. */
module ContentAnswers {
  import opened Common
  import opened ContentTables
  import opened ContentArm
  import opened ContentCommands
  import opened ContentInvariant
  import opened ContentPreservation
  import opened ContentEvents
  import opened ContentGuarantees
  import opened ContentMeaning
  import opened AnswerGuards
  import opened LifecycleAnswers

  /** A draft of the actor, written just now. */
  function Drafted(actor: Id, q: Id, number: nat, content: Content): Version {
    Version(q, number, Draft, content, 1, Creator(Some(actor), Some(actor), ActiveAdmin), None, None, None)
  }

  const CREATED_FIELDS: seq<Field> :=
    [Level, Subject, QuestionType, Difficulty, Passage, QuestionText, ExplanationKo, ExplanationJa, Options,
     CorrectOption, Tags]

  // ----- a new question

  ghost predicate QuestionCreated(db: Db, after: Db, actor: Id, q: Id, v: Id, content: Content) {
    && after == db.(questions := after.questions, versions := after.versions, audits := after.audits)
    && after.questions.Keys == db.questions.Keys + {q} && after.versions.Keys == db.versions.Keys + {v}
    && OnlyQuestion(db, after, q) && OnlyVersions(db, after, {v})
    && after.questions[q] == Question(Active, None, Creator(Some(actor), Some(actor), ActiveAdmin), 1)
    && after.versions[v] == Drafted(actor, q, 1, content)
    && after.audits == db.audits
       + [Audit(QuestionCreate, Some(q), Actor(actor), None, Some(1), [LifecycleStatus] + CREATED_FIELDS)]
  }

  lemma TagsArm(db: Db, op: Operation, tags: set<Id>, command: Command)
    requires op.command == command && (command == QuestionCreate || command == ImportApply)
    requires op.referenced == {op.actor}
    ensures Arm(db, op, Manifest(map[], map[], map[], tags))
         == if !(1 <= |tags| <= if command == QuestionCreate then 12 else 1200) then Some(BadManifest)
            else if !(tags <= db.tags) then Some(TagChanged)
            else None
  {
    hide AggregateRulesOk, DerivedUsers, TargetsMatch;
    var m := Manifest(map[], map[], map[], tags);
    if ShapeOk(op.command, m) {
      ArmAnswers(db, op, m);
      DerivedParts(db, op, m);
      NoRules(db, op.command, m);
      assert QuestionCreators(db, {}) == {} && VersionCreators(db, {}) == {} && Approvers(db, op.command, {}) == {};
    }
  }

  lemma NoRules(db: Db, command: Command, m: Manifest)
    requires m.questions == map[] && m.versions == map[] && m.reports == map[] && TargetsMatch(db, m)
    requires command == QuestionCreate || command == ImportApply
    ensures AggregateRulesOk(db, command, m)
  {
  }

  lemma CheckIsMeant(db: Db, q: Id, content: Content)
    ensures ContentCheck(db, q, content)
         == if !Whole(content) then Some(RuleViolation)
            else if HeldElsewhere(db, q, content) then Some(DuplicateContent)
            else None
    ensures SeeContent(db, q, content) == ContentSeen(content.tags <= db.tags, HeldElsewhere(db, q, content))
  {
    hide Whole, HeldElsewhere, Complete, CrossQuestionDuplicate, FingerprintOf;
    CompleteIsWhole(content);
    DuplicateIsHeld(db, q, content);
  }

  lemma CreateWrites(db: Db, actor: Id, q: Id, v: Id, content: Content)
    ensures QuestionCreated(db, InsertQuestion(db, actor, q, v, content), actor, q, v, content)
  {
    assert CreateChangedFields() == [LifecycleStatus] + CREATED_FIELDS;
  }

  /**
    * Every answer of a creation: it commits exactly when an active administrator
    * gives whole content with known tags that no other question holds.
    */
  lemma CreateQuestionAnswer(db: Db, actor: Id, q: Id, v: Id, content: Content)
    ensures var r := CommitCreateQuestion(db, actor, q, v, content, SeeContent(db, q, content));
            if !(content.tags <= db.tags) then r == Err(ValidationError)
            else if HeldElsewhere(db, q, content) then r == Err(DuplicateContent)
            else if !(actor in db.users && db.users[actor] == User(Admin, ActiveAccount)) then r == Err(AuthorityLost)
            else if !(1 <= |content.tags| <= 12) then r == Err(BadManifest)
            else if q in db.questions || v in db.versions then r == Err(KeyTaken)
            else if !Whole(content) then r == Err(RuleViolation)
            else r.Ok? && QuestionCreated(db, r.value, actor, q, v, content)
  {
    hide Begin, Arm, ContentCheck, Whole, HeldElsewhere, InsertQuestion, QuestionCreated, SeeContent;
    CheckIsMeant(db, q, content);
    NobodyBegins(db, actor, QuestionCreate);
    TagsArm(db, Operation(actor, QuestionCreate, {actor}), content.tags, QuestionCreate);
    CreateWrites(db, actor, q, v, content);
  }

  // ----- a new version

  ghost predicate VersionCreated(db: Db, after: Db, actor: Id, q: Id, v: Id, content: Content)
    requires q in db.questions
  {
    && after == db.(questions := after.questions, versions := after.versions, audits := after.audits)
    && after.questions.Keys == db.questions.Keys && after.versions.Keys == db.versions.Keys + {v}
    && QuestionWritten(db, after, q, db.questions[q].(rowVersion := db.questions[q].rowVersion + 1))
    && OnlyVersions(db, after, {v})
    && after.versions[v] == Drafted(actor, q, |VersionsOf(db.versions, q)| + 1, content)
    && after.audits == db.audits
       + [Audit(VersionCreate, Some(v), Actor(actor), None, Some(1), [VersionStatus] + CREATED_FIELDS)]
  }

  /** The greatest number is the number of versions. */
  lemma MaximumIsCount(db: Db, q: Id, maximum: nat)
    requires Inv(db) && q in db.questions && IsMaximumNumber(db, q, maximum)
    ensures maximum == |VersionsOf(db.versions, q)|
  {
    QuestionLive(db, q);
    hide Inv, VersionShape, QuestionShape;
    NumbersAreOneToCount(db.versions, q);
    var n := |VersionsOf(db.versions, q)|;
    var first :| Of(db.versions, first, q) && db.versions[first].number == 1;
    assert first in VersionsOf(db.versions, q);
    assert Numbered(db.versions, q, n);
    var last :| Of(db.versions, last, q) && db.versions[last].number == n;
    var top :| top in db.versions && db.versions[top].questionId == q && db.versions[top].number == maximum;
    assert Of(db.versions, top, q);
  }

  lemma CreateVersionArms(db: Db, op: Operation, q: Id, tags: set<Id>)
    requires q in db.questions && op.command == VersionCreate
    requires op.referenced == {op.actor} + OptionSet(db.questions[q].creator.userId)
    requires tags <= db.tags && db.questions[q].lifecycle == Active && !HasOpenCandidate(db, q)
    ensures Arm(db, op, Manifest(map[q := QuestionItem(db.questions[q].rowVersion, db.questions[q].lifecycle)], map[],
                                 map[], tags))
         == if 1 <= |tags| <= 12 then None else Some(BadManifest)
  {
    hide LatestApprover, HasOpenCandidate, DerivedUsers, Current, TargetsMatch;
    var m := Manifest(map[q := QuestionItem(db.questions[q].rowVersion, db.questions[q].lifecycle)], map[],
                      map[], tags);
    assert m.questions.Keys == {q} && m.versions.Keys == {} && |m.questions| == |m.questions.Keys|;
    if 1 <= |tags| <= 12 {
      QuestionIsCurrent(db, q, m);
      ArmAnswers(db, op, m);
      QuestionUsers(db, op, q, m);
    }
  }

  lemma QuestionIsCurrent(db: Db, q: Id, m: Manifest)
    requires q in db.questions && m.versions == map[] && m.reports == map[]
    requires m.questions == map[q := QuestionItem(db.questions[q].rowVersion, db.questions[q].lifecycle)]
    ensures Current(db, m)
  {
  }

  lemma QuestionUsers(db: Db, op: Operation, q: Id, m: Manifest)
    requires q in db.questions && m.questions.Keys == {q} && m.versions == map[] && m.reports == map[]
    requires TargetsMatch(db, m)
    ensures DerivedUsers(db, op, m) == {op.actor} + OptionSet(db.questions[q].creator.userId)
  {
    hide DerivedUsers, TargetsMatch, QuestionCreators, LatestApprover;
    DerivedParts(db, op, m);
    OneQuestionCreator(db, q);
  }

  lemma CreateVersionWrites(db: Db, actor: Id, q: Id, v: Id, t: QuestionTarget, content: Content)
    requires Inv(db) && q in db.questions && t.question == db.questions[q] && IsMaximumNumber(db, q, t.maximum)
    ensures VersionCreated(db, InsertVersion(db, actor, q, v, t, content), actor, q, v, content)
  {
    MaximumIsCount(db, q, t.maximum);
    hide Inv, VersionsOf, IsMaximumNumber;
  }

  /**
    * Every answer of a version creation on current rows: it commits exactly when
    * an active administrator names the row version of an active question with no
    * open version and gives whole content with known tags that no other question
    * holds. The new version is numbered one above the count.
    */
  lemma CreateVersionAnswer(db: Db, actor: Id, q: Id, v: Id, expected: nat, content: Content,
                            target: Option<QuestionTarget>)
    requires Inv(db) && IsQuestionTarget(db, q, target)
    ensures var r := CommitCreateVersion(db, actor, q, v, expected, content, target, SeeContent(db, q, content));
            if q !in db.questions then r == Err(ResourceNotFound)
            else if db.questions[q].rowVersion != expected then r == Err(VersionConflict)
            else if db.questions[q].lifecycle != Active
                    || (exists o ::
                          o in db.versions && db.versions[o].questionId == q && OpenStatus(db.versions[o].status))
              then r == Err(InvalidStateTransition)
            else if !(content.tags <= db.tags) then r == Err(ValidationError)
            else if HeldElsewhere(db, q, content) then r == Err(DuplicateContent)
            else if !(actor in db.users && db.users[actor] == User(Admin, ActiveAccount)) then r == Err(AuthorityLost)
            else if !(1 <= |content.tags| <= 12) then r == Err(BadManifest)
            else if v in db.versions then r == Err(KeyTaken)
            else if !Whole(content) then r == Err(RuleViolation)
            else r.Ok? && VersionCreated(db, r.value, actor, q, v, content)
  {
    hide Inv, Begin, Arm, ContentCheck, Whole, HeldElsewhere, InsertVersion, VersionCreated, SeeContent, OptionSet,
         IsMaximumNumber, FewLive;
    CheckIsMeant(db, q, content);
    if q in db.questions {
      var t := target.value;
      var op := Operation(actor, VersionCreate, {actor} + OptionSet(t.question.creator.userId));
      QuestionCreatorLive(db, q);
      FewCreators(db, actor, OptionSet(t.question.creator.userId), {}, {});
      assert {actor} + OptionSet(t.question.creator.userId) + {} == op.referenced;
      BeginAnswers(db, op);
      if t.question.lifecycle == Active && !t.hasOpen && content.tags <= db.tags {
        CreateVersionArms(db, op, q, content.tags);
      }
      CreateVersionWrites(db, actor, q, v, t, content);
    }
  }

  // ----- an edit

  /** Whether an edit changes the field of the content. */
  predicate FieldChanges(field: Field, was: Content, next: Content) {
    match field
    case Level => was.level != next.level
    case Subject => was.subject != next.subject
    case QuestionType => was.questionType != next.questionType
    case Difficulty => was.difficulty != next.difficulty
    case Passage => was.passage != next.passage
    case QuestionText => was.questionText != next.questionText
    case ExplanationKo => was.explanationKo != next.explanationKo
    case ExplanationJa => was.explanationJa != next.explanationJa
    case Options => was.options != next.options
    case CorrectOption => was.correctOptionId != next.correctOptionId
    case Tags => was.tags != next.tags
    case _ => false
  }

  /** The fields of a list that change, in the order of the list. */
  function Changing(fields: seq<Field>, was: Content, next: Content): seq<Field> {
    if |fields| == 0 then []
    else
      var n := |fields| - 1;
      Changing(fields[..n], was, next) + Recorded(FieldChanges(fields[n], was, next), fields[n])
  }

  lemma ChangingNext(k: nat, field: Field, changes: bool, was: Content, next: Content)
    requires k < 11 && CREATED_FIELDS[k] == field && FieldChanges(field, was, next) == changes
    ensures Changing(CREATED_FIELDS[..k + 1], was, next)
         == Changing(CREATED_FIELDS[..k], was, next) + Recorded(changes, field)
  {
    assert CREATED_FIELDS[..k + 1][..k] == CREATED_FIELDS[..k];
  }

  lemma FirstTwoInOrder(was: Content, next: Content)
    ensures Changing(CREATED_FIELDS[..2], was, next)
         == Recorded(was.level != next.level, Level) + Recorded(was.subject != next.subject, Subject)
  {
    assert Changing(CREATED_FIELDS[..0], was, next) == [];
    hide Changing, Recorded;
    ChangingNext(0, Level, was.level != next.level, was, next);
    assert Changing(CREATED_FIELDS[..1], was, next) == Recorded(was.level != next.level, Level);
    ChangingNext(1, Subject, was.subject != next.subject, was, next);
  }

  lemma FirstFiveInOrder(was: Content, next: Content)
    ensures Changing(CREATED_FIELDS[..5], was, next)
         == Changing(CREATED_FIELDS[..2], was, next) + Recorded(was.questionType != next.questionType, QuestionType)
            + Recorded(was.difficulty != next.difficulty, Difficulty)
            + Recorded(was.passage != next.passage, Passage)
  {
    hide Changing, Recorded;
    ChangingNext(2, QuestionType, was.questionType != next.questionType, was, next);
    ChangingNext(3, Difficulty, was.difficulty != next.difficulty, was, next);
    ChangingNext(4, Passage, was.passage != next.passage, was, next);
  }

  lemma NextThreeInOrder(was: Content, next: Content)
    ensures Changing(CREATED_FIELDS[..8], was, next)
         == Changing(CREATED_FIELDS[..5], was, next) + Recorded(was.questionText != next.questionText, QuestionText)
            + Recorded(was.explanationKo != next.explanationKo, ExplanationKo)
            + Recorded(was.explanationJa != next.explanationJa, ExplanationJa)
  {
    hide Changing, Recorded;
    ChangingNext(5, QuestionText, was.questionText != next.questionText, was, next);
    ChangingNext(6, ExplanationKo, was.explanationKo != next.explanationKo, was, next);
    ChangingNext(7, ExplanationJa, was.explanationJa != next.explanationJa, was, next);
  }

  lemma LastThreeInOrder(was: Content, next: Content)
    ensures Changing(CREATED_FIELDS, was, next)
         == Changing(CREATED_FIELDS[..8], was, next) + Recorded(was.options != next.options, Options)
            + Recorded(was.correctOptionId != next.correctOptionId, CorrectOption)
            + Recorded(was.tags != next.tags, Tags)
  {
    hide Changing, Recorded;
    ChangingNext(8, Options, was.options != next.options, was, next);
    ChangingNext(9, CorrectOption, was.correctOptionId != next.correctOptionId, was, next);
    ChangingNext(10, Tags, was.tags != next.tags, was, next);
    assert CREATED_FIELDS[..11] == CREATED_FIELDS;
  }

  /** An edit records the fields it changes, in the fixed order. */
  lemma ChangedInOrder(was: Content, next: Content)
    ensures ChangedFields(was, next) == Changing(CREATED_FIELDS, was, next)
  {
    hide Changing, Recorded;
    FirstTwoInOrder(was, next);
    FirstFiveInOrder(was, next);
    NextThreeInOrder(was, next);
    LastThreeInOrder(was, next);
  }

  ghost predicate VersionEdited(db: Db, after: Db, actor: Id, id: Id, content: Content)
    requires id in db.versions
  {
    var was := db.versions[id];
    && after == db.(versions := after.versions, audits := after.audits)
    && after.versions.Keys == db.versions.Keys && OnlyVersions(db, after, {id})
    && after.versions[id] == was.(content := content, rowVersion := was.rowVersion + 1)
    && after.audits == db.audits
       + [Audit(VersionUpdate, Some(id), Actor(actor), Some(was.rowVersion), Some(was.rowVersion + 1),
                Changing(CREATED_FIELDS, was.content, content))]
  }

  lemma EditManifest(db: Db, id: Id, tags: set<Id>) returns (m: Manifest)
    requires id in db.versions && db.versions[id].questionId in db.questions
    ensures var q := db.versions[id].questionId;
            m == Manifest(map[q := QuestionItem(db.questions[q].rowVersion, db.questions[q].lifecycle)],
                          map[id := VersionItem(db.versions[id].rowVersion, db.versions[id].status)], map[], tags)
    ensures Current(db, m) && m.questions.Keys == {db.versions[id].questionId} && m.versions.Keys == {id}
    ensures ShapeOk(VersionUpdate, m) <==> 1 <= |tags| <= 12
  {
    var q := db.versions[id].questionId;
    m := Manifest(map[q := QuestionItem(db.questions[q].rowVersion, db.questions[q].lifecycle)],
                  map[id := VersionItem(db.versions[id].rowVersion, db.versions[id].status)], map[], tags);
    assert m.questions.Keys == {q} && m.versions.Keys == {id};
    assert |m.questions| == |m.questions.Keys| && |m.versions| == |m.versions.Keys|;
  }

  lemma EditArms(db: Db, op: Operation, id: Id, m: Manifest)
    requires id in db.versions && db.versions[id].questionId in db.questions && op.command == VersionUpdate
    requires db.questions[db.versions[id].questionId].lifecycle == Active && Editable(db.versions[id].status)
    requires Current(db, m) && m.questions.Keys == {db.versions[id].questionId} && m.versions.Keys == {id}
             && m.reports == map[] && m.tags <= db.tags
    requires op.referenced == VersionUsers(db, VersionUpdate, op.actor, id)
    ensures Arm(db, op, m) == if ShapeOk(VersionUpdate, m) then None else Some(BadManifest)
  {
    hide LatestApprover, DerivedUsers, Current, TargetsMatch, ShapeOk, VersionUsers;
    if ShapeOk(op.command, m) {
      ArmAnswers(db, op, m);
      SingleUsers(db, op, id, m);
      assert AggregateRulesOk(db, VersionUpdate, m);
    }
  }

  lemma EditNames(db: Db, actor: Id, id: Id)
    requires Inv(db) && id in db.versions && db.versions[id].questionId in db.questions
    ensures var named := {actor} + OptionSet(db.questions[db.versions[id].questionId].creator.userId)
                         + OptionSet(db.versions[id].creator.userId);
            FewLive(db, actor, named) && named == VersionUsers(db, VersionUpdate, actor, id)
  {
    hide Inv, FewLive, OptionSet;
    NamedUsers(db, id);
    FewCreators(db, actor, OptionSet(db.questions[db.versions[id].questionId].creator.userId),
                OptionSet(db.versions[id].creator.userId), {});
  }

  lemma EditGuards(db: Db, actor: Id, id: Id, tags: set<Id>)
    requires Inv(db) && id in db.versions && db.versions[id].questionId in db.questions
    requires Editable(db.versions[id].status) && tags <= db.tags
    ensures var q := db.versions[id].questionId;
            var op := Operation(actor, VersionUpdate, {actor} + OptionSet(db.questions[q].creator.userId)
                                                      + OptionSet(db.versions[id].creator.userId));
            && Begin(db, op) == (if HasAuthority(db, actor) then None else Some(AuthorityLost))
            && Arm(db, op, Manifest(map[q := QuestionItem(db.questions[q].rowVersion, db.questions[q].lifecycle)],
                                    map[id := VersionItem(db.versions[id].rowVersion, db.versions[id].status)],
                                    map[], tags))
               == if 1 <= |tags| <= 12 then None else Some(BadManifest)
  {
    hide Inv, Begin, Arm, ShapeOk, Current, FewLive, HasAuthority, OptionSet, VersionUsers;
    EditNames(db, actor, id);
    var op := Operation(actor, VersionUpdate,
                        {actor} + OptionSet(db.questions[db.versions[id].questionId].creator.userId)
                        + OptionSet(db.versions[id].creator.userId));
    BeginAnswers(db, op);
    OpenIsActive(db, id);
    var m := EditManifest(db, id, tags);
    EditArms(db, op, id, m);
  }

  /** Four ids that contain four ids are those ids. */
  lemma SameFour(a: map<Id, Choice>, b: map<Id, Choice>)
    requires |a| == 4
    ensures (|b| == 4 && a.Keys <= b.Keys) <==> a.Keys == b.Keys
    ensures a.Keys == b.Keys ==> a + b == b
  {
    assert |a| == |a.Keys| && |b| == |b.Keys|;
    if |b| == 4 && a.Keys <= b.Keys {
      assert |b.Keys - a.Keys| == |b.Keys| - |a.Keys|;
    }
  }

  /** With its guards passed, an edit writes what was given. */
  lemma EditSteps(db: Db, actor: Id, id: Id, content: Content, t: VersionTarget)
    requires id in db.versions && db.versions[id].questionId in db.questions && Editable(t.version.status)
    requires t == VersionTarget(db.versions[id], db.questions[db.versions[id].questionId], false, t.approver)
    requires id !in db.pinned && t.question.lifecycle == Active && t.version.creator == AdminCreator(actor)
    requires |t.version.content.options| == 4 && t.version.content.options.Keys == content.options.Keys
    requires content.tags <= db.tags && !HeldElsewhere(db, t.version.questionId, content)
    requires var op := Operation(actor, VersionUpdate, {actor} + OptionSet(t.question.creator.userId)
                                                       + OptionSet(t.version.creator.userId));
             && Begin(db, op).None?
             && Arm(db, op,
                    Manifest(map[t.version.questionId := QuestionItem(t.question.rowVersion, t.question.lifecycle)],
                             map[id := VersionItem(t.version.rowVersion, t.version.status)], map[],
                             content.tags)).None?
    ensures var r := CommitUpdate(db, actor, id, t.version.rowVersion, content, Some(t), t.version.content.options,
                                  t.version.content.tags, SeeContent(db, t.version.questionId, content));
            if Whole(content) then r.Ok? && VersionEdited(db, r.value, actor, id, content) else r == Err(RuleViolation)
  {
    hide Begin, Arm, ContentCheck, Whole, HeldElsewhere, SeeContent, ChangedFields, OptionSet, Changing;
    CheckIsMeant(db, t.version.questionId, content);
    SameFour(t.version.content.options, content.options);
    assert content.(options := content.options) == content;
    assert t.version.content.(options := t.version.content.options, tags := t.version.content.tags)
        == t.version.content;
    ChangedInOrder(t.version.content, content);
  }

  /**
    * Every answer of an edit on current rows: it commits exactly when the author,
    * an active administrator, names the row version of an editable version no
    * session has pinned and gives whole content under the same option ids, with
    * known tags, that no other question holds.
    */
  lemma UpdateAnswer(db: Db, actor: Id, id: Id, expected: nat, content: Content)
    requires Inv(db)
    ensures id in db.versions ==> db.versions[id].questionId in db.questions
    ensures var q := if id in db.versions then db.versions[id].questionId else 0;
            var r := CommitUpdate(db, actor, id, expected, content, LoadVersionTarget(db, id), OptionsRead(db, id),
                                  TagsRead(db, id), SeeContent(db, q, content));
            if id !in db.versions then r == Err(ResourceNotFound)
            else if db.versions[id].creator.userId != Some(actor) then r == Err(Forbidden)
            else if db.versions[id].rowVersion != expected then r == Err(VersionConflict)
            else if db.questions[q].lifecycle != Active then r == Err(InvalidStateTransition)
            else if db.versions[id].status !in {Draft, ChangesRequested} || id in db.pinned then
              r == Err(VersionImmutable)
            else if db.versions[id].content.options.Keys != content.options.Keys then r == Err(ValidationError)
            else if !(content.tags <= db.tags) then r == Err(ValidationError)
            else if HeldElsewhere(db, q, content) then r == Err(DuplicateContent)
            else if !(actor in db.users && db.users[actor] == User(Admin, ActiveAccount)) then r == Err(AuthorityLost)
            else if !(1 <= |content.tags| <= 12) then r == Err(BadManifest)
            else if !Whole(content) then r == Err(RuleViolation)
            else r.Ok? && VersionEdited(db, r.value, actor, id, content)
  {
    hide Inv, Begin, Arm, ContentCheck, Whole, HeldElsewhere, VersionEdited, SeeContent, OptionSet, LatestApprover,
         ChangedFields, LoadVersionTarget;
    TargetIsThere(db, id);
    if id in db.versions {
      var t := LoadVersionTarget(db, id).value;
      CheckIsMeant(db, t.version.questionId, content);
      FourOptions(db, id);
      SameFour(t.version.content.options, content.options);
      if Editable(t.version.status) && content.tags <= db.tags {
        OpenAuthor(db, id);
        EditGuards(db, actor, id, content.tags);
        if HasAuthority(db, actor) && t.version.creator.userId == Some(actor) && id !in db.pinned
           && t.version.content.options.Keys == content.options.Keys && t.question.lifecycle == Active
           && !HeldElsewhere(db, t.version.questionId, content) && 1 <= |content.tags| <= 12 {
          EditSteps(db, actor, id, content, t);
        }
      }
    }
  }

  lemma FourOptions(db: Db, id: Id)
    requires Inv(db) && id in db.versions
    ensures |db.versions[id].content.options| == 4
  {
    HomeOf(db, id);
  }
}
