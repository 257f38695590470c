/**
  * The admin content commands. Each `Commit...` function is one transaction: it
  * takes the database at commit time and the rows the command read before the
  * transaction began, and gives the next database or the reason for a rollback.
  * As the program does, it writes row versions and from-states from the rows read.
  */
module ContentCommands {
  import opened Common
  import opened ContentTables
  import opened ContentArm

  // ----- single row writes

  function WithVersion(db: Db, id: Id, row: Version): Db {
    db.(versions := db.versions[id := row])
  }

  function WithQuestion(db: Db, id: Id, row: Question): Db {
    db.(questions := db.questions[id := row])
  }

  function WithReport(db: Db, id: Id, row: Report): Db {
    db.(reports := db.reports[id := row])
  }

  function WithReview(db: Db, r: Review): Db {
    db.(reviews := db.reviews + [r])
  }

  function WithAudit(db: Db, a: Audit): Db {
    db.(audits := db.audits + [a])
  }

  // ----- create question, create version, import

  function CreateChangedFields(): seq<Field> {
    [LifecycleStatus, Level, Subject, QuestionType, Difficulty, Passage, QuestionText, ExplanationKo,
     ExplanationJa, Options, CorrectOption, Tags]
  }

  function NewQuestion(actor: Id): Question {
    Question(Active, None, AdminCreator(actor), 1)
  }

  function NewVersion(actor: Id, questionId: Id, number: nat, content: Content): Version {
    Version(questionId, number, Draft, content, 1, AdminCreator(actor), None, None, None)
  }

  function InsertQuestion(db: Db, actor: Id, questionId: Id, versionId: Id, content: Content): Db {
    WithAudit(
      WithVersion(
        WithQuestion(db, questionId, NewQuestion(actor)),
        versionId, NewVersion(actor, questionId, 1, content)),
      Audit(QuestionCreate, Some(questionId), Some(AdminAccount(actor)), None, Some(1), CreateChangedFields()))
  }

  /** The content rules a commit enforces for a version of the given question. */
  function ContentCheck(db: Db, questionId: Id, content: Content): Option<Failure> {
    if !Complete(content) then Some(RuleViolation)
    else if CrossQuestionDuplicate(db, questionId, FingerprintOf(content)) then Some(DuplicateContent)
    else None
  }

  /** The answers of the preflight queries about the content of a request. */
  datatype ContentSeen = ContentSeen(tagsResolve: bool, duplicate: bool)

  function SeeContent(db: Db, questionId: Id, content: Content): ContentSeen {
    ContentSeen(content.tags <= db.tags, CrossQuestionDuplicate(db, questionId, FingerprintOf(content)))
  }

  function CommitCreateQuestion(db: Db, actor: Id, questionId: Id, versionId: Id, content: Content,
                                seen: ContentSeen): Outcome
  {
    if !seen.tagsResolve then Err(ValidationError)
    else if seen.duplicate then Err(DuplicateContent)
    else
      var op := Operation(actor, QuestionCreate, {actor});
      var begun := Begin(db, op);
      if begun.Some? then Err(begun.value)
      else
        var armed := Arm(db, op, Manifest(map[], map[], map[], content.tags));
        if armed.Some? then Err(armed.value)
        else if questionId in db.questions || versionId in db.versions then Err(KeyTaken)
        else
          var check := ContentCheck(db, questionId, content);
          if check.Some? then Err(check.value)
          else Ok(InsertQuestion(db, actor, questionId, versionId, content))
  }

  /** The question row as it was read is bumped, and its next version follows. */
  function InsertVersion(db: Db, actor: Id, questionId: Id, versionId: Id, t: QuestionTarget, content: Content): Db
    requires questionId in db.questions
  {
    WithAudit(
      WithVersion(
        WithQuestion(db, questionId, db.questions[questionId].(rowVersion := t.question.rowVersion + 1)),
        versionId, NewVersion(actor, questionId, t.maximum + 1, content)),
      Audit(VersionCreate, Some(versionId), Some(AdminAccount(actor)), None, Some(1),
            [VersionStatus] + CreateChangedFields()[1..]))
  }

  function CommitCreateVersion(db: Db, actor: Id, questionId: Id, versionId: Id, expected: nat, content: Content,
                               target: Option<QuestionTarget>, seen: ContentSeen): Outcome
  {
    if target.None? then Err(ResourceNotFound)
    else
      var t := target.value;
      if t.question.rowVersion != expected then Err(VersionConflict)
      else if t.question.lifecycle != Active || t.hasOpen then Err(InvalidStateTransition)
      else if !seen.tagsResolve then Err(ValidationError)
      else if seen.duplicate then Err(DuplicateContent)
      else
        var op := Operation(actor, VersionCreate, {actor} + OptionSet(t.question.creator.userId));
        var begun := Begin(db, op);
        if begun.Some? then Err(begun.value)
        else
          var armed := Arm(db, op,
                           Manifest(map[questionId := QuestionItem(t.question.rowVersion, t.question.lifecycle)],
                                    map[], map[], content.tags));
          if armed.Some? then Err(armed.value)
          else if versionId in db.versions then Err(KeyTaken)
          else
            var check := ContentCheck(db, questionId, content);
            if check.Some? then Err(check.value)
            else
              assert QuestionMatches(db, questionId, QuestionItem(t.question.rowVersion, t.question.lifecycle));
              Ok(InsertVersion(db, actor, questionId, versionId, t, content))
  }

  datatype ImportItem = ImportItem(questionId: Id, versionId: Id, content: Content)

  function InsertItems(db: Db, actor: Id, items: seq<ImportItem>): Db
    decreases |items|
  {
    if |items| == 0 then db
    else
      var last := items[|items| - 1];
      InsertQuestion(InsertItems(db, actor, items[..|items| - 1]), actor, last.questionId, last.versionId, last.content)
  }

  function ImportTags(items: seq<ImportItem>): set<Id> {
    set i, t | 0 <= i < |items| && t in items[i].content.tags :: t
  }

  predicate DistinctKeys(items: seq<ImportItem>) {
    forall i, j | 0 <= i < j < |items| ::
      items[i].questionId != items[j].questionId && items[i].versionId != items[j].versionId
  }

  predicate FreshKeys(db: Db, items: seq<ImportItem>) {
    forall i | 0 <= i < |items| :: items[i].questionId !in db.questions && items[i].versionId !in db.versions
  }

  /** The import rules over the stored content; every other rule is about one item alone. */
  predicate ImportValid(db: Db, items: seq<ImportItem>) {
    && (forall i | 0 <= i < |items| ::
          && Complete(items[i].content)
          && items[i].content.tags <= db.tags
          && forall v | v in db.versions :: FingerprintOf(db.versions[v].content) != FingerprintOf(items[i].content))
    && (forall i, j | 0 <= i < j < |items| :: FingerprintOf(items[i].content) != FingerprintOf(items[j].content))
  }

  function CommitImport(db: Db, actor: Id, items: seq<ImportItem>, validSeen: bool): Outcome {
    if !validSeen then Err(ValidationError)
    else
      var op := Operation(actor, ImportApply, {actor});
      var begun := Begin(db, op);
      if begun.Some? then Err(begun.value)
      else if !ImportValid(db, items) then Err(ValidationError)
      else
        var armed := Arm(db, op, Manifest(map[], map[], map[], ImportTags(items)));
        if armed.Some? then Err(armed.value)
        else if !FreshKeys(db, items) || !DistinctKeys(items) then Err(KeyTaken)
        else Ok(WithAudit(InsertItems(db, actor, items),
                          Audit(ImportApply, None, Some(AdminAccount(actor)), None, None, [ImportItems])))
  }

  // ----- update

  function Recorded(changes: bool, field: Field): seq<Field> {
    if changes then [field] else []
  }

  /** The fields an update changes, in the fixed audit order. */
  function ChangedFields(was: Content, next: Content): seq<Field> {
    Recorded(was.level != next.level, Level)
    + Recorded(was.subject != next.subject, Subject)
    + Recorded(was.questionType != next.questionType, QuestionType)
    + Recorded(was.difficulty != next.difficulty, Difficulty)
    + Recorded(was.passage != next.passage, Passage)
    + Recorded(was.questionText != next.questionText, QuestionText)
    + Recorded(was.explanationKo != next.explanationKo, ExplanationKo)
    + Recorded(was.explanationJa != next.explanationJa, ExplanationJa)
    + Recorded(was.options != next.options, Options)
    + Recorded(was.correctOptionId != next.correctOptionId, CorrectOption)
    + Recorded(was.tags != next.tags, Tags)
  }

  /** The checks made on the rows read, before the transaction. */
  function ValidateUpdate(t: VersionTarget, options: map<Id, Choice>, actor: Id, expected: nat, content: Content)
    : Option<Failure>
  {
    if t.version.creator.userId != Some(actor) then Some(Forbidden)
    else if t.version.rowVersion != expected then Some(VersionConflict)
    else if t.question.lifecycle != Active then Some(InvalidStateTransition)
    else if !Editable(t.version.status) || t.isPinned then Some(VersionImmutable)
    else if |options| != 4 || |content.options| != 4 || !(options.Keys <= content.options.Keys)
      then Some(ValidationError)
    else None
  }

  predicate EditableUnpinned(db: Db, id: Id) {
    id in db.versions && Editable(db.versions[id].status) && id !in db.pinned
  }

  predicate LiveAuthor(db: Db, id: Id, actor: Id) {
    id in db.versions && db.versions[id].creator == AdminCreator(actor)
  }

  function CommitUpdate(db: Db, actor: Id, id: Id, expected: nat, content: Content,
                        target: Option<VersionTarget>, options: map<Id, Choice>, tagsRead: set<Id>, seen: ContentSeen)
    : Outcome
  {
    if target.None? then Err(ResourceNotFound)
    else
      var t := target.value;
      var invalid := ValidateUpdate(t, options, actor, expected, content);
      if invalid.Some? then Err(invalid.value)
      else if !seen.tagsResolve then Err(ValidationError)
      else if seen.duplicate then Err(DuplicateContent)
      else
        var q := t.version.questionId;
        var op := Operation(actor, VersionUpdate,
                            {actor} + OptionSet(t.question.creator.userId) + OptionSet(t.version.creator.userId));
        var begun := Begin(db, op);
        if begun.Some? then Err(begun.value)
        else
          var m := Manifest(map[q := QuestionItem(t.question.rowVersion, t.question.lifecycle)],
                            map[id := VersionItem(t.version.rowVersion, t.version.status)],
                            map[], content.tags);
          var armed := Arm(db, op, m);
          if armed.Some? then Err(armed.value)
          else if !EditableUnpinned(db, id) then Err(RuleViolation)
          else if !(content.options.Keys <= db.versions[id].content.options.Keys) then Err(VersionConflict)
          else if !LiveAuthor(db, id, actor) then Err(NotAuthor)
          else
            var written := content.(options := db.versions[id].content.options + content.options);
            var check := ContentCheck(db, q, written);
            if check.Some? then Err(check.value)
            else
              Ok(WithAudit(
                   WithVersion(db, id, db.versions[id].(content := written, rowVersion := t.version.rowVersion + 1)),
                   Audit(VersionUpdate, Some(id), Some(AdminAccount(actor)),
                         Some(t.version.rowVersion), Some(t.version.rowVersion + 1),
                         ChangedFields(t.version.content.(options := options, tags := tagsRead), content))))
  }

  // ----- review transitions

  datatype LifecycleOperation =
    | RequestContentReview
    | RequestQuestionChanges
    | ApproveQuestionVersion
    | WithdrawQuestionApproval

  datatype TransitionConfig = TransitionConfig(
    action: Action,
    command: Command,
    fromStates: set<Status>,
    toState: Status,
    authorOnly: bool,
    selfDecisionAllowed: bool)

  function Config(operation: LifecycleOperation): TransitionConfig {
    match operation
    case RequestContentReview =>
      TransitionConfig(Requested, ReviewRequest, {Draft, ChangesRequested}, InReview, true, false)
    case RequestQuestionChanges =>
      TransitionConfig(RequestedChanges, ChangeRequest, {InReview}, ChangesRequested, false, false)
    case ApproveQuestionVersion =>
      TransitionConfig(ApprovedVersion, Approval, {InReview}, Approved, false, true)
    case WithdrawQuestionApproval =>
      TransitionConfig(ApprovalWithdrawn, ApprovalWithdrawal, {Approved}, ChangesRequested, false, true)
  }

  function SingleVersionManifest(id: Id, t: VersionTarget): Manifest {
    Manifest(map[t.version.questionId := QuestionItem(t.question.rowVersion, t.question.lifecycle)],
             map[id := VersionItem(t.version.rowVersion, t.version.status)],
             map[], {})
  }

  function StateAndDuties(config: TransitionConfig, actor: Id, t: VersionTarget): Option<Failure> {
    if t.question.lifecycle != Active then Some(InvalidStateTransition)
    else if t.version.status !in config.fromStates then Some(InvalidStateTransition)
    else if !config.authorOnly && !config.selfDecisionAllowed && t.version.creator.userId == Some(actor) then
      Some(SeparationOfDuties)
    else if AuthorSnapshot(t.version.creator).None? then Some(InvalidStateTransition)
    else None
  }

  /** A REQUESTED review is written by the live version author. */
  predicate RequestAuthor(db: Db, id: Id, actor: Id) {
    id in db.versions && db.versions[id].creator.userId == Some(actor) && db.versions[id].creator.actorId == Some(actor)
  }

  datatype TransitionRequest = TransitionRequest(expected: nat, reason: Option<Reason>, comment: Option<string>)

  /** The rows a review transition writes, from the version as it was read. */
  function TransitionEffect(db: Db, config: TransitionConfig, actor: Id, id: Id, was: Version,
                            request: TransitionRequest, now: Time): Db
    requires id in db.versions
  {
    WithAudit(
      WithReview(
        WithVersion(db, id, db.versions[id].(status := config.toState, rowVersion := was.rowVersion + 1)),
        Review(id, was.questionId, config.action, was.status, config.toState,
               Some(AdminAccount(actor)),
               if config.authorOnly then None else AuthorSnapshot(was.creator),
               request.reason, request.comment, now)),
      Audit(config.command, Some(id), Some(AdminAccount(actor)),
            Some(was.rowVersion), Some(was.rowVersion + 1), [VersionStatus]))
  }

  function TransitionReferenced(operation: LifecycleOperation, actor: Id, target: Option<VersionTarget>): set<Id> {
    {actor}
    + (if target.None? then {} else
         OptionSet(target.value.question.creator.userId) + OptionSet(target.value.version.creator.userId)
         + (if operation == WithdrawQuestionApproval && target.value.approver.Some?
            then OptionSet(target.value.approver.value.userId) else {}))
  }

  function CommitTransition(db: Db, operation: LifecycleOperation, actor: Id, id: Id, request: TransitionRequest,
                            target: Option<VersionTarget>, now: Time): Outcome
  {
    var config := Config(operation);
    CommitTransitionBy(db, config, Operation(actor, config.command, TransitionReferenced(operation, actor, target)),
                       id, request, target, now)
  }

  function CommitTransitionBy(db: Db, config: TransitionConfig, op: Operation, id: Id, request: TransitionRequest,
                              target: Option<VersionTarget>, now: Time): Outcome
  {
    var begun := Begin(db, op);
    if begun.Some? then Err(begun.value)
    else if target.None? then Err(ResourceNotFound)
    else
      var t := target.value;
      if config.authorOnly && t.version.creator.userId != Some(op.actor) then Err(Forbidden)
      else if t.version.rowVersion != request.expected then Err(VersionConflict)
      else
        var armed := Arm(db, op, SingleVersionManifest(id, t));
        if armed.Some? then Err(armed.value)
        else
          var duties := StateAndDuties(config, op.actor, t);
          if duties.Some? then Err(duties.value)
          else if config.action == Requested && !RequestAuthor(db, id, op.actor) then Err(NotAuthor)
          else
            assert VersionMatches(db, SingleVersionManifest(id, t), id,
                                  VersionItem(t.version.rowVersion, t.version.status));
            Ok(TransitionEffect(db, config, op.actor, id, t.version, request, now))
  }

  // ----- publish, retire, archive

  function Items(versions: map<Id, Version>): map<Id, VersionItem> {
    map v | v in versions :: VersionItem(versions[v].rowVersion, versions[v].status)
  }

  function CreatorUsers(versions: map<Id, Version>): set<Id> {
    set v | v in versions && versions[v].creator.userId.Some? :: versions[v].creator.userId.value
  }

  function PreviousCurrent(t: VersionTarget, aggregate: map<Id, Version>): Option<Id> {
    if t.question.current.Some? && t.question.current.value in aggregate then t.question.current else None
  }

  function RetiredRow(row: Version, rowVersion: nat, now: Time): Version {
    row.(status := Retired, retirement := Some(PublishedRetirement), retiredAt := Some(now), rowVersion := rowVersion)
  }

  function PublishedRow(row: Version, rowVersion: nat, now: Time): Version {
    row.(status := Published, publishedAt := Some(now), retiredAt := None, retirement := None, rowVersion := rowVersion)
  }

  function RetiredReview(id: Id, questionId: Id, actor: Id, reason: Reason, now: Time): Review {
    Review(id, questionId, RetiredVersion, Published, Retired, Some(AdminAccount(actor)), None, Some(reason), None, now)
  }

  /** The rows a publication writes; `previous` is the version it replaces. */
  function PublishEffect(db: Db, actor: Id, id: Id, questionId: Id, previous: Option<Id>, previousRow: nat,
                         versionRow: nat, questionRow: nat, approver: Account, now: Time): Db
    requires id in db.versions && questionId in db.questions
    requires previous.Some? ==> previous.value in db.versions
  {
    var retired := if previous.Some?
                   then WithVersion(db, previous.value, RetiredRow(db.versions[previous.value], previousRow + 1, now))
                   else db;
    var published := WithVersion(retired, id, PublishedRow(retired.versions[id], versionRow + 1, now));
    var pointed := WithQuestion(published, questionId,
                                db.questions[questionId].(current := Some(id), rowVersion := questionRow + 1));
    var replaced := if previous.Some?
                    then WithReview(pointed,
                                    RetiredReview(previous.value, questionId, actor, PublishedReplacement, now))
                    else pointed;
    WithAudit(
      WithReview(replaced, Review(id, questionId, PublishedVersion, Approved, Published, Some(AdminAccount(actor)),
                                  Some(approver), None, None, now)),
      Audit(Publication, Some(id), Some(AdminAccount(actor)), Some(versionRow), Some(versionRow + 1),
            [VersionStatus, CurrentPublished]))
  }

  /** The checks a publication makes on the rows it read, after arming. */
  predicate PublishRowsOk(id: Id, t: VersionTarget, aggregate: map<Id, Version>) {
    && t.question.lifecycle == Active
    && t.version.status == Approved
    && id in aggregate
    && aggregate[id].status == Approved
    && (t.question.current.Some? ==>
          PreviousCurrent(t, aggregate).Some? && aggregate[PreviousCurrent(t, aggregate).value].status == Published)
    && (forall v | v in aggregate :: v == id || t.question.current == Some(v))
  }

  function PublishReferenced(actor: Id, target: Option<VersionTarget>, aggregate: map<Id, Version>): set<Id> {
    {actor} + CreatorUsers(aggregate)
    + (if target.None? then {} else
         OptionSet(target.value.question.creator.userId)
         + (if target.value.approver.Some? then OptionSet(target.value.approver.value.userId) else {}))
  }

  function PublishManifest(t: VersionTarget, aggregate: map<Id, Version>): Manifest {
    Manifest(map[t.version.questionId := QuestionItem(t.question.rowVersion, t.question.lifecycle)],
             Items(aggregate), map[], {})
  }

  function CommitPublish(db: Db, actor: Id, id: Id, expectedQuestion: nat, expected: nat,
                         target: Option<VersionTarget>, aggregate: map<Id, Version>, now: Time): Outcome
  {
    var op := Operation(actor, Publication, PublishReferenced(actor, target, aggregate));
    var begun := Begin(db, op);
    if begun.Some? then Err(begun.value)
    else if target.None? then Err(ResourceNotFound)
    else
      var t := target.value;
      if t.question.rowVersion != expectedQuestion then Err(VersionConflict)
      else if t.version.rowVersion != expected then Err(VersionConflict)
      else
        var m := PublishManifest(t, aggregate);
        var armed := Arm(db, op, m);
        if armed.Some? then Err(armed.value)
        else if !PublishRowsOk(id, t, aggregate) then Err(InvalidStateTransition)
        else if AuthorSnapshot(t.version.creator).None? || t.approver.None? then Err(InvalidStateTransition)
        else if CrossQuestionDuplicate(db, t.version.questionId, FingerprintOf(t.version.content))
          then Err(DuplicateContent)
        else
          assert VersionMatches(db, m, id, m.versions[id]);
          assert QuestionMatches(db, t.version.questionId, m.questions[t.version.questionId]);
          var previous := PreviousCurrent(t, aggregate);
          assert previous.Some? ==> VersionMatches(db, m, previous.value, m.versions[previous.value]);
          Ok(PublishEffect(db, actor, id, t.version.questionId, previous,
                           if previous.Some? then aggregate[previous.value].rowVersion else 0,
                           t.version.rowVersion, t.question.rowVersion, t.approver.value, now))
  }

  function RetireEffect(db: Db, actor: Id, id: Id, questionId: Id, versionRow: nat, questionRow: nat, now: Time): Db
    requires id in db.versions && questionId in db.questions
  {
    WithAudit(
      WithReview(
        WithVersion(
          WithQuestion(db, questionId, db.questions[questionId].(current := None, rowVersion := questionRow + 1)),
          id, RetiredRow(db.versions[id], versionRow + 1, now)),
        RetiredReview(id, questionId, actor, PublishedRetired, now)),
      Audit(Retirement, Some(id), Some(AdminAccount(actor)), Some(versionRow), Some(versionRow + 1),
            [VersionStatus, CurrentPublished]))
  }

  function CommitRetire(db: Db, actor: Id, id: Id, expectedQuestion: nat, expected: nat,
                        target: Option<VersionTarget>, now: Time): Outcome
  {
    var users := if target.None? then {} else
                   OptionSet(target.value.question.creator.userId) + OptionSet(target.value.version.creator.userId);
    var op := Operation(actor, Retirement, {actor} + users);
    var begun := Begin(db, op);
    if begun.Some? then Err(begun.value)
    else if target.None? then Err(ResourceNotFound)
    else
      var t := target.value;
      if t.question.rowVersion != expectedQuestion || t.version.rowVersion != expected then Err(VersionConflict)
      else
        var m := SingleVersionManifest(id, t);
        var armed := Arm(db, op, m);
        if armed.Some? then Err(armed.value)
        else if t.question.lifecycle != Active || t.version.status != Published || t.question.current != Some(id) then
          Err(InvalidStateTransition)
        else
          assert VersionMatches(db, m, id, m.versions[id]);
          assert QuestionMatches(db, t.version.questionId, m.questions[t.version.questionId]);
          Ok(RetireEffect(db, actor, id, t.version.questionId, t.version.rowVersion, t.question.rowVersion, now))
  }

  function OnlyElement(s: set<Id>): (x: Id)
    requires |s| == 1
    ensures s == {x}
  {
    assert forall a, b | a in s && b in s :: a == b by {
      forall a, b | a in s && b in s ensures a == b {
        assert |s - {a}| == 0;
      }
    }
    var x :| x in s;
    x
  }

  function OpenIds(versions: map<Id, Version>): set<Id> {
    set v | v in versions && OpenStatus(versions[v].status)
  }

  /** The single open candidate among the rows read, if there is one. */
  function CandidateOf(aggregate: map<Id, Version>): (c: Option<Id>)
    ensures c.Some? ==> c.value in aggregate && OpenStatus(aggregate[c.value].status)
  {
    var open := OpenIds(aggregate);
    if |open| == 1 then Some(OnlyElement(open)) else None
  }

  function AbandonedRow(row: Version, rowVersion: nat, now: Time): Version {
    row.(status := Retired, retirement := Some(QuestionArchiveAbandoned), retiredAt := Some(now),
         rowVersion := rowVersion)
  }

  /** The rows an archive writes. `rows` holds the versions as they were read. */
  function ArchiveEffect(db: Db, actor: Id, questionId: Id, questionRow: nat, current: Option<Id>,
                         candidate: Option<Id>, rows: map<Id, Version>, now: Time): Db
    requires questionId in db.questions
    requires current.Some? ==> current.value in db.versions && current.value in rows
    requires candidate.Some? ==> candidate.value in db.versions && candidate.value in rows
  {
    var d1 := if current.Some?
              then WithVersion(db, current.value,
                               RetiredRow(db.versions[current.value], rows[current.value].rowVersion + 1, now))
              else db;
    var d2 := if candidate.Some?
              then WithVersion(d1, candidate.value,
                               AbandonedRow(d1.versions[candidate.value], rows[candidate.value].rowVersion + 1, now))
              else d1;
    var d3 := WithQuestion(d2, questionId,
                           db.questions[questionId].(current := None, lifecycle := Archived,
                                                     rowVersion := questionRow + 1));
    var d4 := if current.Some?
              then WithReview(d3, RetiredReview(current.value, questionId, actor, ArchivedQuestion, now))
              else d3;
    var d5 := if candidate.Some?
              then WithReview(d4,
                              Review(candidate.value, questionId, ArchiveAbandoned, rows[candidate.value].status,
                                     Retired, Some(AdminAccount(actor)), AuthorSnapshot(rows[candidate.value].creator),
                                     Some(ArchivedQuestion), None, now))
              else d4;
    WithAudit(d5, Audit(QuestionArchive, Some(questionId), Some(AdminAccount(actor)), Some(questionRow),
                        Some(questionRow + 1),
                        [LifecycleStatus] + (if current.Some? || candidate.Some? then [VersionStatus] else [])
                          + (if current.Some? then [CurrentPublished] else [])))
  }

  datatype ArchiveRequest = ArchiveRequest(expected: nat, candidateId: Option<Id>, candidateRow: Option<nat>)

  /** The open candidate is exactly the one the request names, or there is none and it names none. */
  predicate CandidateExpected(aggregate: map<Id, Version>, request: ArchiveRequest) {
    var candidate := CandidateOf(aggregate);
    && |OpenIds(aggregate)| <= 1
    && request.candidateId == candidate
    && request.candidateRow == if candidate.Some? then Some(aggregate[candidate.value].rowVersion) else None
  }

  function ArchiveCurrent(t: QuestionTarget, aggregate: map<Id, Version>): Option<Id> {
    if t.question.current.Some? && t.question.current.value in aggregate then t.question.current else None
  }

  function ArchiveManifest(questionId: Id, t: QuestionTarget, aggregate: map<Id, Version>): Manifest {
    Manifest(map[questionId := QuestionItem(t.question.rowVersion, t.question.lifecycle)], Items(aggregate), map[], {})
  }

  function CommitArchive(db: Db, actor: Id, questionId: Id, request: ArchiveRequest,
                         target: Option<QuestionTarget>, aggregate: map<Id, Version>, now: Time): Outcome
  {
    var users := if target.None? then {} else OptionSet(target.value.question.creator.userId);
    var op := Operation(actor, QuestionArchive, {actor} + users + CreatorUsers(aggregate));
    var begun := Begin(db, op);
    if begun.Some? then Err(begun.value)
    else if target.None? then Err(ResourceNotFound)
    else
      var t := target.value;
      if t.question.rowVersion != request.expected then Err(VersionConflict)
      else if !CandidateExpected(aggregate, request) then Err(VersionConflict)
      else
        var m := ArchiveManifest(questionId, t, aggregate);
        var armed := Arm(db, op, m);
        if armed.Some? then Err(armed.value)
        else
          var current := ArchiveCurrent(t, aggregate);
          var candidate := CandidateOf(aggregate);
          if t.question.lifecycle != Active
             || (t.question.current.Some? && (current.None? || aggregate[current.value].status != Published)) then
            Err(InvalidStateTransition)
          else if candidate.Some? && AuthorSnapshot(aggregate[candidate.value].creator).None? then
            Err(InvalidStateTransition)
          else
            assert QuestionMatches(db, questionId, m.questions[questionId]);
            assert current.Some? ==> VersionMatches(db, m, current.value, m.versions[current.value]);
            assert candidate.Some? ==> VersionMatches(db, m, candidate.value, m.versions[candidate.value]);
            Ok(ArchiveEffect(db, actor, questionId, t.question.rowVersion, current, candidate, aggregate, now))
  }

  // ----- reports

  function TriageUsers(t: ReportTarget): set<Id> {
    OptionSet(t.question.creator.userId) + OptionSet(t.version.creator.userId) + OptionSet(t.report.reporter.userId)
    + (if t.report.assignee.Some? then OptionSet(t.report.assignee.value.userId) else {})
  }

  function ReportManifest(id: Id, t: ReportTarget, remediation: map<Id, Version>): Manifest {
    Manifest(map[t.report.questionId := QuestionItem(t.question.rowVersion, t.question.lifecycle)],
             Items(remediation)[t.report.versionId := VersionItem(t.version.rowVersion, t.version.status)],
             map[id := ReportItem(t.report.rowVersion, t.report.status)],
             {})
  }

  function CommitTriage(db: Db, actor: Id, id: Id, expected: nat, target: Option<ReportTarget>): Outcome {
    var op := Operation(actor, ReportTriage, {actor} + if target.None? then {} else TriageUsers(target.value));
    var begun := Begin(db, op);
    if begun.Some? then Err(begun.value)
    else if target.None? then Err(ResourceNotFound)
    else
      var t := target.value;
      if t.report.rowVersion != expected then Err(VersionConflict)
      else
        var m := ReportManifest(id, t, map[]);
        var armed := Arm(db, op, m);
        if armed.Some? then Err(armed.value)
        else if t.report.status != Open then Err(InvalidStateTransition)
        else
          assert ReportMatches(db, m, id, m.reports[id]);
          Ok(WithAudit(
               WithReport(db, id, db.reports[id].(status := Triaged, assignee := Some(AdminAccount(actor)),
                                                  rowVersion := t.report.rowVersion + 1)),
               Audit(ReportTriage, Some(id), Some(AdminAccount(actor)), Some(t.report.rowVersion),
                     Some(t.report.rowVersion + 1), [Assignee, ReportStatusField])))
  }

  datatype ResolveRequest = ResolveRequest(
    expected: nat,
    resolved: bool,
    reason: string,
    remediation: Option<Id>)

  /** The requested remediation is another version of the reported question. */
  function RemediationRow(t: ReportTarget, remediation: Option<Id>, row: Option<Version>): map<Id, Version> {
    if remediation.Some? && row.Some? && row.value.questionId == t.report.questionId
       && remediation.value != t.report.versionId
    then map[remediation.value := row.value]
    else map[]
  }

  predicate RemediationAccepted(t: ReportTarget, request: ResolveRequest, row: Version) {
    && request.resolved
    && row.number > t.version.number
    && (|| row.status == Published
        || (row.status == Retired && row.retirement == Some(PublishedRetirement) && row.publishedAt.Some?))
  }

  /**
    * `outer` holds the users named by the rows read before the transaction;
    * the rows themselves are read again inside it, before arming.
    */
  function CommitResolve(db: Db, actor: Id, id: Id, request: ResolveRequest, outer: set<Id>,
                         target: Option<ReportTarget>, row: Option<Version>, now: Time): Outcome
  {
    var op := Operation(actor, ReportResolution, {actor} + outer);
    var begun := Begin(db, op);
    if begun.Some? then Err(begun.value)
    else if target.None? then Err(ResourceNotFound)
    else
      var t := target.value;
      if t.report.rowVersion != request.expected then Err(VersionConflict)
      else
        var remediation := RemediationRow(t, request.remediation, row);
        var m := ReportManifest(id, t, remediation);
        var armed := Arm(db, op, m);
        if armed.Some? then Err(armed.value)
        else if t.report.status != Triaged then Err(InvalidStateTransition)
        else if request.remediation.Some? && remediation == map[] then Err(ResourceNotFound)
        else if request.remediation.Some? && row.Some? && !RemediationAccepted(t, request, row.value) then
          Err(ResourceNotFound)
        else
          assert ReportMatches(db, m, id, m.reports[id]);
          Ok(WithAudit(
               WithReport(db, id, db.reports[id].(status := if request.resolved then Resolved else Dismissed,
                                                  resolutionReason := Some(request.reason),
                                                  remediation := request.remediation,
                                                  resolvedAt := Some(now),
                                                  rowVersion := t.report.rowVersion + 1)),
               Audit(ReportResolution, Some(id), Some(AdminAccount(actor)), Some(t.report.rowVersion),
                     Some(t.report.rowVersion + 1), [Resolution, ReportStatusField])))
  }
}
