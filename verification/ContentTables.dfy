/**
  * The rows of the content tables and the queries the commands run over them.
  * A database is a value of type Db; a transaction maps one Db to the next.
  */
module ContentTables {
  import opened Common

  datatype Status = Draft | InReview | ChangesRequested | Approved | Published | Retired

  datatype Lifecycle = Active | Archived

  datatype Label = ActiveAdmin | DeletedAdmin | ActiveUser | DeletedUser | SystemSeed

  datatype RetirementKind = PublishedRetirement | AuthorErasureAbandoned | QuestionArchiveAbandoned

  /** Creator columns. The role snapshot is ADMIN exactly when actorId is set. */
  datatype Creator = Creator(userId: Option<Id>, actorId: Option<Id>, standing: Label)

  /** A text together with the canonical form the normaliser gives it. */
  datatype Text = Text(raw: string, canonical: string)

  datatype Choice = Choice(ordinal: nat, text: Text)

  datatype Content = Content(
    level: string,
    subject: string,
    questionType: string,
    difficulty: string,
    passage: Option<Text>,
    questionText: Text,
    explanationKo: string,
    explanationJa: Option<string>,
    options: map<Id, Choice>,
    correctOptionId: Id,
    tags: set<Id>)

  /**
    * What the content digest identifies; the digest itself is injective on it.
    * Committed content holds distinct option texts, so a set loses nothing.
    */
  datatype Fingerprint = Fingerprint(
    correct: Option<string>,
    options: set<string>,
    passage: Option<string>,
    questionText: string,
    questionType: string,
    subject: string)

  datatype Question = Question(
    lifecycle: Lifecycle,
    current: Option<Id>,
    creator: Creator,
    rowVersion: nat)

  datatype Version = Version(
    questionId: Id,
    number: nat,
    status: Status,
    content: Content,
    rowVersion: nat,
    creator: Creator,
    publishedAt: Option<Time>,
    retirement: Option<RetirementKind>,
    retiredAt: Option<Time>)

  /** An account named by evidence: the live user, if any, and the permanent actor. */
  datatype Account = Account(userId: Option<Id>, actorId: Id, standing: Label)

  datatype Action =
    | Requested
    | RequestedChanges
    | ApprovedVersion
    | ApprovalWithdrawn
    | PublishedVersion
    | RetiredVersion
    | ArchiveAbandoned
    | ErasureAbandoned

  datatype Reason =
    | Given(text: string)
    | PublishedReplacement
    | PublishedRetired
    | ArchivedQuestion
    | AuthorErasure

  /** One ContentReview row; a missing actor is the SYSTEM actor. */
  datatype Review = Review(
    versionId: Id,
    questionId: Id,
    action: Action,
    fromState: Status,
    toState: Status,
    actor: Option<Account>,
    counterpart: Option<Account>,
    reason: Option<Reason>,
    comment: Option<string>,
    occurredAt: Time)

  datatype Command =
    | QuestionCreate
    | VersionCreate
    | VersionUpdate
    | ReviewRequest
    | ChangeRequest
    | Approval
    | ApprovalWithdrawal
    | Publication
    | Retirement
    | QuestionArchive
    | ReviewRequestBatch
    | ImportApply
    | ReportTriage
    | ReportResolution
    | ErasureAbandon

  datatype Field =
    | LifecycleStatus
    | VersionStatus
    | CurrentPublished
    | Level
    | Subject
    | QuestionType
    | Difficulty
    | Passage
    | QuestionText
    | ExplanationKo
    | ExplanationJa
    | Options
    | CorrectOption
    | Tags
    | AuthorTombstone
    | Assignee
    | ReportStatusField
    | Resolution
    | ImportItems

  /** One AdminAuditLog row; a missing actor is the SYSTEM actor. */
  datatype Audit = Audit(
    command: Command,
    target: Option<Id>,
    actor: Option<Account>,
    before: Option<nat>,
    after: Option<nat>,
    changed: seq<Field>)

  datatype ReportStatus = Open | Triaged | Resolved | Dismissed

  datatype Report = Report(
    questionId: Id,
    versionId: Id,
    status: ReportStatus,
    rowVersion: nat,
    reporter: Account,
    assignee: Option<Account>,
    resolutionReason: Option<string>,
    remediation: Option<Id>,
    resolvedAt: Option<Time>,
    description: Option<string>)

  datatype Role = Admin | Learner

  datatype AccountStatus = ActiveAccount | DeletionPending

  datatype User = User(role: Role, status: AccountStatus)

  /**
    * The tables. `erased` holds the ids of deleted users: ids are never reused.
    * `pinned` holds the versions a study session refers to.
    */
  datatype Db = Db(
    questions: map<Id, Question>,
    versions: map<Id, Version>,
    reviews: seq<Review>,
    audits: seq<Audit>,
    reports: map<Id, Report>,
    users: map<Id, User>,
    erased: set<Id>,
    pinned: set<Id>,
    tags: set<Id>)

  // ----- row level definitions

  predicate OpenStatus(s: Status) {
    s == Draft || s == InReview || s == ChangesRequested || s == Approved
  }

  predicate Editable(s: Status) {
    s == Draft || s == ChangesRequested
  }

  function FingerprintOf(c: Content): Fingerprint {
    Fingerprint(
      if c.correctOptionId in c.options then Some(c.options[c.correctOptionId].text.canonical) else None,
      set id | id in c.options :: c.options[id].text.canonical,
      if c.passage.Some? then Some(c.passage.value.canonical) else None,
      c.questionText.canonical,
      c.questionType,
      c.subject)
  }

  /** The complete content every committed version holds. */
  predicate Complete(c: Content) {
    && |c.options| == 4
    && (forall a, b | a in c.options && b in c.options && a != b ::
          && c.options[a].ordinal != c.options[b].ordinal
          && c.options[a].text.canonical != c.options[b].text.canonical)
    && (forall a | a in c.options :: 1 <= c.options[a].ordinal <= 4)
    && c.correctOptionId in c.options
    && 1 <= |c.tags| <= 12
  }

  function AdminAccount(actor: Id): Account {
    Account(Some(actor), actor, ActiveAdmin)
  }

  function AdminCreator(actor: Id): Creator {
    Creator(Some(actor), Some(actor), ActiveAdmin)
  }

  /** The author named by review evidence; a seed has none. */
  function AuthorSnapshot(c: Creator): Option<Account> {
    if c.actorId.Some? && c.standing != SystemSeed
    then Some(Account(c.userId, c.actorId.value, c.standing))
    else None
  }

  // ----- queries

  /** The actor of the latest APPROVED review of a version, in commit order. */
  function LatestApprover(reviews: seq<Review>, id: Id): Option<Account> {
    if |reviews| == 0 then None
    else
      var last := reviews[|reviews| - 1];
      if last.versionId == id && last.action == ApprovedVersion then last.actor
      else LatestApprover(reviews[..|reviews| - 1], id)
  }

  predicate HasOpenCandidate(db: Db, questionId: Id) {
    exists v | v in db.versions :: db.versions[v].questionId == questionId && OpenStatus(db.versions[v].status)
  }

  function OpenCandidates(db: Db, questionId: Id): set<Id> {
    set v | v in db.versions && db.versions[v].questionId == questionId && OpenStatus(db.versions[v].status)
  }

  ghost predicate IsMaximumNumber(db: Db, questionId: Id, m: nat) {
    && (forall v | v in db.versions && db.versions[v].questionId == questionId :: db.versions[v].number <= m)
    && (m == 0 || exists v | v in db.versions :: db.versions[v].questionId == questionId && db.versions[v].number == m)
  }

  predicate CrossQuestionDuplicate(db: Db, questionId: Id, f: Fingerprint) {
    exists v | v in db.versions :: FingerprintOf(db.versions[v].content) == f && db.versions[v].questionId != questionId
  }

  /** A question row joined with its open candidate flag. */
  datatype QuestionTarget = QuestionTarget(question: Question, maximum: nat, hasOpen: bool)

  /** A version row joined with its question, its pin and its latest approver. */
  datatype VersionTarget = VersionTarget(
    version: Version,
    question: Question,
    isPinned: bool,
    approver: Option<Account>)

  ghost predicate IsQuestionTarget(db: Db, id: Id, t: Option<QuestionTarget>) {
    if id in db.questions then
      && t.Some?
      && t.value.question == db.questions[id]
      && IsMaximumNumber(db, id, t.value.maximum)
      && t.value.hasOpen == HasOpenCandidate(db, id)
    else t.None?
  }

  function LoadVersionTarget(db: Db, id: Id): Option<VersionTarget> {
    if id in db.versions && db.versions[id].questionId in db.questions then
      Some(VersionTarget(
             db.versions[id],
             db.questions[db.versions[id].questionId],
             id in db.pinned,
             LatestApprover(db.reviews, id)))
    else None
  }

  /** The current and the open versions of a question. */
  function LoadLifecycleVersions(db: Db, questionId: Id): map<Id, Version> {
    if questionId in db.questions then
      map v | v in db.versions
              && db.versions[v].questionId == questionId
              && (db.questions[questionId].current == Some(v) || OpenStatus(db.versions[v].status))
        :: db.versions[v]
    else map[]
  }

  /** A report row joined with its question and its version. */
  datatype ReportTarget = ReportTarget(report: Report, question: Question, version: Version)

  function LoadReportTarget(db: Db, id: Id): Option<ReportTarget> {
    if id in db.reports && db.reports[id].questionId in db.questions && db.reports[id].versionId in db.versions
       && db.versions[db.reports[id].versionId].questionId == db.reports[id].questionId
    then Some(ReportTarget(db.reports[id], db.questions[db.reports[id].questionId],
                           db.versions[db.reports[id].versionId]))
    else None
  }
}
