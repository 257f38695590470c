/**
  * The two guards every admin transaction passes: begin, which locks the
  * referenced users and checks the actor, and arm, which locks every target and
  * compares it with the rows the command read before its transaction.
  */
module ContentArm {
  import opened Common
  import opened ContentTables

  datatype Failure =
    | ResourceNotFound
    | VersionConflict
    | InvalidStateTransition
    | Forbidden
    | SeparationOfDuties
    | VersionImmutable
    | DuplicateContent
    | ValidationError
    | AuthorityLost
    | UserUnavailable
    | BadManifest
    | QuestionChanged
    | VersionChanged
    | ReportChanged
    | RuleViolation
    | TagChanged
    | UsersNotExact
    | NotAuthor
    | KeyTaken

  type Outcome = Result<Db, Failure>

  datatype QuestionItem = QuestionItem(rowVersion: nat, state: Lifecycle)
  datatype VersionItem = VersionItem(rowVersion: nat, state: Status)
  datatype ReportItem = ReportItem(rowVersion: nat, state: ReportStatus)

  datatype Manifest = Manifest(
    questions: map<Id, QuestionItem>,
    versions: map<Id, VersionItem>,
    reports: map<Id, ReportItem>,
    tags: set<Id>)

  datatype Operation = Operation(actor: Id, command: Command, referenced: set<Id>)

  /** The actor is a live, active administrator. */
  predicate HasAuthority(db: Db, actor: Id) {
    actor in db.users && db.users[actor] == User(Admin, ActiveAccount)
  }

  function Begin(db: Db, op: Operation): Option<Failure> {
    if op.actor !in db.users then Some(AuthorityLost)
    else if |op.referenced| < 1 || |op.referenced| > 512 || op.actor !in op.referenced then Some(BadManifest)
    else if !(op.referenced <= db.users.Keys) then Some(UserUnavailable)
    else if !HasAuthority(db, op.actor) then Some(AuthorityLost)
    else None
  }

  predicate ShapeOk(command: Command, m: Manifest) {
    var q, v, r, t := |m.questions|, |m.versions|, |m.reports|, |m.tags|;
    && q <= 100 && r <= 100 && t <= 1200
    && match command
       case QuestionCreate => q == 0 && v == 0 && r == 0 && 1 <= t <= 12
       case VersionCreate => q == 1 && v == 0 && r == 0 && 1 <= t <= 12
       case VersionUpdate => q == 1 && v == 1 && r == 0 && 1 <= t <= 12
       case ReviewRequest | ChangeRequest | Approval | ApprovalWithdrawal | Retirement =>
         q == 1 && v == 1 && r == 0 && t == 0
       case Publication => q == 1 && 1 <= v <= 2 && r == 0 && t == 0
       case QuestionArchive => q == 1 && 0 <= v <= 2 && r == 0 && t == 0
       case ReviewRequestBatch => 1 <= q <= 20 && 1 <= v <= 20 && r == 0 && t == 0
       case ImportApply => q == 0 && v == 0 && r == 0 && 1 <= t
       case ReportTriage => q == 1 && v == 1 && r == 1 && t == 0
       case ReportResolution => q == 1 && 1 <= v <= 2 && r == 1 && t == 0
       case ErasureAbandon => false
  }

  predicate QuestionMatches(db: Db, id: Id, item: QuestionItem) {
    && id in db.questions
    && db.questions[id].rowVersion == item.rowVersion
    && db.questions[id].lifecycle == item.state
  }

  predicate VersionMatches(db: Db, m: Manifest, id: Id, item: VersionItem) {
    && id in db.versions
    && db.versions[id].rowVersion == item.rowVersion
    && db.versions[id].status == item.state
    && db.versions[id].questionId in m.questions
  }

  predicate ReportMatches(db: Db, m: Manifest, id: Id, item: ReportItem) {
    && id in db.reports
    && db.reports[id].rowVersion == item.rowVersion
    && db.reports[id].status == item.state
    && db.reports[id].questionId in m.questions
    && db.reports[id].versionId in m.versions
  }

  predicate TargetsMatch(db: Db, m: Manifest) {
    && (forall q | q in m.questions :: QuestionMatches(db, q, m.questions[q]))
    && (forall v | v in m.versions :: VersionMatches(db, m, v, m.versions[v]))
    && (forall r | r in m.reports :: ReportMatches(db, m, r, m.reports[r]))
  }

  predicate ActiveQuestionCommand(command: Command) {
    command in {VersionCreate, VersionUpdate, ReviewRequest, ChangeRequest, Approval, ApprovalWithdrawal,
                Publication, Retirement, QuestionArchive, ReviewRequestBatch}
  }

  /** The states the command accepts for each armed version. */
  predicate VersionStateOk(command: Command, s: Status) {
    match command
    case VersionUpdate | ReviewRequest | ReviewRequestBatch => Editable(s)
    case ChangeRequest | Approval => s == InReview
    case ApprovalWithdrawal => s == Approved
    case _ => true
  }

  /** A publication names its target and the exact current version, if any. */
  predicate PublicationExact(db: Db, m: Manifest)
    requires TargetsMatch(db, m)
  {
    forall q | q in m.questions ::
      var approved := set v | v in m.versions && db.versions[v].status == Approved;
      var published := set v | v in m.versions && db.versions[v].status == Published;
      var current := db.questions[q].current;
      && |approved| == 1
      && |published| == |m.versions| - 1
      && if current.None? then |m.versions| == 1
         else |m.versions| == 2 && current.value in m.versions && current.value in published
  }

  /** A retirement names the exact current version. */
  predicate RetirementExact(db: Db, m: Manifest)
    requires TargetsMatch(db, m)
  {
    forall q | q in m.questions ::
      var current := db.questions[q].current;
      current.Some? && current.value in m.versions && db.versions[current.value].status == Published
  }

  /** An archive names every open candidate and the current version, no more. */
  predicate ArchiveExact(db: Db, m: Manifest)
    requires TargetsMatch(db, m)
  {
    forall q | q in m.questions :: OptionSet(db.questions[q].current) + OpenCandidates(db, q) == m.versions.Keys
  }

  predicate BatchExact(db: Db, m: Manifest)
    requires TargetsMatch(db, m)
  {
    m.questions.Keys == set v | v in m.versions :: db.versions[v].questionId
  }

  predicate AggregateRulesOk(db: Db, command: Command, m: Manifest)
    requires TargetsMatch(db, m)
  {
    && (ActiveQuestionCommand(command) ==> forall q | q in m.questions :: db.questions[q].lifecycle == Active)
    && (command == VersionCreate ==> forall q | q in m.questions :: !HasOpenCandidate(db, q))
    && (forall v | v in m.versions :: VersionStateOk(command, db.versions[v].status))
    && (command == Publication ==> PublicationExact(db, m))
    && (command == Retirement ==> RetirementExact(db, m))
    && (command == QuestionArchive ==> ArchiveExact(db, m))
    && (command == ReviewRequestBatch ==> BatchExact(db, m))
    && (command == ReportTriage ==> forall r | r in m.reports :: db.reports[r].status == Open)
    && (command == ReportResolution ==> forall r | r in m.reports :: db.reports[r].status == Triaged)
  }

  predicate NamesApprover(command: Command, s: Status) {
    (command == ApprovalWithdrawal || command == Publication) && s == Approved
  }

  /** The live users the locked targets refer to. */
  function DerivedUsers(db: Db, op: Operation, m: Manifest): set<Id>
    requires TargetsMatch(db, m)
  {
    {op.actor}
    + (set q | q in m.questions && db.questions[q].creator.userId.Some? :: db.questions[q].creator.userId.value)
    + (set v | v in m.versions && db.versions[v].creator.userId.Some? :: db.versions[v].creator.userId.value)
    + (set v | v in m.versions && NamesApprover(op.command, db.versions[v].status)
               && LatestApprover(db.reviews, v).Some? && LatestApprover(db.reviews, v).value.userId.Some?
         :: LatestApprover(db.reviews, v).value.userId.value)
    + (set r | r in m.reports && db.reports[r].reporter.userId.Some? :: db.reports[r].reporter.userId.value)
    + (set r | r in m.reports && db.reports[r].assignee.Some? && db.reports[r].assignee.value.userId.Some?
         :: db.reports[r].assignee.value.userId.value)
  }

  /** The first violated rule, or None when the command may write. */
  function Arm(db: Db, op: Operation, m: Manifest): Option<Failure> {
    if !ShapeOk(op.command, m) then Some(BadManifest)
    else if !(forall q | q in m.questions :: QuestionMatches(db, q, m.questions[q])) then Some(QuestionChanged)
    else if !(forall v | v in m.versions :: VersionMatches(db, m, v, m.versions[v])) then Some(VersionChanged)
    else if !(forall r | r in m.reports :: ReportMatches(db, m, r, m.reports[r])) then Some(ReportChanged)
    else if !AggregateRulesOk(db, op.command, m) then Some(RuleViolation)
    else if !(m.tags <= db.tags) then Some(TagChanged)
    else if DerivedUsers(db, op, m) != op.referenced then Some(UsersNotExact)
    else None
  }
}
