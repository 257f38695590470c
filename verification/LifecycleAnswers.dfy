/**
  * What the lifecycle commands answer when nothing changed between their reads
  * and their commit, said on the rows alone: exactly when each commits, with
  * which failure it ends otherwise, and every row it leaves.
  */
module LifecycleAnswers {
  import opened Common
  import opened ContentTables
  import opened ContentArm
  import opened ContentCommands
  import opened ContentInvariant
  import opened ContentPreservation
  import opened AnswerGuards
  import opened ErasureOrder

  /** The rows of one committed command: only content rows change, and no row appears or goes. */
  ghost predicate SameKeys(db: Db, after: Db) {
    && after == db.(questions := after.questions, versions := after.versions, reviews := after.reviews,
                    audits := after.audits)
    && after.questions.Keys == db.questions.Keys && after.versions.Keys == db.versions.Keys
  }

  ghost predicate OnlyVersions(db: Db, after: Db, changed: set<Id>) {
    forall v | v in db.versions && v !in changed :: v in after.versions && after.versions[v] == db.versions[v]
  }

  ghost predicate OnlyQuestion(db: Db, after: Db, changed: Id) {
    forall q | q in db.questions && q != changed :: q in after.questions && after.questions[q] == db.questions[q]
  }

  /** An administrator as evidence names one that acts now. */
  function Actor(actor: Id): Option<Account> {
    Some(Account(Some(actor), actor, ActiveAdmin))
  }

  // ----- one version and its question

  lemma TargetIsThere(db: Db, id: Id)
    requires Inv(db)
    ensures LoadVersionTarget(db, id).Some? <==> id in db.versions
    ensures id in db.versions ==>
              && db.versions[id].questionId in db.questions
              && LoadVersionTarget(db, id).value ==
                 VersionTarget(db.versions[id], db.questions[db.versions[id].questionId], id in db.pinned,
                               LatestApprover(db.reviews, id))
  {
    hide Inv, LatestApprover;
    if id in db.versions {
      HomeOf(db, id);
    }
  }

  /** An archived question has retired versions only. */
  lemma OpenIsActive(db: Db, id: Id)
    requires Inv(db) && id in db.versions && db.versions[id].status != Retired
    ensures db.versions[id].questionId in db.questions && db.questions[db.versions[id].questionId].lifecycle == Active
  {
    hide Inv;
    HomeOf(db, id);
    assert Of(db.versions, id, db.versions[id].questionId);
  }

  lemma PublishedIsCurrent(db: Db, id: Id)
    requires Inv(db) && id in db.versions
    ensures db.versions[id].questionId in db.questions
    ensures db.versions[id].status == Published <==> db.questions[db.versions[id].questionId].current == Some(id)
  {
    hide Inv;
    HomeOf(db, id);
    assert Of(db.versions, id, db.versions[id].questionId);
  }

  /** The users of one version, its question and, where the command names it, its approver. */
  function VersionUsers(db: Db, command: Command, actor: Id, id: Id): set<Id>
    requires id in db.versions && db.versions[id].questionId in db.questions
  {
    {actor} + OptionSet(db.questions[db.versions[id].questionId].creator.userId)
    + OptionSet(db.versions[id].creator.userId)
    + if NamesApprover(command, db.versions[id].status) then ApproverUser(db, id) else {}
  }

  lemma SingleUsers(db: Db, op: Operation, id: Id, m: Manifest)
    requires id in db.versions && db.versions[id].questionId in db.questions
    requires TargetsMatch(db, m) && m.questions.Keys == {db.versions[id].questionId} && m.versions.Keys == {id}
             && m.reports == map[]
    ensures DerivedUsers(db, op, m) == VersionUsers(db, op.command, op.actor, id)
  {
    hide DerivedUsers, TargetsMatch, LatestApprover, Approvers, QuestionCreators, VersionCreators, NamesApprover,
         OptionSet, ApproverUser;
    DerivedParts(db, op, m);
    OneQuestionCreator(db, db.versions[id].questionId);
    OneVersionCreator(db, id);
    OneApprover(db, op.command, {id}, id);
  }

  /** The three sets of users a version can name. */
  lemma NamedUsers(db: Db, id: Id)
    requires Inv(db) && id in db.versions && db.versions[id].questionId in db.questions
    ensures var creators := OptionSet(db.questions[db.versions[id].questionId].creator.userId);
            creators <= db.users.Keys && |creators| <= 1
    ensures OptionSet(db.versions[id].creator.userId) <= db.users.Keys
    ensures |OptionSet(db.versions[id].creator.userId)| <= 1
    ensures ApproverUser(db, id) <= db.users.Keys && |ApproverUser(db, id)| <= 1
  {
    ReviewsAreLive(db);
    HomeOf(db, id);
    ApproverLive(db.users.Keys, db.erased, db.reviews, id);
    hide Inv, LatestApprover, ReviewsLive, VersionShape, QuestionShape, QuestionOk;
  }

  lemma ReviewsAreLive(db: Db)
    requires Inv(db)
    ensures ReviewsLive(db.users.Keys, db.erased, db.reviews)
  {
  }

  predicate SingleCommand(command: Command) {
    command in {ReviewRequest, ChangeRequest, Approval, ApprovalWithdrawal, Retirement}
  }

  /** What arming asks of the status of a command's one version. */
  predicate SingleStatus(command: Command, status: Status) {
    match command
    case ReviewRequest => status in {Draft, ChangesRequested}
    case ChangeRequest | Approval => status == InReview
    case ApprovalWithdrawal => status == Approved
    case _ => status == Published
  }

  /** The rules arming checks come down to the status of the version. */
  lemma SingleRules(db: Db, command: Command, id: Id, m: Manifest)
    requires id in db.versions && db.versions[id].questionId in db.questions && SingleCommand(command)
    requires TargetsMatch(db, m) && m.questions.Keys == {db.versions[id].questionId} && m.versions.Keys == {id}
             && m.reports == map[]
    requires db.versions[id].status != Retired ==> db.questions[db.versions[id].questionId].lifecycle == Active
    requires db.versions[id].status == Published <==> db.questions[db.versions[id].questionId].current == Some(id)
    ensures AggregateRulesOk(db, command, m) <==> SingleStatus(command, db.versions[id].status)
  {
    hide TargetsMatch;
    assert db.versions[id].questionId in m.questions && id in m.versions;
  }

  lemma SingleManifest(db: Db, id: Id, command: Command)
    requires id in db.versions && db.versions[id].questionId in db.questions && SingleCommand(command)
    ensures LoadVersionTarget(db, id).Some?
    ensures var m := SingleVersionManifest(id, LoadVersionTarget(db, id).value);
            && Current(db, m) && ShapeOk(command, m) && m.tags == {}
            && m.questions.Keys == {db.versions[id].questionId} && m.versions.Keys == {id} && m.reports == map[]
  {
    hide LatestApprover;
    var m := SingleVersionManifest(id, LoadVersionTarget(db, id).value);
    assert m.questions.Keys == {db.versions[id].questionId} && m.versions.Keys == {id};
    assert |m.questions| == |m.questions.Keys| && |m.versions| == |m.versions.Keys|;
  }

  lemma SingleArms(db: Db, op: Operation, id: Id)
    requires Inv(db) && id in db.versions && db.versions[id].questionId in db.questions && SingleCommand(op.command)
    requires LoadVersionTarget(db, id).Some?
    ensures var armed := Arm(db, op, SingleVersionManifest(id, LoadVersionTarget(db, id).value));
            && (!SingleStatus(op.command, db.versions[id].status) ==> armed == Some(RuleViolation))
            && (SingleStatus(op.command, db.versions[id].status) ==>
                  op.referenced == VersionUsers(db, op.command, op.actor, id) ==> armed.None?)
  {
    PublishedIsCurrent(db, id);
    if db.versions[id].status != Retired {
      OpenIsActive(db, id);
    }
    SingleManifest(db, id, op.command);
    hide Inv, LatestApprover, VersionUsers, LoadVersionTarget, Arm, DerivedUsers, ShapeOk, SingleVersionManifest,
         AggregateRulesOk, SingleStatus, TargetsMatch, Current;
    var m := SingleVersionManifest(id, LoadVersionTarget(db, id).value);
    ArmAnswers(db, op, m);
    SingleRules(db, op.command, id, m);
    SingleUsers(db, op, id, m);
  }

  // ----- review transitions

  /** The state a transition leaves, from the state it takes. */
  predicate Moves(operation: LifecycleOperation, was: Status, next: Status) {
    match operation
    case RequestContentReview => (was == Draft || was == ChangesRequested) && next == InReview
    case RequestQuestionChanges => was == InReview && next == ChangesRequested
    case ApproveQuestionVersion => was == InReview && next == Approved
    case WithdrawQuestionApproval => was == Approved && next == ChangesRequested
  }

  function CommandOf(operation: LifecycleOperation): (Command, Action) {
    match operation
    case RequestContentReview => (ReviewRequest, Requested)
    case RequestQuestionChanges => (ChangeRequest, RequestedChanges)
    case ApproveQuestionVersion => (Approval, ApprovedVersion)
    case WithdrawQuestionApproval => (ApprovalWithdrawal, ApprovalWithdrawn)
  }

  /** One version moves, with one review and one audit row about it. */
  ghost predicate VersionMoved(db: Db, after: Db, operation: LifecycleOperation, actor: Id, id: Id,
                               request: TransitionRequest, now: Time)
    requires id in db.versions
  {
    var was := db.versions[id];
    && SameKeys(db, after) && OnlyVersions(db, after, {id}) && after.questions == db.questions
    && Moves(operation, was.status, after.versions[id].status)
    && after.versions[id] == was.(status := after.versions[id].status, rowVersion := was.rowVersion + 1)
    && was.creator.userId.Some?
    && after.reviews == db.reviews
       + [Review(id, was.questionId, CommandOf(operation).1, was.status, after.versions[id].status,
                 Actor(actor),
                 if operation == RequestContentReview then None
                 else Some(Account(was.creator.userId, was.creator.userId.value, ActiveAdmin)),
                 request.reason, request.comment, now)]
    && after.audits == db.audits
       + [Audit(CommandOf(operation).0, Some(id), Actor(actor), Some(was.rowVersion), Some(was.rowVersion + 1),
                [VersionStatus])]
  }

  lemma OpenAuthor(db: Db, id: Id)
    requires Inv(db) && id in db.versions && OpenStatus(db.versions[id].status)
    ensures db.versions[id].creator.userId.Some? && db.versions[id].creator.actorId == db.versions[id].creator.userId
    ensures db.versions[id].creator.standing == ActiveAdmin
  {
    HomeOf(db, id);
    assert CandidateLive(db.users, db.versions[id]);
  }

  lemma TransitionNames(db: Db, operation: LifecycleOperation, actor: Id, id: Id)
    requires id in db.versions && db.versions[id].questionId in db.questions
    ensures TransitionReferenced(operation, actor, LoadVersionTarget(db, id)) ==
            {actor} + (OptionSet(db.questions[db.versions[id].questionId].creator.userId)
                       + OptionSet(db.versions[id].creator.userId)
                       + if operation == WithdrawQuestionApproval then ApproverUser(db, id) else {})
  {
    hide LatestApprover, OptionSet;
  }

  lemma TransitionNamesFew(db: Db, operation: LifecycleOperation, actor: Id, id: Id)
    requires Inv(db) && id in db.versions && db.versions[id].questionId in db.questions
    ensures FewLive(db, actor, TransitionReferenced(operation, actor, LoadVersionTarget(db, id)))
  {
    hide *;
    NamedUsers(db, id);
    TransitionNames(db, operation, actor, id);
    FewUsers(db, actor, OptionSet(db.questions[db.versions[id].questionId].creator.userId),
             OptionSet(db.versions[id].creator.userId),
             if operation == WithdrawQuestionApproval then ApproverUser(db, id) else {});
  }

  lemma TransitionNamesAll(db: Db, operation: LifecycleOperation, actor: Id, id: Id)
    requires id in db.versions && db.versions[id].questionId in db.questions
    requires SingleStatus(CommandOf(operation).0, db.versions[id].status)
    ensures TransitionReferenced(operation, actor, LoadVersionTarget(db, id))
         == VersionUsers(db, CommandOf(operation).0, actor, id)
  {
    hide LatestApprover, OptionSet;
  }

  lemma TransitionBegins(db: Db, operation: LifecycleOperation, actor: Id, id: Id)
    requires Inv(db)
    ensures Begin(db, Operation(actor, Config(operation).command,
                                TransitionReferenced(operation, actor, LoadVersionTarget(db, id))))
         == if HasAuthority(db, actor) then None else Some(AuthorityLost)
  {
    hide Inv, Begin, HasAuthority, LatestApprover;
    TargetIsThere(db, id);
    if id in db.versions {
      TransitionNamesFew(db, operation, actor, id);
    }
    BeginAnswers(db, Operation(actor, Config(operation).command,
                               TransitionReferenced(operation, actor, LoadVersionTarget(db, id))));
  }

  lemma StatusTaken(operation: LifecycleOperation, s: Status)
    ensures Config(operation).command == CommandOf(operation).0 && SingleCommand(CommandOf(operation).0)
    ensures s in Config(operation).fromStates <==> SingleStatus(CommandOf(operation).0, s)
  {
  }

  lemma TransitionArms(db: Db, operation: LifecycleOperation, actor: Id, id: Id)
    requires Inv(db) && id in db.versions && LoadVersionTarget(db, id).Some?
    ensures var op := Operation(actor, Config(operation).command,
                                TransitionReferenced(operation, actor, LoadVersionTarget(db, id)));
            Arm(db, op, SingleVersionManifest(id, LoadVersionTarget(db, id).value))
            == if db.versions[id].status in Config(operation).fromStates then None else Some(RuleViolation)
  {
    hide *;
    TargetIsThere(db, id);
    StatusTaken(operation, db.versions[id].status);
    if SingleStatus(CommandOf(operation).0, db.versions[id].status) {
      TransitionNamesAll(db, operation, actor, id);
    }
    SingleArms(db, Operation(actor, Config(operation).command,
                             TransitionReferenced(operation, actor, LoadVersionTarget(db, id))), id);
  }

  lemma TransitionWrites(db: Db, operation: LifecycleOperation, actor: Id, id: Id, request: TransitionRequest,
                         now: Time)
    requires Inv(db) && id in db.versions && db.versions[id].status in Config(operation).fromStates
    ensures VersionMoved(db, TransitionEffect(db, Config(operation), actor, id, db.versions[id], request, now),
                         operation, actor, id, request, now)
    ensures AuthorSnapshot(db.versions[id].creator).Some?
    ensures operation == RequestContentReview && db.versions[id].creator.userId == Some(actor) ==>
              RequestAuthor(db, id, actor)
  {
    hide Inv;
    OpenAuthor(db, id);
  }

  /**
    * Every answer of a transition on current rows. It commits exactly when an
    * active administrator names the row version of a version in a state the
    * transition takes, where only the author requests a review and only another
    * administrator asks for changes.
    */
  lemma TransitionAnswers(db: Db, operation: LifecycleOperation, actor: Id, id: Id, request: TransitionRequest,
                          now: Time)
    requires Inv(db)
    ensures var r := CommitTransition(db, operation, actor, id, request, LoadVersionTarget(db, id), now);
            if !(actor in db.users && db.users[actor] == User(Admin, ActiveAccount)) then r == Err(AuthorityLost)
            else if id !in db.versions then r == Err(ResourceNotFound)
            else if operation == RequestContentReview && db.versions[id].creator.userId != Some(actor) then
              r == Err(Forbidden)
            else if db.versions[id].rowVersion != request.expected then r == Err(VersionConflict)
            else if forall next :: !Moves(operation, db.versions[id].status, next) then r == Err(RuleViolation)
            else if operation == RequestQuestionChanges && db.versions[id].creator.userId == Some(actor) then
              r == Err(SeparationOfDuties)
            else r.Ok? && VersionMoved(db, r.value, operation, actor, id, request, now)
  {
    hide Inv, Arm, Begin, TransitionEffect, VersionMoved, AuthorSnapshot, RequestAuthor, TransitionReferenced,
         SingleVersionManifest, LoadVersionTarget;
    TargetIsThere(db, id);
    TransitionBegins(db, operation, actor, id);
    if HasAuthority(db, actor) && id in db.versions {
      TransitionArms(db, operation, actor, id);
      MovesFrom(operation, db.versions[id].status);
      if db.versions[id].status in Config(operation).fromStates {
        OpenIsActive(db, id);
        TransitionWrites(db, operation, actor, id, request, now);
      }
    }
  }

  lemma MovesFrom(operation: LifecycleOperation, was: Status)
    ensures was in Config(operation).fromStates <==> exists next :: Moves(operation, was, next)
  {
    assert was in Config(operation).fromStates ==> Moves(operation, was, Config(operation).toState);
  }

  // ----- retirement

  ghost predicate QuestionWritten(db: Db, after: Db, q: Id, row: Question) {
    q in after.questions && after.questions[q] == row && OnlyQuestion(db, after, q)
  }

  ghost predicate VersionWritten(after: Db, v: Id, row: Version) {
    v in after.versions && after.versions[v] == row
  }

  /** The row of a version that was current and is so no more. */
  function Superseded(was: Version, now: Time): Version {
    was.(status := Retired, retirement := Some(PublishedRetirement), retiredAt := Some(now),
         rowVersion := was.rowVersion + 1)
  }

  /** The current version is retired and its question has none. */
  ghost predicate VersionRetired(db: Db, after: Db, actor: Id, id: Id, now: Time)
    requires id in db.versions && db.versions[id].questionId in db.questions
  {
    var was, q := db.versions[id], db.versions[id].questionId;
    && SameKeys(db, after) && OnlyVersions(db, after, {id})
    && VersionWritten(after, id, Superseded(was, now))
    && QuestionWritten(db, after, q, db.questions[q].(current := None, rowVersion := db.questions[q].rowVersion + 1))
    && after.reviews == db.reviews
       + [Review(id, q, RetiredVersion, Published, Retired, Actor(actor), None, Some(PublishedRetired), None, now)]
    && after.audits == db.audits
       + [Audit(Retirement, Some(id), Actor(actor), Some(was.rowVersion), Some(was.rowVersion + 1),
                [VersionStatus, CurrentPublished])]
  }

  function CreatorsOf(db: Db, id: Id): set<Id>
    requires id in db.versions && db.versions[id].questionId in db.questions
  {
    OptionSet(db.questions[db.versions[id].questionId].creator.userId) + OptionSet(db.versions[id].creator.userId)
  }

  lemma RetireNames(db: Db, actor: Id, id: Id)
    requires Inv(db) && id in db.versions && db.versions[id].questionId in db.questions
    ensures FewLive(db, actor, {actor} + CreatorsOf(db, id))
    ensures {actor} + CreatorsOf(db, id) == VersionUsers(db, Retirement, actor, id)
  {
    hide Inv, OptionSet, FewLive, ApproverUser, LatestApprover;
    NamedUsers(db, id);
    var a := OptionSet(db.questions[db.versions[id].questionId].creator.userId);
    var b := OptionSet(db.versions[id].creator.userId);
    FewUsers(db, actor, a, b, {});
    assert {actor} + a + b + {} == {actor} + (a + b);
  }

  lemma RetireGuards(db: Db, actor: Id, id: Id)
    requires Inv(db) && id in db.versions && db.versions[id].questionId in db.questions
    requires LoadVersionTarget(db, id).Some?
    ensures var op := Operation(actor, Retirement, {actor} + CreatorsOf(db, id));
            && Begin(db, op) == (if HasAuthority(db, actor) then None else Some(AuthorityLost))
            && Arm(db, op, SingleVersionManifest(id, LoadVersionTarget(db, id).value))
               == if db.versions[id].status == Published then None else Some(RuleViolation)
  {
    hide Inv, Arm, Begin, LoadVersionTarget, SingleVersionManifest, HasAuthority, FewLive, CreatorsOf, VersionUsers;
    RetireNames(db, actor, id);
    BeginAnswers(db, Operation(actor, Retirement, {actor} + CreatorsOf(db, id)));
    SingleArms(db, Operation(actor, Retirement, {actor} + CreatorsOf(db, id)), id);
  }

  lemma RetireWrites(db: Db, actor: Id, id: Id, now: Time)
    requires id in db.versions && db.versions[id].questionId in db.questions
    ensures VersionRetired(db, RetireEffect(db, actor, id, db.versions[id].questionId, db.versions[id].rowVersion,
                                            db.questions[db.versions[id].questionId].rowVersion, now),
                           actor, id, now)
  {
  }

  lemma NobodyBegins(db: Db, actor: Id, command: Command)
    ensures Begin(db, Operation(actor, command, {actor})) == if HasAuthority(db, actor) then None
                                                             else Some(AuthorityLost)
  {
    BeginAnswers(db, Operation(actor, command, {actor}));
  }

  /**
    * Every answer of a retirement on current rows: it commits exactly when an
    * active administrator names both row versions of a published version.
    */
  lemma RetireAnswers(db: Db, actor: Id, id: Id, expectedQuestion: nat, expected: nat, now: Time)
    requires Inv(db)
    ensures id in db.versions ==> db.versions[id].questionId in db.questions
    ensures var r := CommitRetire(db, actor, id, expectedQuestion, expected, LoadVersionTarget(db, id), now);
            if !(actor in db.users && db.users[actor] == User(Admin, ActiveAccount)) then r == Err(AuthorityLost)
            else if id !in db.versions then r == Err(ResourceNotFound)
            else if db.questions[db.versions[id].questionId].rowVersion != expectedQuestion
                    || db.versions[id].rowVersion != expected then r == Err(VersionConflict)
            else if db.versions[id].status != Published then r == Err(RuleViolation)
            else r.Ok? && VersionRetired(db, r.value, actor, id, now)
  {
    hide Inv, Arm, Begin, SingleVersionManifest, LatestApprover, LoadVersionTarget, OptionSet, RetireEffect,
         VersionRetired;
    TargetIsThere(db, id);
    if id in db.versions {
      PublishedIsCurrent(db, id);
      RetireGuards(db, actor, id);
      RetireWrites(db, actor, id, now);
      if db.versions[id].status == Published {
        OpenIsActive(db, id);
      }
    } else {
      NobodyBegins(db, actor, Retirement);
      assert {actor} + {} == {actor};
    }
  }

  // ----- the versions a publication or an archive locks

  lemma CurrentIsClosed(db: Db, q: Id)
    requires q in db.questions && QuestionOk(db.versions, q, db.questions[q])
    ensures forall v | v in OptionSet(db.questions[q].current) ::
              && v in db.versions && db.versions[v].questionId == q && db.versions[v].status == Published
              && v !in OpenCandidates(db, q)
    ensures |OpenCandidates(db, q)| <= 1 && |OptionSet(db.questions[q].current)| <= 1
  {
    hide NumberingOk, ArchiveOk;
    var open := OpenCandidates(db, q);
    forall v | v in OptionSet(db.questions[q].current) ensures v in db.versions && db.versions[v].status == Published {
      assert Of(db.versions, v, q);
    }
    forall v, w | v in open && w in open ensures v == w {
      assert OpenOf(db.versions, v, q) && OpenOf(db.versions, w, q);
    }
    AtMostOne(open);
  }

  lemma LockedKeys(db: Db, q: Id)
    requires q in db.questions
    requires forall v | v in OptionSet(db.questions[q].current) :: v in db.versions && db.versions[v].questionId == q
    ensures LoadLifecycleVersions(db, q).Keys == OptionSet(db.questions[q].current) + OpenCandidates(db, q)
  {
  }

  /** The current version and the open one: at most two rows. */
  lemma LockedVersions(db: Db, q: Id)
    requires Inv(db) && q in db.questions
    ensures var rows := LoadLifecycleVersions(db, q);
            && rows.Keys == OptionSet(db.questions[q].current) + OpenCandidates(db, q)
            && (forall v | v in rows :: v in db.versions && rows[v] == db.versions[v] && rows[v].questionId == q)
            && OptionSet(db.questions[q].current) !! OpenCandidates(db, q)
            && |OpenCandidates(db, q)| <= 1
            && |rows| == |OptionSet(db.questions[q].current)| + |OpenCandidates(db, q)| <= 2
  {
    hide Inv, QuestionOk, OptionSet, OpenCandidates, VersionsShaped, QuestionShape;
    QuestionLive(db, q);
    CurrentIsClosed(db, q);
    LockedKeys(db, q);
    var rows := LoadLifecycleVersions(db, q);
    assert |rows| == |rows.Keys|;
  }

  lemma AtMostOne(s: set<Id>)
    requires forall v, w | v in s && w in s :: v == w
    ensures |s| <= 1
  {
    if s != {} {
      var v :| v in s;
      assert s == {v};
    }
  }

  lemma OpenIsTheCandidate(db: Db, id: Id)
    requires Inv(db) && id in db.versions && OpenStatus(db.versions[id].status)
    ensures db.versions[id].questionId in db.questions
    ensures OpenCandidates(db, db.versions[id].questionId) == {id}
  {
    hide Inv;
    HomeOf(db, id);
    var q := db.versions[id].questionId;
    forall v | v in OpenCandidates(db, q) ensures v == id {
      assert OpenOf(db.versions, v, q) && OpenOf(db.versions, id, q);
    }
  }

  // ----- publication

  /** A version reaches APPROVED only by an approval, which names its approver. */
  lemma {:induction false} ApprovalIsNamed(reviews: seq<Review>, id: Id, start: Status)
    requires forall i | 0 <= i < |reviews| :: LegalReview(reviews[i])
    requires start != Approved && Replay(reviews, id, start) == Some(Approved)
    ensures LatestApprover(reviews, id).Some?
    decreases |reviews|
  {
    var n := |reviews| - 1;
    assert LegalReview(reviews[n]);
    if reviews[n].versionId != id {
      ApprovalIsNamed(reviews[..n], id, start);
    }
  }

  lemma ApproverIsThere(db: Db, id: Id)
    requires Inv(db) && id in db.versions && db.versions[id].status == Approved
    ensures LatestApprover(db.reviews, id).Some?
  {
    hide LegalReview, LatestApprover, Replay;
    assert ReplayOk(db.reviews, id, db.versions[id]);
    assert forall i | 0 <= i < |db.reviews| :: LegalReview(db.reviews[i]);
    ApprovalIsNamed(db.reviews, id, BirthStatus(db.versions[id].creator));
  }

  lemma PublishNames(db: Db, actor: Id, id: Id)
    requires Inv(db) && id in db.versions && db.versions[id].questionId in db.questions
    ensures FewLive(db, actor, PublishReferenced(actor, LoadVersionTarget(db, id),
                                                 LoadLifecycleVersions(db, db.versions[id].questionId)))
  {
    hide *;
    var q := db.versions[id].questionId;
    var rows := LoadLifecycleVersions(db, q);
    LockedVersions(db, q);
    CreatorsBounded(rows);
    CreatorsLive(db, rows);
    NamedUsers(db, id);
    TargetIsThere(db, id);
    PublishNamesThese(db, actor, id, rows);
    FewCreators(db, actor, OptionSet(db.questions[q].creator.userId), CreatorUsers(rows), ApproverUser(db, id));
  }

  lemma PublishNamesThese(db: Db, actor: Id, id: Id, rows: map<Id, Version>)
    requires id in db.versions && db.versions[id].questionId in db.questions
    ensures PublishReferenced(actor, LoadVersionTarget(db, id), rows)
         == {actor} + CreatorUsers(rows)
            + (OptionSet(db.questions[db.versions[id].questionId].creator.userId) + ApproverUser(db, id))
  {
    hide LatestApprover, OptionSet, CreatorUsers;
  }

  /** The rows of a publication: its target and the version it replaces. */
  ghost predicate Publishable(db: Db, id: Id, rows: map<Id, Version>) {
    && id in db.versions && db.versions[id].status == Approved && db.versions[id].questionId in db.questions
    && var q := db.versions[id].questionId;
       && db.questions[q].lifecycle == Active && db.questions[q].current != Some(id)
       && rows.Keys == {id} + OptionSet(db.questions[q].current) <= db.versions.Keys
       && (forall v | v in rows :: rows[v] == db.versions[v] && rows[v].questionId == q)
       && (forall v | v in rows && v != id :: rows[v].status == Published)
       && |rows| == 1 + |OptionSet(db.questions[q].current)|
  }

  lemma ApprovedIsPublishable(db: Db, id: Id)
    requires Inv(db) && id in db.versions && db.versions[id].status == Approved
    ensures Publishable(db, id, LoadLifecycleVersions(db, db.versions[id].questionId))
  {
    hide Inv, LoadLifecycleVersions, VersionsShaped, QuestionOk, QuestionShape;
    OpenIsActive(db, id);
    OpenIsTheCandidate(db, id);
    var q := db.versions[id].questionId;
    LockedVersions(db, q);
    QuestionLive(db, q);
    CurrentIsClosed(db, q);
  }

  lemma PublishManifestFits(db: Db, t: VersionTarget, id: Id, rows: map<Id, Version>)
    requires Publishable(db, id, rows)
    requires t.version == db.versions[id] && t.question == db.questions[db.versions[id].questionId]
    ensures var m := PublishManifest(t, rows);
            && Current(db, m) && ShapeOk(Publication, m) && m.tags == {} && m.reports == map[]
            && m.questions.Keys == {db.versions[id].questionId} && m.versions.Keys == rows.Keys
  {
    var m := PublishManifest(t, rows);
    assert m.questions.Keys == {db.versions[id].questionId} && m.versions.Keys == rows.Keys;
    assert |m.questions| == |m.questions.Keys| && |m.versions| == |m.versions.Keys| && |rows| == |rows.Keys|;
  }

  lemma PublishRules(db: Db, id: Id, rows: map<Id, Version>, m: Manifest)
    requires Publishable(db, id, rows) && TargetsMatch(db, m)
    requires m.questions.Keys == {db.versions[id].questionId} && m.versions.Keys == rows.Keys && m.reports == map[]
    ensures AggregateRulesOk(db, Publication, m)
  {
    hide TargetsMatch;
    PublishSets(db, id, rows, m);
    var q := db.versions[id].questionId;
    assert q in m.questions;
    assert PublicationExact(db, m);
  }

  /** Of the rows of a publication its target is the approved one, and any other is the current one. */
  lemma PublishSets(db: Db, id: Id, rows: map<Id, Version>, m: Manifest)
    requires Publishable(db, id, rows) && m.versions.Keys == rows.Keys
    ensures (set v | v in m.versions && db.versions[v].status == Approved) == {id}
    ensures (set v | v in m.versions && db.versions[v].status == Published)
         == OptionSet(db.questions[db.versions[id].questionId].current)
    ensures |m.versions| == 1 + |OptionSet(db.questions[db.versions[id].questionId].current)|
  {
    var q := db.versions[id].questionId;
    var approved := set v | v in m.versions && db.versions[v].status == Approved;
    var published := set v | v in m.versions && db.versions[v].status == Published;
    assert approved == {id};
    assert published == OptionSet(db.questions[q].current);
    assert |m.versions| == |m.versions.Keys| && |rows| == |rows.Keys|;
  }

  lemma PublishUsers(db: Db, op: Operation, t: VersionTarget, id: Id, rows: map<Id, Version>, m: Manifest)
    requires Publishable(db, id, rows) && TargetsMatch(db, m) && op.command == Publication
    requires t.question == db.questions[db.versions[id].questionId] && t.approver == LatestApprover(db.reviews, id)
    requires m.questions.Keys == {db.versions[id].questionId} && m.versions.Keys == rows.Keys && m.reports == map[]
    ensures DerivedUsers(db, op, m) == PublishReferenced(op.actor, Some(t), rows)
  {
    hide DerivedUsers, TargetsMatch, LatestApprover, Approvers, QuestionCreators, VersionCreators, OptionSet,
         CreatorUsers, Publishable;
    DerivedParts(db, op, m);
    PublishCreators(db, id, rows);
    OneQuestionCreator(db, db.versions[id].questionId);
  }

  lemma PublishCreators(db: Db, id: Id, rows: map<Id, Version>)
    requires Publishable(db, id, rows)
    ensures id in db.versions && db.versions[id].questionId in db.questions
    ensures VersionCreators(db, rows.Keys) == CreatorUsers(rows)
    ensures Approvers(db, Publication, rows.Keys) == ApproverUser(db, id)
  {
    hide LatestApprover;
    OneApprover(db, Publication, rows.Keys, id);
  }

  lemma PublishGuards(db: Db, actor: Id, id: Id, t: VersionTarget, rows: map<Id, Version>)
    requires Publishable(db, id, rows)
    requires t == VersionTarget(db.versions[id], db.questions[db.versions[id].questionId], t.isPinned,
                                LatestApprover(db.reviews, id))
    ensures Arm(db, Operation(actor, Publication, PublishReferenced(actor, Some(t), rows)),
                PublishManifest(t, rows)).None?
  {
    hide Arm, Publishable, PublishReferenced, LatestApprover, PublishManifest, ShapeOk, AggregateRulesOk, DerivedUsers,
         TargetsMatch, Current;
    var op := Operation(actor, Publication, PublishReferenced(actor, Some(t), rows));
    var m := PublishManifest(t, rows);
    PublishManifestFits(db, t, id, rows);
    ArmAnswers(db, op, m);
    PublishRules(db, id, rows, m);
    PublishUsers(db, op, t, id, rows, m);
  }

  /** The target is current, and the version that was current before is superseded. */
  ghost predicate VersionPublished(db: Db, after: Db, actor: Id, id: Id, now: Time)
    requires id in db.versions && db.versions[id].questionId in db.questions
  {
    var was, q := db.versions[id], db.versions[id].questionId;
    var current := db.questions[q].current;
    && SameKeys(db, after) && OnlyVersions(db, after, {id} + OptionSet(current))
    && VersionWritten(after, id, was.(status := Published, publishedAt := Some(now), rowVersion := was.rowVersion + 1))
    && (current.Some? ==>
          && current.value in db.versions && current.value != id
          && VersionWritten(after, current.value, Superseded(db.versions[current.value], now)))
    && QuestionWritten(db, after, q,
                       db.questions[q].(current := Some(id), rowVersion := db.questions[q].rowVersion + 1))
    && LatestApprover(db.reviews, id).Some?
    && after.reviews == db.reviews
       + (if current.None? then []
          else [Review(current.value, q, RetiredVersion, Published, Retired, Actor(actor), None,
                       Some(PublishedReplacement), None, now)])
       + [Review(id, q, PublishedVersion, Approved, Published, Actor(actor), LatestApprover(db.reviews, id), None, None,
                 now)]
    && after.audits == db.audits
       + [Audit(Publication, Some(id), Actor(actor), Some(was.rowVersion), Some(was.rowVersion + 1),
                [VersionStatus, CurrentPublished])]
  }

  lemma PublishWrites(db: Db, actor: Id, id: Id, current: Option<Id>, approver: Account, now: Time)
    requires id in db.versions && db.versions[id].questionId in db.questions
    requires current == db.questions[db.versions[id].questionId].current
    requires current.Some? ==> current.value in db.versions && current.value != id
    requires LatestApprover(db.reviews, id) == Some(approver) && LifecycleShape(db.versions[id])
    requires OpenStatus(db.versions[id].status)
    ensures VersionPublished(db, PublishEffect(db, actor, id, db.versions[id].questionId, current,
                                               if current.Some? then db.versions[current.value].rowVersion else 0,
                                               db.versions[id].rowVersion,
                                               db.questions[db.versions[id].questionId].rowVersion, approver, now),
                             actor, id, now)
  {
    hide LatestApprover;
    if current.Some? {
      assert (db.reviews + [RetiredReview(current.value, db.versions[id].questionId, actor, PublishedReplacement, now)])
             == db.reviews + [Review(current.value, db.versions[id].questionId, RetiredVersion, Published, Retired,
                                     Actor(actor), None, Some(PublishedReplacement), None, now)];
    } else {
      assert db.reviews + [] == db.reviews;
    }
  }

  /** With both guards passed, a publication of the rows it holds writes. */
  lemma PublishSteps(db: Db, actor: Id, id: Id, t: VersionTarget, rows: map<Id, Version>, now: Time)
    requires Publishable(db, id, rows) && t.approver.Some? && AuthorSnapshot(db.versions[id].creator).Some?
    requires t == VersionTarget(db.versions[id], db.questions[db.versions[id].questionId], t.isPinned, t.approver)
    requires Begin(db, Operation(actor, Publication, PublishReferenced(actor, Some(t), rows))).None?
    requires Arm(db, Operation(actor, Publication, PublishReferenced(actor, Some(t), rows)),
                 PublishManifest(t, rows)).None?
    requires !CrossQuestionDuplicate(db, db.versions[id].questionId, FingerprintOf(db.versions[id].content))
    ensures var current := db.questions[db.versions[id].questionId].current;
            && (current.Some? ==> current.value in db.versions && current.value != id)
            && CommitPublish(db, actor, id, t.question.rowVersion, t.version.rowVersion, Some(t), rows, now)
               == Ok(PublishEffect(db, actor, id, db.versions[id].questionId, current,
                                   if current.Some? then db.versions[current.value].rowVersion else 0,
                                   t.version.rowVersion, t.question.rowVersion, t.approver.value, now))
  {
    hide Arm, Begin, PublishManifest, PublishReferenced, PublishEffect, CrossQuestionDuplicate, FingerprintOf,
         AuthorSnapshot;
    assert PreviousCurrent(t, rows) == t.question.current;
  }

  lemma PublishCommits(db: Db, actor: Id, id: Id, now: Time)
    requires Inv(db) && HasAuthority(db, actor) && id in db.versions && db.versions[id].status == Approved
    ensures db.versions[id].questionId in db.questions
    ensures var q := db.versions[id].questionId;
            var r := CommitPublish(db, actor, id, db.questions[q].rowVersion, db.versions[id].rowVersion,
                                   LoadVersionTarget(db, id), LoadLifecycleVersions(db, q), now);
            r.Ok? && VersionPublished(db, r.value, actor, id, now)
  {
    hide Inv, Arm, Begin, LoadVersionTarget, LoadLifecycleVersions, LatestApprover, PublishManifest, PublishReferenced,
         PublishEffect, VersionPublished, CrossQuestionDuplicate, FingerprintOf, CommitPublish, Publishable, FewLive,
         VersionShape, QuestionShape, QuestionOk, CreatorLive;
    TargetIsThere(db, id);
    HomeOf(db, id);
    var q := db.versions[id].questionId;
    var t, rows := LoadVersionTarget(db, id).value, LoadLifecycleVersions(db, q);
    ApprovedIsPublishable(db, id);
    ApproverIsThere(db, id);
    OpenAuthor(db, id);
    OpenShape(db, id);
    PublishNames(db, actor, id);
    NotDuplicated(db, id);
    BeginAnswers(db, Operation(actor, Publication, PublishReferenced(actor, Some(t), rows)));
    PublishGuards(db, actor, id, t, rows);
    PublishSteps(db, actor, id, t, rows, now);
    PublishWrites(db, actor, id, db.questions[q].current, t.approver.value, now);
  }

  lemma OpenShape(db: Db, id: Id)
    requires Inv(db) && id in db.versions
    ensures LifecycleShape(db.versions[id])
  {
    hide Inv;
    HomeOf(db, id);
  }

  lemma NotDuplicated(db: Db, id: Id)
    requires Inv(db) && id in db.versions
    ensures !CrossQuestionDuplicate(db, db.versions[id].questionId, FingerprintOf(db.versions[id].content))
  {
    hide FingerprintOf;
    forall v | v in db.versions && FingerprintOf(db.versions[v].content) == FingerprintOf(db.versions[id].content)
      ensures db.versions[v].questionId == db.versions[id].questionId
    {
      assert Apart(db.versions[v], db.versions[id]);
    }
  }

  lemma LockedIsCurrent(db: Db, t: VersionTarget, q: Id, rows: map<Id, Version>)
    requires q in db.questions && t.version.questionId == q && t.question == db.questions[q]
    requires forall v | v in rows :: v in db.versions && rows[v] == db.versions[v] && rows[v].questionId == q
    ensures Current(db, PublishManifest(t, rows)) && PublishManifest(t, rows).tags == {}
  {
  }

  /** Arming fresh rows for a publication of any version: it names no changed row. */
  lemma PublishArmFails(db: Db, actor: Id, id: Id, now: Time)
    requires Inv(db) && id in db.versions && db.versions[id].status != Approved
    requires LoadVersionTarget(db, id).Some?
    ensures var t := LoadVersionTarget(db, id);
            var rows := LoadLifecycleVersions(db, db.versions[id].questionId);
            var armed := Arm(db, Operation(actor, Publication, PublishReferenced(actor, t, rows)),
                             PublishManifest(t.value, rows));
            armed in {None, Some(BadManifest), Some(RuleViolation), Some(UsersNotExact)}
  {
    hide Inv, Arm, LatestApprover, PublishManifest, PublishReferenced, LoadLifecycleVersions, ShapeOk, TargetsMatch,
         AggregateRulesOk, DerivedUsers, Current;
    TargetIsThere(db, id);
    var q := db.versions[id].questionId;
    var t, rows := LoadVersionTarget(db, id), LoadLifecycleVersions(db, q);
    LockedVersions(db, q);
    LockedIsCurrent(db, t.value, q, rows);
    var op, m := Operation(actor, Publication, PublishReferenced(actor, t, rows)), PublishManifest(t.value, rows);
    if ShapeOk(op.command, m) {
      ArmAnswers(db, op, m);
    } else {
      ShapeComesFirst(db, op, m);
    }
  }

  lemma ShapeComesFirst(db: Db, op: Operation, m: Manifest)
    requires !ShapeOk(op.command, m)
    ensures Arm(db, op, m) == Some(BadManifest)
  {
  }

  /** The failures of a publication whose target is not approved. */
  lemma PublishRefuses(db: Db, actor: Id, id: Id, now: Time)
    requires Inv(db) && HasAuthority(db, actor) && id in db.versions && db.versions[id].status != Approved
    ensures db.versions[id].questionId in db.questions
    ensures var q := db.versions[id].questionId;
            var r := CommitPublish(db, actor, id, db.questions[q].rowVersion, db.versions[id].rowVersion,
                                   LoadVersionTarget(db, id), LoadLifecycleVersions(db, q), now);
            r.Err? && r.error in {BadManifest, RuleViolation, UsersNotExact, InvalidStateTransition}
  {
    hide Inv, Arm, Begin, LoadLifecycleVersions, LatestApprover, PublishManifest, PublishReferenced, PublishEffect,
         CrossQuestionDuplicate, FingerprintOf, FewLive, HasAuthority;
    TargetIsThere(db, id);
    var q := db.versions[id].questionId;
    var t, rows := LoadVersionTarget(db, id), LoadLifecycleVersions(db, q);
    PublishNames(db, actor, id);
    BeginAnswers(db, Operation(actor, Publication, PublishReferenced(actor, t, rows)));
    PublishArmFails(db, actor, id, now);
  }

  /**
    * Every answer of a publication on current rows: it commits exactly when an
    * active administrator names both row versions of an approved version. Then the
    * question is active, the author and an approver are known and no other question
    * has the content; whether there is a current version makes no difference.
    */
  lemma PublishAnswers(db: Db, actor: Id, id: Id, expectedQuestion: nat, expected: nat, now: Time)
    requires Inv(db)
    ensures id in db.versions ==> db.versions[id].questionId in db.questions
    ensures var rows := if id in db.versions then LoadLifecycleVersions(db, db.versions[id].questionId) else map[];
            var r := CommitPublish(db, actor, id, expectedQuestion, expected, LoadVersionTarget(db, id), rows, now);
            if !(actor in db.users && db.users[actor] == User(Admin, ActiveAccount)) then r == Err(AuthorityLost)
            else if id !in db.versions then r == Err(ResourceNotFound)
            else if db.questions[db.versions[id].questionId].rowVersion != expectedQuestion
                    || db.versions[id].rowVersion != expected then r == Err(VersionConflict)
            else if db.versions[id].status != Approved then
              r.Err? && r.error in {BadManifest, RuleViolation, UsersNotExact, InvalidStateTransition}
            else r.Ok? && VersionPublished(db, r.value, actor, id, now)
  {
    hide Inv, Arm, Begin, LoadVersionTarget, LoadLifecycleVersions, LatestApprover, PublishManifest, PublishReferenced,
         PublishEffect, VersionPublished, CrossQuestionDuplicate, FingerprintOf, FewLive, PublishRowsOk;
    TargetIsThere(db, id);
    if id !in db.versions {
      PublishNobody(actor);
      NobodyBegins(db, actor, Publication);
    } else {
      var q := db.versions[id].questionId;
      PublishNames(db, actor, id);
      BeginAnswers(db, Operation(actor, Publication,
                                 PublishReferenced(actor, LoadVersionTarget(db, id), LoadLifecycleVersions(db, q))));
      if HasAuthority(db, actor) && db.versions[id].rowVersion == expected
         && db.questions[q].rowVersion == expectedQuestion {
        if db.versions[id].status == Approved {
          PublishCommits(db, actor, id, now);
        } else {
          PublishRefuses(db, actor, id, now);
        }
      }
    }
  }

  lemma PublishNobody(actor: Id)
    ensures PublishReferenced(actor, None, map[]) == {actor}
  {
    assert CreatorUsers(map[]) == {};
  }
}
