/**
  * What an administrator is told about a command whose transaction failed. An
  * attempt is one transaction: whether its callback ran to the end, what the
  * client library threw, and whether the database committed. The last is hidden
  * from the code, which has only the failure to go by.
  */
module Dispositions {
  import opened Common

  /** SQLSTATE, five characters. */
  type SqlState = string

  datatype Message =
    | QuestionMovedBeforeArm
    | VersionMovedBeforeArm
    | ReportMovedBeforeArm
    | CanonicalDuplicate
    | UpdateNeedsAuthor
    | RequestNeedsAuthor
    | QuestionNotActive
    | CreateNeedsNoCandidate
    | RequestStateInvalid
    | BatchRequestStateInvalid
    | DecisionStateInvalid
    | WithdrawalStateInvalid
    | VersionTransitionInvalid
    | ReportManifestNotCanonical
    | ReportTransitionInvalid
    | RemediationNotLater
    | UpdateNotEditable
    | ReviewedIsImmutable
    | ChildrenNeedEditableParent
    | AuthorityExpired
    | AuthorityMissing
    | Unrelated

  /** One report of a statement's failure; either part can be absent. */
  datatype Evidence = Evidence(state: Option<SqlState>, message: Option<Message>)

  datatype Code =
    | ServiceUnavailable
    | VersionConflict
    | ResourceNotFound
    | InvalidStateTransition
    | DuplicateContent
    | Forbidden
    | Immutable
    | FreshRequired
    | SessionExpired
    | AdminRequired
    | ValidationError
    | ImportInvalid

  datatype Disposition = NoTransaction | DefiniteRollback | CommitUnknown

  datatype Told = Told(code: Code, disposition: Disposition)

  datatype Failure =
    /** the application's own failure, thrown by the callback */
    | Own(told: Told)
    /** a rule the callback itself checks; it carries a state and a message */
    | Rule(state: SqlState, message: Message)
    /** a raw statement failed: the library's report and the driver's report */
    | Statement(library: Evidence, driver: Evidence)
    /** the library saw a write conflict */
    | WriteConflict
    /** no connection, timeout or anything else */
    | Other

  datatype Attempt = Attempt(completed: bool, failure: Option<Failure>, committed: bool)

  /** States after which the server may have committed all the same. */
  predicate MayFollowCommit(state: SqlState) {
    state == "40003" || "08" <= state || "57P" <= state || "58" <= state || "XX" <= state
  }

  /**
    * What can happen. The database commits only when the callback has returned,
    * and a callback that throws is rolled back; a statement's state says that
    * nothing was committed, unless it is one that leaves this open.
    */
  predicate Possible(a: Attempt) {
    && (a.committed ==> a.completed)
    && match a.failure
       case None => a.committed
       case Some(Own(_)) => !a.completed
       case Some(Rule(_, _)) => !a.completed
       case Some(Statement(x, y)) =>
         a.committed ==>
           (x.state.Some? ==> MayFollowCommit(x.state.value)) && (y.state.Some? ==> MayFollowCommit(y.state.value))
       case Some(WriteConflict) => !a.committed
       case Some(Other) => true
  }

  // ----- reading a failure

  /** The state both reports agree on; one report is enough. */
  function RawState(f: Failure): Option<SqlState> {
    match f
    case Rule(state, _) => Some(state)
    case Statement(x, y) =>
      if x.state.None? then y.state
      else if y.state.None? || y.state == x.state then x.state
      else None
    case _ => None
  }

  predicate Complete(e: Evidence) {
    e.state.Some? && e.message.Some?
  }

  /** State and message together, when the complete reports agree. */
  function RawIdentity(f: Failure): Option<(SqlState, Message)> {
    match f
    case Rule(state, message) => Some((state, message))
    case Statement(x, y) =>
      if !Complete(x) then (if Complete(y) then Some((y.state.value, y.message.value)) else None)
      else if Complete(y) && x != y then None
      else Some((x.state.value, x.message.value))
    case _ => None
  }

  predicate SerializationFailure(f: Failure) {
    RawState(f) == Some("40001") || RawState(f) == Some("40P01") || f.WriteConflict?
  }

  predicate DefiniteState(state: SqlState) {
    || state == "55P03" || state == "57014"
    || "22" <= state || "23" <= state || "25" <= state || "2D" <= state || "40" <= state || "42" <= state
  }

  const SERIALIZATION := {"40001", "40P01"}

  predicate Says(f: Failure, state: SqlState, messages: set<Message>) {
    RawIdentity(f).Some? && RawIdentity(f).value.0 == state && RawIdentity(f).value.1 in messages
  }

  // ----- the question commands

  datatype Command =
    | Create | CreateVersion | Update
    | Request | Changes | Approve | Withdraw
    | Publish | Retire | Archive

  predicate IsFresh(c: Command) {
    c.Approve? || c.Withdraw? || c.Publish? || c.Retire? || c.Archive?
  }

  predicate WritesContent(c: Command) {
    c.Create? || c.CreateVersion? || c.Update? || c.Publish?
  }

  function Definite(code: Code): Told {
    Told(code, DefiniteRollback)
  }

  function MapCommand(c: Command, f: Failure): Told {
    if f.Own? then Definite(f.told.code)
    else if RawState(f).Some? && RawState(f).value in SERIALIZATION then
      if RawIdentity(f).Some? && RawIdentity(f).value.1 in {QuestionMovedBeforeArm, VersionMovedBeforeArm}
      then Definite(VersionConflict) else Definite(ServiceUnavailable)
    else if Says(f, "23514", {CanonicalDuplicate}) && c.Publish? then Definite(ServiceUnavailable)
    else if Says(f, "23514", {CanonicalDuplicate}) && WritesContent(c) then Definite(DuplicateContent)
    else if Says(f, "42501", {UpdateNeedsAuthor}) && c.Update? then Definite(Forbidden)
    else if Says(f, "23514", {RequestNeedsAuthor}) && c.Request? then Definite(Forbidden)
    else if Says(f, "23514", {QuestionNotActive, CreateNeedsNoCandidate, RequestStateInvalid, DecisionStateInvalid,
                              WithdrawalStateInvalid, VersionTransitionInvalid}) then Definite(InvalidStateTransition)
    else if c.Update? && Says(f, "23514", {UpdateNotEditable, ReviewedIsImmutable, ChildrenNeedEditableParent})
      then Definite(Immutable)
    else if Says(f, "42501", {AuthorityExpired}) then Definite(if IsFresh(c) then FreshRequired else SessionExpired)
    else if f.WriteConflict? then Definite(ServiceUnavailable)
    else if RawState(f).Some? && DefiniteState(RawState(f).value) then Definite(ServiceUnavailable)
    else Told(ServiceUnavailable, CommitUnknown)
  }

  // ----- the workflow commands

  datatype Workflow = RequestBatch | ApplyImport | Export | Triage | Resolve

  predicate IsFreshWorkflow(w: Workflow) {
    !w.Triage?
  }

  /** The workflow commands read a state only together with its message, and a write conflict as 40001. */
  function WorkflowState(f: Failure): Option<SqlState> {
    if RawIdentity(f).Some? then Some(RawIdentity(f).value.0)
    else if f.WriteConflict? then Some("40001")
    else None
  }

  predicate WorkflowSerializationFailure(f: Failure) {
    (WorkflowState(f).Some? && WorkflowState(f).value in SERIALIZATION) || f.WriteConflict?
  }

  function MapWorkflow(w: Workflow, f: Failure): Told {
    if f.Own? then Definite(f.told.code)
    else if WorkflowState(f).Some? && WorkflowState(f).value in SERIALIZATION then
      if && (w.RequestBatch? || w.Triage? || w.Resolve?)
         && RawIdentity(f).Some?
         && RawIdentity(f).value.1 in {QuestionMovedBeforeArm, VersionMovedBeforeArm, ReportMovedBeforeArm}
      then Definite(VersionConflict) else Definite(ServiceUnavailable)
    else if Says(f, "23514", {CanonicalDuplicate}) && w.ApplyImport? then Definite(ServiceUnavailable)
    else if Says(f, "23514",
                 {QuestionNotActive, BatchRequestStateInvalid, ReportManifestNotCanonical, ReportTransitionInvalid})
    then Definite(InvalidStateTransition)
    else if Says(f, "23514", {RemediationNotLater}) then Definite(ResourceNotFound)
    else if Says(f, "42501", {AuthorityExpired})
      then Definite(if IsFreshWorkflow(w) then FreshRequired else SessionExpired)
    else if WorkflowState(f).Some? && DefiniteState(WorkflowState(f).value) then Definite(ServiceUnavailable)
    else Told(ServiceUnavailable, CommitUnknown)
  }

  // ----- what is read after the failure

  /** The session as read again: unavailable, no principal (and what the classification says), or a principal. */
  datatype Probe =
    | ProbeFails
    | NoPrincipal(outcome: Option<Code>)
    | Principal(isActor: bool, isAdmin: bool, isFresh: bool)

  /** A failed authority check is classified by the session as it is now. */
  function ClassifyAuthority(f: Failure, sensitive: bool, probe: Probe): Option<Told> {
    if !Says(f, "42501", {AuthorityExpired, AuthorityMissing}) then None
    else
      match probe
      case ProbeFails => Some(Definite(ServiceUnavailable))
      case NoPrincipal(outcome) =>
        if outcome == Some(AdminRequired) || outcome == Some(SessionExpired) then Some(Definite(outcome.value))
        else Some(Definite(ServiceUnavailable))
      case Principal(isActor, isAdmin, isFresh) =>
        if !isActor then Some(Definite(SessionExpired))
        else if !isAdmin then Some(Definite(AdminRequired))
        else if sensitive && !isFresh then Some(Definite(FreshRequired))
        else Some(Definite(ServiceUnavailable))
  }

  /** What the rows show after a serialization failure; a read that fails shows nothing. */
  datatype PostCheck = Moved | Pinned | Duplicated | NothingFound

  function Refine(f: Failure, seen: PostCheck): Option<Told> {
    if !SerializationFailure(f) then None
    else
      match seen
      case Moved => Some(Definite(VersionConflict))
      case Pinned => Some(Definite(Immutable))
      case Duplicated => Some(Definite(ServiceUnavailable))
      case NothingFound => None
  }

  datatype Reply = Returned | Threw(told: Told)

  /** A question command answers. */
  function CommandReply(c: Command, a: Attempt, probe: Probe, seen: PostCheck): Reply {
    match a.failure
    case None => Returned
    case Some(f) =>
      if ClassifyAuthority(f, IsFresh(c), probe).Some? then Threw(ClassifyAuthority(f, IsFresh(c), probe).value)
      else if Refine(f, seen).Some? then Threw(Refine(f, seen).value)
      else Threw(MapCommand(c, f))
  }

  /** An outcome is unknown only when the callback had returned. */
  function KnownBefore(a: Attempt, told: Told): Told {
    if !a.completed && told.disposition.CommitUnknown? then Definite(ServiceUnavailable) else told
  }

  /** A workflow command answers. Only the import has a check after the failure. */
  function WorkflowReply(w: Workflow, a: Attempt, probe: Probe, seen: PostCheck): Reply {
    match a.failure
    case None => Returned
    case Some(f) =>
      if ClassifyAuthority(f, IsFreshWorkflow(w), probe).Some?
      then Threw(ClassifyAuthority(f, IsFreshWorkflow(w), probe).value)
      else if w.ApplyImport? && seen.Duplicated? && WorkflowSerializationFailure(f)
        then Threw(Definite(ServiceUnavailable))
      else Threw(KnownBefore(a, MapWorkflow(w, f)))
  }

  // ----- soundness

  predicate StatedState(f: Failure, state: SqlState) {
    f.Statement? && (f.library.state == Some(state) || f.driver.state == Some(state))
  }

  /** The state that is read off a failure is one that a report states. */
  lemma RawIsStated(f: Failure)
    ensures f.Statement? && RawState(f).Some? ==> StatedState(f, RawState(f).value)
    ensures f.Statement? && RawIdentity(f).Some? ==> StatedState(f, RawIdentity(f).value.0)
  {
  }

  /** Of the states taken for a rollback only 40003 leaves the outcome open. */
  lemma OnlyUnknownCompletion(state: SqlState)
    ensures DefiniteState(state) && MayFollowCommit(state) ==> state == "40003"
    ensures !MayFollowCommit("23514") && !MayFollowCommit("42501") && !MayFollowCommit("40001")
            && !MayFollowCommit("40P01")
    ensures DefiniteState("40003") && MayFollowCommit("40003")
  {
    assert "23514"[0] == '2' && "42501"[0] == '4' && "40001"[0] == '4' && "40P01"[0] == '4';
    assert "42501"[1] == '2' && "40001"[4] == '1' && "40P01"[4] == '1';
    assert "40003"[0] == '4' && "57014"[2] == '0' && "55P03"[1] == '5';
    assert DefiniteState(state) && state != "57014" && state != "55P03" ==> |state| >= 2 && state[0] in {'2', '4'};
    assert MayFollowCommit(state) && state != "40003" ==>
        |state| >= 2 && state[0] in {'0', '5', 'X'} && (state[0] == '5' ==> state[1] == '8' || "57P" <= state);
  }

  /** The failure whose state says that the completion of the statement is unknown. */
  predicate CompletionUnknown(f: Failure) {
    f.Statement? && RawState(f) == Some("40003")
  }

  predicate StatedMayFollow(e: Evidence) {
    e.state.Some? ==> MayFollowCommit(e.state.value)
  }

  /**
    * The same for the workflow commands: the state is 40003 with its message, and
    * the other report, which need not be complete, states nothing that rules a
    * commit out.
    */
  predicate WorkflowCompletionUnknown(f: Failure) {
    f.Statement? && WorkflowState(f) == Some("40003") && StatedMayFollow(f.library) && StatedMayFollow(f.driver)
  }

  predicate Sound(a: Attempt, reply: Reply) {
    match reply
    case Returned => a.committed
    case Threw(told) =>
      && !told.disposition.NoTransaction?
      && (told.disposition.DefiniteRollback? ==> !a.committed)
      && (told.disposition.CommitUnknown? ==> told.code.ServiceUnavailable?)
  }

  lemma SaysIsDefinite(a: Attempt, f: Failure, state: SqlState, messages: set<Message>)
    requires Possible(a) && a.failure == Some(f) && Says(f, state, messages) && !MayFollowCommit(state)
    ensures !a.committed
  {
    RawIsStated(f);
  }

  lemma DefiniteIsRolledBack(a: Attempt, f: Failure)
    requires Possible(a) && a.failure == Some(f)
    requires !CompletionUnknown(f) && RawState(f).Some? && DefiniteState(RawState(f).value)
    ensures !a.committed
  {
    RawIsStated(f);
    OnlyUnknownCompletion(RawState(f).value);
  }

  /** A serialization failure is a rollback. */
  lemma SerializationIsRolledBack(a: Attempt, f: Failure)
    requires Possible(a) && a.failure == Some(f) && SerializationFailure(f)
    ensures !a.committed
  {
    RawIsStated(f);
    OnlyUnknownCompletion("40003");
  }

  lemma AuthorityIsRolledBack(a: Attempt, f: Failure, sensitive: bool, probe: Probe)
    requires Possible(a) && a.failure == Some(f) && ClassifyAuthority(f, sensitive, probe).Some?
    ensures !a.committed && ClassifyAuthority(f, sensitive, probe).value.disposition.DefiniteRollback?
  {
    OnlyUnknownCompletion("42501");
    SaysIsDefinite(a, f, "42501", {AuthorityExpired, AuthorityMissing});
  }

  lemma MapCommandIsSound(c: Command, a: Attempt, f: Failure)
    requires Possible(a) && a.failure == Some(f) && !CompletionUnknown(f)
    ensures Sound(a, Threw(MapCommand(c, f)))
  {
    hide DefiniteState, MayFollowCommit;
    OnlyUnknownCompletion("40003");
    RawIsStated(f);
    if RawState(f).Some? && DefiniteState(RawState(f).value) {
      DefiniteIsRolledBack(a, f);
    }
  }

  lemma WorkflowStateIsRolledBack(a: Attempt, f: Failure)
    requires Possible(a) && a.failure == Some(f)
    requires !WorkflowCompletionUnknown(f) && WorkflowState(f).Some? && DefiniteState(WorkflowState(f).value)
    ensures !a.committed
  {
    RawIsStated(f);
    OnlyUnknownCompletion(WorkflowState(f).value);
  }

  lemma WorkflowSerializationIsRolledBack(a: Attempt, f: Failure)
    requires Possible(a) && a.failure == Some(f) && WorkflowSerializationFailure(f)
    ensures !a.committed
  {
    RawIsStated(f);
    OnlyUnknownCompletion("40003");
  }

  lemma MapWorkflowIsSound(w: Workflow, a: Attempt, f: Failure)
    requires Possible(a) && a.failure == Some(f) && !WorkflowCompletionUnknown(f)
    ensures Sound(a, Threw(MapWorkflow(w, f)))
  {
    hide DefiniteState, MayFollowCommit, RawState;
    OnlyUnknownCompletion("40003");
    RawIsStated(f);
    if WorkflowState(f).Some? && DefiniteState(WorkflowState(f).value) {
      WorkflowStateIsRolledBack(a, f);
    }
  }

  /**
    * A question command: success is a commit, a stated rollback is one, and an
    * unknown outcome carries one code only.
    */
  lemma CommandIsSound(c: Command, a: Attempt, probe: Probe, seen: PostCheck)
    requires Possible(a) && (a.failure.Some? ==> !CompletionUnknown(a.failure.value))
    ensures Sound(a, CommandReply(c, a, probe, seen))
  {
    if a.failure.Some? {
      var f := a.failure.value;
      if ClassifyAuthority(f, IsFresh(c), probe).Some? {
        AuthorityIsRolledBack(a, f, IsFresh(c), probe);
      } else if Refine(f, seen).Some? {
        SerializationIsRolledBack(a, f);
      } else {
        MapCommandIsSound(c, a, f);
      }
    }
  }

  /** A workflow command as well, and it calls an outcome unknown only when the callback had returned. */
  lemma WorkflowIsSound(w: Workflow, a: Attempt, probe: Probe, seen: PostCheck)
    requires Possible(a) && (a.failure.Some? ==> !WorkflowCompletionUnknown(a.failure.value))
    ensures Sound(a, WorkflowReply(w, a, probe, seen))
    ensures WorkflowReply(w, a, probe, seen).Threw?
            && WorkflowReply(w, a, probe, seen).told.disposition.CommitUnknown? ==>
              a.completed
  {
    if a.failure.Some? {
      var f := a.failure.value;
      if ClassifyAuthority(f, IsFreshWorkflow(w), probe).Some? {
        AuthorityIsRolledBack(a, f, IsFreshWorkflow(w), probe);
      } else if w.ApplyImport? && seen.Duplicated? && WorkflowSerializationFailure(f) {
        WorkflowSerializationIsRolledBack(a, f);
      } else {
        MapWorkflowIsSound(w, a, f);
      }
    }
  }

  predicate StatesRollback(reply: Reply) {
    reply.Threw? && reply.told.disposition.DefiniteRollback?
  }

  /** A possible attempt with this failure that committed although a rollback is stated. */
  ghost predicate CanMislead(c: Command, f: Failure, probe: Probe, seen: PostCheck) {
    exists a | Possible(a) && a.failure == Some(f) && a.committed ::
      StatesRollback(CommandReply(c, a, probe, seen))
  }

  ghost predicate CanMisleadWorkflow(w: Workflow, f: Failure, probe: Probe, seen: PostCheck) {
    exists a | Possible(a) && a.failure == Some(f) && a.committed ::
      StatesRollback(WorkflowReply(w, a, probe, seen))
  }

  lemma UnknownMisleads(c: Command, f: Failure, probe: Probe, seen: PostCheck)
    requires CompletionUnknown(f)
    ensures var a := Attempt(true, Some(f), true);
            Possible(a) && StatesRollback(CommandReply(c, a, probe, seen))
  {
    hide Says, RawIdentity, SerializationFailure, DefiniteState, MayFollowCommit;
    OnlyUnknownCompletion("40003");
  }

  lemma UnknownMisleadsWorkflow(w: Workflow, f: Failure, probe: Probe, seen: PostCheck)
    requires WorkflowCompletionUnknown(f)
    ensures var a := Attempt(true, Some(f), true);
            Possible(a) && StatesRollback(WorkflowReply(w, a, probe, seen))
  {
    hide Says, WorkflowState, WorkflowSerializationFailure, DefiniteState, MayFollowCommit;
    OnlyUnknownCompletion("40003");
  }

  lemma CommandMisleadsExactly(c: Command, f: Failure, probe: Probe, seen: PostCheck)
    ensures CanMislead(c, f, probe, seen) <==> CompletionUnknown(f)
  {
    hide Possible, CommandReply, CompletionUnknown, StatesRollback, Sound;
    if CompletionUnknown(f) {
      UnknownMisleads(c, f, probe, seen);
      assert CanMislead(c, f, probe, seen);
    } else if CanMislead(c, f, probe, seen) {
      var a :| Possible(a) && a.failure == Some(f) && a.committed && StatesRollback(CommandReply(c, a, probe, seen));
      CommandIsSound(c, a, probe, seen);
      SoundRollback(a, CommandReply(c, a, probe, seen));
    }
  }

  lemma SoundRollback(a: Attempt, reply: Reply)
    requires Sound(a, reply) && StatesRollback(reply)
    ensures !a.committed
  {
  }

  lemma WorkflowMisleadsExactly(w: Workflow, f: Failure, probe: Probe, seen: PostCheck)
    ensures CanMisleadWorkflow(w, f, probe, seen) <==> WorkflowCompletionUnknown(f)
  {
    hide Possible, WorkflowReply, WorkflowCompletionUnknown, StatesRollback, Sound;
    if WorkflowCompletionUnknown(f) {
      UnknownMisleadsWorkflow(w, f, probe, seen);
      assert CanMisleadWorkflow(w, f, probe, seen);
    } else if CanMisleadWorkflow(w, f, probe, seen) {
      var a :| Possible(a) && a.failure == Some(f) && a.committed && StatesRollback(WorkflowReply(w, a, probe, seen));
      WorkflowIsSound(w, a, probe, seen);
      SoundRollback(a, WorkflowReply(w, a, probe, seen));
    }
  }

  /**
    * A stated rollback can be a commit exactly for the state 40003, since class
    * 40 is taken for a rollback as a whole: for a question command when the
    * reports agree on the state, for a workflow command when a report states it
    * with its message and the other report does not rule a commit out.
    */
  lemma MisleadsExactly(c: Command, w: Workflow, f: Failure, probe: Probe, seen: PostCheck)
    ensures CanMislead(c, f, probe, seen) <==> CompletionUnknown(f)
    ensures CanMisleadWorkflow(w, f, probe, seen) <==> WorkflowCompletionUnknown(f)
  {
    hide CanMislead, CanMisleadWorkflow, CompletionUnknown, WorkflowCompletionUnknown;
    CommandMisleadsExactly(c, f, probe, seen);
    WorkflowMisleadsExactly(w, f, probe, seen);
  }

  /**
    * The two readers differ: a state without its message is unknown to a workflow
    * command, and one report with its message misleads it although the other
    * report says that the connection was lost.
    */
  lemma ReadersDiffer(c: Command, w: Workflow, probe: Probe, seen: PostCheck)
    ensures var bare := Statement(Evidence(Some("40003"), None), Evidence(None, None));
            CanMislead(c, bare, probe, seen) && !CanMisleadWorkflow(w, bare, probe, seen)
    ensures var mixed := Statement(Evidence(Some("40003"), Some(Unrelated)), Evidence(Some("08006"), None));
            !CanMislead(c, mixed, probe, seen) && CanMisleadWorkflow(w, mixed, probe, seen)
    ensures MapWorkflow(w, WriteConflict) == Definite(ServiceUnavailable)
  {
    MisleadsExactly(c, w, Statement(Evidence(Some("40003"), None), Evidence(None, None)), probe, seen);
    MisleadsExactly(c, w, Statement(Evidence(Some("40003"), Some(Unrelated)), Evidence(Some("08006"), None)), probe,
                    seen);
    assert "40003"[0] == '4' && "08006"[..2] == "08";
  }
}
