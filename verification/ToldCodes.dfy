/**
  * What a caller may conclude from the code it is told: for each code the failures
  * that lead to it, and for each result of a batch item the code behind it.
  */
module ToldCodes {
  import opened Common
  import opened Dispositions
  import opened BatchCommands

  /** The callback itself failed with the code. */
  predicate OwnCode(f: Failure, code: Code) {
    f.Own? && f.told.code == code
  }

  /** Every complete report of the failure gives this state and this message, and there is one. */
  predicate Reports(f: Failure, state: SqlState, message: Message) {
    match f
    case Rule(s, m) => s == state && m == message
    case Statement(x, y) =>
      var said := Evidence(Some(state), Some(message));
      (x == said || y == said) && (Complete(x) ==> x == said) && (Complete(y) ==> y == said)
    case _ => false
  }

  lemma IdentityIsReported(f: Failure, state: SqlState, message: Message)
    ensures RawIdentity(f) == Some((state, message)) <==> Reports(f, state, message)
  {
  }

  /** A refused row rule of the given kind. */
  ghost predicate BreaksRule(f: Failure, messages: set<Message>) {
    exists m :: m in messages && Reports(f, "23514", m)
  }

  lemma RuleIsSaid(f: Failure, messages: set<Message>)
    ensures Says(f, "23514", messages) <==> BreaksRule(f, messages)
  {
    if RawIdentity(f).Some? {
      IdentityIsReported(f, RawIdentity(f).value.0, RawIdentity(f).value.1);
    }
    forall m | Reports(f, "23514", m) ensures RawIdentity(f) == Some(("23514", m)) {
      IdentityIsReported(f, "23514", m);
    }
  }

  lemma SaysReports(f: Failure, state: SqlState, message: Message)
    ensures Says(f, state, {message}) <==> Reports(f, state, message)
  {
    IdentityIsReported(f, state, message);
  }

  /** A row the command had read moved before it was locked. */
  ghost predicate RowMoved(f: Failure, state: Option<SqlState>, messages: set<Message>) {
    state.Some? && (state.value == "40001" || state.value == "40P01")
    && exists m :: m in messages && Reports(f, state.value, m)
  }

  lemma StatesDiffer()
    ensures "23514" != "42501" && "23514" != "40001" && "23514" != "40P01" && "42501" != "40001" && "42501" != "40P01"
  {
    assert "23514"[0] == '2' && "42501"[1] == '2' && "40001"[1] == '0' && "40P01"[1] == '0';
    assert "42501"[0] == '4' && "40001"[0] == '4' && "40P01"[0] == '4';
  }

  lemma MovedIsRead(f: Failure, state: Option<SqlState>, messages: set<Message>)
    requires state == RawState(f) || state == WorkflowState(f)
    ensures (state.Some? && state.value in SERIALIZATION && RawIdentity(f).Some? && RawIdentity(f).value.1 in messages)
       <==> RowMoved(f, state, messages)
  {
    if RawIdentity(f).Some? {
      IdentityIsReported(f, RawIdentity(f).value.0, RawIdentity(f).value.1);
    }
    if state.Some? {
      forall m | Reports(f, state.value, m) ensures RawIdentity(f) == Some((state.value, m)) {
        IdentityIsReported(f, state.value, m);
      }
    }
  }

  const STATE_RULES: set<Message> :=
    {QuestionNotActive, CreateNeedsNoCandidate, RequestStateInvalid, DecisionStateInvalid, WithdrawalStateInvalid,
     VersionTransitionInvalid}
  const IMMUTABLE_RULES: set<Message> := {UpdateNotEditable, ReviewedIsImmutable, ChildrenNeedEditableParent}

  lemma ConflictCode(c: Command, f: Failure)
    ensures MapCommand(c, f).code == VersionConflict <==>
              OwnCode(f, VersionConflict) || RowMoved(f, RawState(f), {QuestionMovedBeforeArm, VersionMovedBeforeArm})
    ensures MapCommand(c, f).code in {ResourceNotFound, AdminRequired, ValidationError, ImportInvalid} ==>
              OwnCode(f, MapCommand(c, f).code)
  {
    MovedIsRead(f, RawState(f), {QuestionMovedBeforeArm, VersionMovedBeforeArm});
    hide Reports, RowMoved, RawIdentity, RawState, DefiniteState;
  }

  lemma ContentCodes(c: Command, f: Failure)
    ensures var code := MapCommand(c, f).code;
            && (code == DuplicateContent <==>
                  || OwnCode(f, DuplicateContent)
                  || (c in {Create, CreateVersion, Update} && Reports(f, "23514", CanonicalDuplicate)))
            && (code == Immutable <==> OwnCode(f, Immutable) || (c == Update && BreaksRule(f, IMMUTABLE_RULES)))
  {
    StatesDiffer();
    SaysReports(f, "23514", CanonicalDuplicate);
    RuleIsSaid(f, IMMUTABLE_RULES);
    IdentityFits(f);
    hide Reports, BreaksRule, RawIdentity, RawState, DefiniteState;
  }

  lemma ForbiddenCode(c: Command, f: Failure)
    ensures MapCommand(c, f).code == Forbidden <==>
              || OwnCode(f, Forbidden)
              || (c == Update && Reports(f, "42501", UpdateNeedsAuthor))
              || (c == Request && Reports(f, "23514", RequestNeedsAuthor))
  {
    StatesDiffer();
    SaysReports(f, "42501", UpdateNeedsAuthor);
    SaysReports(f, "23514", RequestNeedsAuthor);
    IdentityFits(f);
    hide Reports, RawIdentity, RawState, DefiniteState;
  }

  lemma StateCode(c: Command, f: Failure)
    ensures MapCommand(c, f).code == InvalidStateTransition <==>
              OwnCode(f, InvalidStateTransition) || BreaksRule(f, STATE_RULES)
  {
    StatesDiffer();
    RuleIsSaid(f, STATE_RULES);
    IdentityFits(f);
    hide Reports, BreaksRule, RawIdentity, RawState, DefiniteState;
  }

  lemma AuthorityCodes(c: Command, f: Failure)
    ensures MapCommand(c, f).code == FreshRequired <==>
              || OwnCode(f, FreshRequired)
              || (c in {Approve, Withdraw, Publish, Retire, Archive} && Reports(f, "42501", AuthorityExpired))
    ensures MapCommand(c, f).code == SessionExpired <==>
              || OwnCode(f, SessionExpired)
              || (c in {Create, CreateVersion, Update, Request, Changes} && Reports(f, "42501", AuthorityExpired))
  {
    StatesDiffer();
    SaysReports(f, "42501", AuthorityExpired);
    IdentityFits(f);
    hide Reports, RawIdentity, RawState, DefiniteState;
  }

  /** Each code of a question command, and the failures that lead to it. */
  lemma CommandCodes(c: Command, f: Failure)
    ensures var code := MapCommand(c, f).code;
            && (code == VersionConflict <==>
                  OwnCode(f, VersionConflict)
                  || RowMoved(f, RawState(f), {QuestionMovedBeforeArm, VersionMovedBeforeArm}))
            && (code == DuplicateContent <==>
                  || OwnCode(f, DuplicateContent)
                  || (c in {Create, CreateVersion, Update} && Reports(f, "23514", CanonicalDuplicate)))
            && (code == Forbidden <==>
                  || OwnCode(f, Forbidden)
                  || (c == Update && Reports(f, "42501", UpdateNeedsAuthor))
                  || (c == Request && Reports(f, "23514", RequestNeedsAuthor)))
            && (code == InvalidStateTransition <==>
                  OwnCode(f, InvalidStateTransition) || BreaksRule(f, STATE_RULES))
            && (code == Immutable <==> OwnCode(f, Immutable) || (c == Update && BreaksRule(f, IMMUTABLE_RULES)))
            && (code == FreshRequired <==>
                  || OwnCode(f, FreshRequired)
                  || (c in {Approve, Withdraw, Publish, Retire, Archive} && Reports(f, "42501", AuthorityExpired)))
            && (code == SessionExpired <==>
                  || OwnCode(f, SessionExpired)
                  || (c in {Create, CreateVersion, Update, Request, Changes} && Reports(f, "42501", AuthorityExpired)))
            && (code in {ResourceNotFound, AdminRequired, ValidationError, ImportInvalid} ==> OwnCode(f, code))
  {
    hide *;
    ConflictCode(c, f);
    ContentCodes(c, f);
    ForbiddenCode(c, f);
    StateCode(c, f);
    AuthorityCodes(c, f);
  }

  /** A failure with an identity has its state, or two reports that do not agree on one. */
  lemma IdentityFits(f: Failure)
    ensures RawIdentity(f).Some? && RawState(f).Some? ==> RawState(f).value == RawIdentity(f).value.0
    ensures f.Own? ==> RawIdentity(f).None? && RawState(f).None?
  {
  }

  const OWN_WORKFLOW_CODES: set<Code> :=
    {DuplicateContent, Forbidden, Immutable, AdminRequired, ValidationError, ImportInvalid}

  lemma WorkflowConflict(w: Workflow, f: Failure)
    ensures MapWorkflow(w, f).code == VersionConflict <==>
              || OwnCode(f, VersionConflict)
              || (w in {RequestBatch, Triage, Resolve}
                  && RowMoved(f, WorkflowState(f),
                              {QuestionMovedBeforeArm, VersionMovedBeforeArm, ReportMovedBeforeArm}))
    ensures MapWorkflow(w, f).code in OWN_WORKFLOW_CODES ==> OwnCode(f, MapWorkflow(w, f).code)
  {
    MovedIsRead(f, WorkflowState(f), {QuestionMovedBeforeArm, VersionMovedBeforeArm, ReportMovedBeforeArm});
    hide Reports, RowMoved, RawIdentity, DefiniteState;
  }

  lemma WorkflowRules(w: Workflow, f: Failure)
    ensures MapWorkflow(w, f).code == InvalidStateTransition <==>
              || OwnCode(f, InvalidStateTransition)
              || BreaksRule(f, {QuestionNotActive, BatchRequestStateInvalid, ReportManifestNotCanonical,
                                ReportTransitionInvalid})
    ensures MapWorkflow(w, f).code == ResourceNotFound <==>
              OwnCode(f, ResourceNotFound) || Reports(f, "23514", RemediationNotLater)
  {
    StatesDiffer();
    SaysReports(f, "23514", RemediationNotLater);
    RuleIsSaid(f, {QuestionNotActive, BatchRequestStateInvalid, ReportManifestNotCanonical, ReportTransitionInvalid});
    IdentityFits(f);
    hide Reports, BreaksRule, RawIdentity, DefiniteState;
  }

  lemma WorkflowAuthority(w: Workflow, f: Failure)
    ensures MapWorkflow(w, f).code == FreshRequired <==>
              OwnCode(f, FreshRequired) || (w != Triage && Reports(f, "42501", AuthorityExpired))
    ensures MapWorkflow(w, f).code == SessionExpired <==>
              OwnCode(f, SessionExpired) || (w == Triage && Reports(f, "42501", AuthorityExpired))
  {
    StatesDiffer();
    SaysReports(f, "42501", AuthorityExpired);
    IdentityFits(f);
    hide Reports, RawIdentity, DefiniteState;
  }

  /** Each code of a workflow command, and the failures that lead to it. */
  lemma WorkflowCodes(w: Workflow, f: Failure)
    ensures var code := MapWorkflow(w, f).code;
            && (code == VersionConflict <==>
                  || OwnCode(f, VersionConflict)
                  || (w in {RequestBatch, Triage, Resolve}
                      && RowMoved(f, WorkflowState(f),
                                  {QuestionMovedBeforeArm, VersionMovedBeforeArm, ReportMovedBeforeArm})))
            && (code == InvalidStateTransition <==>
                  || OwnCode(f, InvalidStateTransition)
                  || BreaksRule(f, {QuestionNotActive, BatchRequestStateInvalid, ReportManifestNotCanonical,
                                    ReportTransitionInvalid}))
            && (code == ResourceNotFound <==>
                  OwnCode(f, ResourceNotFound) || Reports(f, "23514", RemediationNotLater))
            && (code == FreshRequired <==>
                  OwnCode(f, FreshRequired) || (w != Triage && Reports(f, "42501", AuthorityExpired)))
            && (code == SessionExpired <==>
                  OwnCode(f, SessionExpired) || (w == Triage && Reports(f, "42501", AuthorityExpired)))
            && (code in OWN_WORKFLOW_CODES ==> OwnCode(f, code))
  {
    hide *;
    WorkflowConflict(w, f);
    WorkflowRules(w, f);
    WorkflowAuthority(w, f);
  }

  // ----- what is read after a failure

  /** The failure is that of a failed authority check. */
  predicate AuthorityFailed(f: Failure) {
    Reports(f, "42501", AuthorityExpired) || Reports(f, "42501", AuthorityMissing)
  }

  lemma AuthorityIsSaid(f: Failure)
    ensures Says(f, "42501", {AuthorityExpired, AuthorityMissing}) <==> AuthorityFailed(f)
  {
    SaysReports(f, "42501", AuthorityExpired);
    SaysReports(f, "42501", AuthorityMissing);
    hide Reports, RawIdentity;
  }

  /** What a failed authority check is told as, by the session that is found afterwards. */
  ghost predicate AuthorityTold(told: Told, sensitive: bool, probe: Probe) {
    && told.disposition == DefiniteRollback
    && told.code in {SessionExpired, AdminRequired, FreshRequired, ServiceUnavailable}
    && (told.code == SessionExpired <==>
          || probe == NoPrincipal(Some(SessionExpired))
          || (probe.Principal? && !probe.isActor))
    && (told.code == AdminRequired <==>
          || probe == NoPrincipal(Some(AdminRequired))
          || (probe.Principal? && probe.isActor && !probe.isAdmin))
    && (told.code == FreshRequired <==> sensitive && probe == Principal(true, true, false))
  }

  lemma AuthorityIsTold(f: Failure, sensitive: bool, probe: Probe)
    ensures var told := ClassifyAuthority(f, sensitive, probe);
            && (told.Some? <==> AuthorityFailed(f))
            && (told.Some? ==> AuthorityTold(told.value, sensitive, probe))
  {
    AuthorityIsSaid(f);
    hide AuthorityFailed, Says;
  }

  /**
    * A question command tells a failed authority check by the session found
    * afterwards, and a lost race by what the rows show; it adds nothing else.
    */
  lemma CommandTells(c: Command, a: Attempt, probe: Probe, seen: PostCheck)
    requires a.failure.Some?
    ensures var f := a.failure.value;
            var reply := CommandReply(c, a, probe, seen);
            && reply.Threw?
            && (AuthorityFailed(f) ==>
                  AuthorityTold(reply.told, c in {Approve, Withdraw, Publish, Retire, Archive}, probe))
            && (!AuthorityFailed(f) && LostRace(f) && seen != NothingFound ==>
                  && reply.told.disposition == DefiniteRollback
                  && (reply.told.code == VersionConflict <==> seen == Moved)
                  && (reply.told.code == Immutable <==> seen == Pinned)
                  && (reply.told.code == ServiceUnavailable <==> seen == Duplicated))
            && (!AuthorityFailed(f) && (!LostRace(f) || seen == NothingFound) ==> reply.told == MapCommand(c, f))
  {
    AuthorityIsTold(a.failure.value, IsFresh(c), probe);
    hide AuthorityFailed, AuthorityTold, ClassifyAuthority, MapCommand, RawState;
  }

  /** The failure is a serialization failure, a deadlock or a write conflict, as a question command reads it. */
  predicate LostRace(f: Failure) {
    RawState(f) in {Some("40001"), Some("40P01")} || f == WriteConflict
  }

  /** A workflow command does the same, but never tells an unknown outcome when its callback had not returned. */
  lemma WorkflowTells(w: Workflow, a: Attempt, probe: Probe, seen: PostCheck)
    requires a.failure.Some?
    ensures var f := a.failure.value;
            var reply := WorkflowReply(w, a, probe, seen);
            && reply.Threw?
            && (AuthorityFailed(f) ==> AuthorityTold(reply.told, w != Triage, probe))
            && (!AuthorityFailed(f) && w == ApplyImport && seen == Duplicated
                && (WorkflowState(f) in {Some("40001"), Some("40P01")} || f == WriteConflict) ==>
                  reply.told == Told(ServiceUnavailable, DefiniteRollback))
            && (!AuthorityFailed(f) && (w != ApplyImport || seen != Duplicated) ==>
                  && reply.told.code == MapWorkflow(w, f).code
                  && (reply.told.disposition == CommitUnknown <==>
                        a.completed && MapWorkflow(w, f).disposition == CommitUnknown))
  {
    AuthorityIsTold(a.failure.value, IsFreshWorkflow(w), probe);
    UnknownIsUnavailable(w, a.failure.value);
    hide AuthorityFailed, AuthorityTold, ClassifyAuthority, MapWorkflow, WorkflowState;
  }

  lemma UnknownIsUnavailable(w: Workflow, f: Failure)
    ensures MapWorkflow(w, f).disposition in {DefiniteRollback, CommitUnknown}
    ensures MapWorkflow(w, f).disposition == CommitUnknown ==> MapWorkflow(w, f).code == ServiceUnavailable
  {
    hide Says, WorkflowState, RawIdentity, DefiniteState;
  }

  // ----- the items of a batch

  /** A publication whose target is not ready gives no command, and its result says why. */
  lemma TargetTells(versionId: Id, target: Target, call: Call)
    requires target != ReadyToPublish
    ensures var step := PublicationStep(target, call);
            && !step.committed && !Succeeds(step)
            && (target == Missing ==> Shown(versionId, step).result == NotFound)
            && (target == Unapproved ==> Shown(versionId, step).result == WrongState)
            && (target.ReadFails? ==> step == ApprovalStep(Failed(target.told, false)))
  {
  }

  /** The result of a batch item tells the code it stands for; a code without a result of its own shows as failed. */
  lemma ItemTells(versionId: Id, told: Told, committed: bool)
    ensures var shown := Shown(versionId, ApprovalStep(Failed(told, committed)));
            && shown.versionId == versionId
            && (shown.result == NotFound <==> told.code == ResourceNotFound)
            && (shown.result == Conflict <==> told.code == VersionConflict)
            && (shown.result == WrongState <==> told.code == InvalidStateTransition)
            && (shown.result == FailedItem <==>
                  told.code !in {ResourceNotFound, VersionConflict, InvalidStateTransition})
  {
  }
}
