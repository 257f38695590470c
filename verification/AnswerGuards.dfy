/**
  * The two guards on rows just read. Under the invariant a command whose reads
  * are current fails its guards only for reasons a reader of the rows can see.
  */
module AnswerGuards {
  import opened Common
  import opened ContentTables
  import opened ContentArm
  import opened ContentCommands
  import opened ContentInvariant
  import opened ContentPreservation

  /** A handful of live users and the actor. */
  ghost predicate FewLive(db: Db, actor: Id, named: set<Id>) {
    actor in named && named <= db.users.Keys + {actor} && |named| <= 512
  }

  lemma FewUsers(db: Db, actor: Id, a: set<Id>, b: set<Id>, c: set<Id>)
    requires a <= db.users.Keys && b <= db.users.Keys && c <= db.users.Keys && |a| <= 1 && |b| <= 1 && |c| <= 1
    ensures {actor} + (a + b + c) == {actor} + a + b + c
    ensures FewLive(db, actor, {actor} + a + b + c)
  {
  }

  lemma FewCreators(db: Db, actor: Id, a: set<Id>, b: set<Id>, c: set<Id>)
    requires a <= db.users.Keys && b <= db.users.Keys && c <= db.users.Keys && |a| <= 1 && |b| <= 2 && |c| <= 1
    ensures FewLive(db, actor, {actor} + a + b) && FewLive(db, actor, {actor} + b + (a + c))
  {
  }

  lemma QuestionCreatorLive(db: Db, q: Id)
    requires Inv(db) && q in db.questions
    ensures OptionSet(db.questions[q].creator.userId) <= db.users.Keys
    ensures |OptionSet(db.questions[q].creator.userId)| <= 1
  {
    QuestionLive(db, q);
    hide Inv, VersionsShaped, QuestionOk;
  }

  /** With few users named, all of them live, begin looks at the actor only. */
  lemma BeginAnswers(db: Db, op: Operation)
    requires FewLive(db, op.actor, op.referenced)
    ensures Begin(db, op) == if HasAuthority(db, op.actor) then None else Some(AuthorityLost)
  {
    assert |op.referenced| >= 1 by {
      assert op.referenced != {};
    }
  }

  lemma {:induction false} CreatorsBounded(versions: map<Id, Version>)
    ensures |CreatorUsers(versions)| <= |versions|
    decreases |versions|
  {
    if versions != map[] {
      var v :| v in versions;
      var rest := versions - {v};
      CreatorsBounded(rest);
      assert CreatorUsers(versions) == CreatorUsers(rest) + OptionSet(versions[v].creator.userId) by {
        forall u | u in CreatorUsers(versions)
          ensures u in CreatorUsers(rest) + OptionSet(versions[v].creator.userId)
        {
          var w :| w in versions && versions[w].creator.userId == Some(u);
          assert w != v ==> w in rest && rest[w] == versions[w];
        }
        forall u | u in CreatorUsers(rest) + OptionSet(versions[v].creator.userId)
          ensures u in CreatorUsers(versions)
        {
          if u in CreatorUsers(rest) {
            var w :| w in rest && rest[w].creator.userId == Some(u);
            assert w in versions && versions[w] == rest[w];
          }
        }
      }
      assert rest.Keys == versions.Keys - {v} && |versions| == |versions.Keys| && |rest| == |rest.Keys|;
    }
  }

  /** Creators of stored versions are live users. */
  lemma CreatorsLive(db: Db, versions: map<Id, Version>)
    requires Inv(db) && forall v | v in versions :: v in db.versions && versions[v] == db.versions[v]
    ensures CreatorUsers(versions) <= db.users.Keys
  {
    hide Inv;
    forall u | u in CreatorUsers(versions) ensures u in db.users {
      var v :| v in versions && versions[v].creator.userId == Some(u);
      HomeOf(db, v);
    }
  }

  /** The manifest lists rows exactly as they are stored. */
  ghost predicate Current(db: Db, m: Manifest) {
    && m.questions.Keys <= db.questions.Keys
    && (forall q | q in m.questions ::
          m.questions[q] == QuestionItem(db.questions[q].rowVersion, db.questions[q].lifecycle))
    && m.versions.Keys <= db.versions.Keys
    && (forall v | v in m.versions ::
          && m.versions[v] == VersionItem(db.versions[v].rowVersion, db.versions[v].status)
          && db.versions[v].questionId in m.questions)
    && m.reports.Keys <= db.reports.Keys
    && (forall r | r in m.reports ::
          && m.reports[r] == ReportItem(db.reports[r].rowVersion, db.reports[r].status)
          && db.reports[r].questionId in m.questions && db.reports[r].versionId in m.versions)
  }

  /** On current rows arming can break a rule, meet an unknown tag or find other users, and nothing else. */
  lemma ArmAnswers(db: Db, op: Operation, m: Manifest)
    requires Current(db, m) && ShapeOk(op.command, m)
    ensures TargetsMatch(db, m)
    ensures Arm(db, op, m) ==
            if !AggregateRulesOk(db, op.command, m) then Some(RuleViolation)
            else if !(m.tags <= db.tags) then Some(TagChanged)
            else if DerivedUsers(db, op, m) != op.referenced then Some(UsersNotExact)
            else None
  {
    hide ShapeOk, AggregateRulesOk, DerivedUsers;
    forall q | q in m.questions ensures QuestionMatches(db, q, m.questions[q]) {
    }
    forall v | v in m.versions ensures VersionMatches(db, m, v, m.versions[v]) {
    }
    forall r | r in m.reports ensures ReportMatches(db, m, r, m.reports[r]) {
    }
  }

  // ----- the users the locked rows name, part by part

  function QuestionCreators(db: Db, questions: set<Id>): set<Id> {
    set q | q in questions && q in db.questions && db.questions[q].creator.userId.Some?
      :: db.questions[q].creator.userId.value
  }

  function VersionCreators(db: Db, versions: set<Id>): set<Id> {
    set v | v in versions && v in db.versions && db.versions[v].creator.userId.Some?
      :: db.versions[v].creator.userId.value
  }

  function Approvers(db: Db, command: Command, versions: set<Id>): set<Id> {
    set v | v in versions && v in db.versions && NamesApprover(command, db.versions[v].status)
            && LatestApprover(db.reviews, v).Some? && LatestApprover(db.reviews, v).value.userId.Some?
      :: LatestApprover(db.reviews, v).value.userId.value
  }

  function Reporters(db: Db, reports: set<Id>): set<Id> {
    set r | r in reports && r in db.reports && db.reports[r].reporter.userId.Some? ::
      db.reports[r].reporter.userId.value
  }

  function Assignees(db: Db, reports: set<Id>): set<Id> {
    set r | r in reports && r in db.reports && db.reports[r].assignee.Some?
            && db.reports[r].assignee.value.userId.Some? :: db.reports[r].assignee.value.userId.value
  }

  lemma DerivedAll(db: Db, op: Operation, m: Manifest)
    requires TargetsMatch(db, m)
    ensures DerivedUsers(db, op, m)
         == {op.actor} + QuestionCreators(db, m.questions.Keys) + VersionCreators(db, m.versions.Keys)
            + Approvers(db, op.command, m.versions.Keys) + Reporters(db, m.reports.Keys)
            + Assignees(db, m.reports.Keys)
  {
    DerivedQuestions(db, m);
    DerivedVersions(db, m);
    DerivedApprovers(db, op.command, m);
    DerivedReports(db, m);
    hide TargetsMatch, QuestionCreators, VersionCreators, Approvers, Reporters, Assignees, LatestApprover,
         NamesApprover;
  }

  lemma DerivedQuestions(db: Db, m: Manifest)
    requires TargetsMatch(db, m)
    ensures (set q | q in m.questions && db.questions[q].creator.userId.Some? :: db.questions[q].creator.userId.value)
         == QuestionCreators(db, m.questions.Keys)
  {
  }

  lemma DerivedVersions(db: Db, m: Manifest)
    requires TargetsMatch(db, m)
    ensures (set v | v in m.versions && db.versions[v].creator.userId.Some? :: db.versions[v].creator.userId.value)
         == VersionCreators(db, m.versions.Keys)
  {
  }

  lemma DerivedApprovers(db: Db, command: Command, m: Manifest)
    requires TargetsMatch(db, m)
    ensures (set v | v in m.versions && NamesApprover(command, db.versions[v].status)
                     && LatestApprover(db.reviews, v).Some? && LatestApprover(db.reviews, v).value.userId.Some?
               :: LatestApprover(db.reviews, v).value.userId.value) == Approvers(db, command, m.versions.Keys)
  {
    hide LatestApprover, NamesApprover;
  }

  lemma DerivedReports(db: Db, m: Manifest)
    requires TargetsMatch(db, m)
    ensures (set r | r in m.reports && db.reports[r].reporter.userId.Some? :: db.reports[r].reporter.userId.value)
         == Reporters(db, m.reports.Keys)
    ensures (set r | r in m.reports && db.reports[r].assignee.Some? && db.reports[r].assignee.value.userId.Some?
               :: db.reports[r].assignee.value.userId.value) == Assignees(db, m.reports.Keys)
  {
  }

  lemma DerivedParts(db: Db, op: Operation, m: Manifest)
    requires TargetsMatch(db, m) && m.reports == map[]
    ensures DerivedUsers(db, op, m)
         == {op.actor} + QuestionCreators(db, m.questions.Keys) + VersionCreators(db, m.versions.Keys)
            + Approvers(db, op.command, m.versions.Keys)
  {
    hide DerivedUsers, QuestionCreators, VersionCreators, Approvers, TargetsMatch;
    DerivedAll(db, op, m);
  }

  lemma NoApprover(db: Db, command: Command, versions: set<Id>)
    requires command != Publication && command != ApprovalWithdrawal
    ensures Approvers(db, command, versions) == {}
  {
    hide LatestApprover;
  }

  function ApproverUser(db: Db, id: Id): set<Id> {
    var approver := LatestApprover(db.reviews, id);
    if approver.Some? then OptionSet(approver.value.userId) else {}
  }

  lemma OneQuestionCreator(db: Db, q: Id)
    requires q in db.questions
    ensures QuestionCreators(db, {q}) == OptionSet(db.questions[q].creator.userId)
  {
  }

  lemma OneVersionCreator(db: Db, v: Id)
    requires v in db.versions
    ensures VersionCreators(db, {v}) == OptionSet(db.versions[v].creator.userId)
  {
  }

  /** At most one of the versions is one whose approver the command names. */
  lemma OneApprover(db: Db, command: Command, versions: set<Id>, id: Id)
    requires id in versions && versions <= db.versions.Keys
    requires forall v | v in versions && NamesApprover(command, db.versions[v].status) :: v == id
    ensures Approvers(db, command, versions)
         == if NamesApprover(command, db.versions[id].status) then ApproverUser(db, id) else {}
  {
    hide LatestApprover, NamesApprover;
  }
}
