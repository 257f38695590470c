/**
  * The run that breaks an atomic publication: between the two reads of a
  * publication the approval is withdrawn, requested again and given again. The
  * publication then commits although the caller's expected row version is gone,
  * it writes a smaller row version than the one it overwrites, and its review
  * names the first approver instead of the latest one.
  */
module PublishRace {
  import opened Common
  import opened ContentTables
  import opened ContentArm
  import opened ContentCommands
  import opened ContentEvents
  import opened ContentRuns

  const ADMIN: Id := 1
  const OTHER: Id := 2
  const QUESTION: Id := 0
  const VERSION: Id := 10
  const TAG: Id := 7

  function Line(s: string): Text {
    Text(s, s)
  }

  const CONTENT := Content("N1", "grammar", "choice", "easy", None, Line("text"), "ko", None,
                           map[1 := Choice(1, Line("a")), 2 := Choice(2, Line("ab")), 3 := Choice(3, Line("abc")),
                               4 := Choice(4, Line("abcd"))],
                           1, {TAG})

  lemma ContentIsComplete()
    ensures Complete(CONTENT)
  {
    var o := CONTENT.options;
    assert o.Keys == {1, 2, 3, 4};
    assert |o| == |o.Keys|;
    forall a | a in o ensures o[a].ordinal == a && |o[a].text.canonical| == a {
      ChoiceText(a);
    }
  }

  /** The text of each option is as long as its number. */
  lemma ChoiceText(a: Id)
    requires a in CONTENT.options
    ensures CONTENT.options[a].ordinal == a && |CONTENT.options[a].text.canonical| == a
  {
    assert |"a"| == 1 && |"ab"| == 2 && |"abc"| == 3 && |"abcd"| == 4;
    assert a == 1 || a == 2 || a == 3 || a == 4;
  }

  function Administrators(): map<Id, User> {
    map[ADMIN := User(Admin, ActiveAccount), OTHER := User(Admin, ActiveAccount)]
  }

  /** Two administrators, one question, one open version written by the first. */
  ghost predicate Duo(db: Db) {
    && db.users == Administrators()
    && db.questions == map[QUESTION := NewQuestion(ADMIN)]
    && VERSION in db.versions && db.versions == map[VERSION := db.versions[VERSION]]
    && db.versions[VERSION].questionId == QUESTION
    && db.versions[VERSION].creator == AdminCreator(ADMIN)
    && OpenStatus(db.versions[VERSION].status)
    && TAG in db.tags
  }

  function Empty(): Db {
    Db(map[], map[], [], [], map[], Administrators(), {}, {}, {TAG})
  }

  function Created(): Db {
    InsertQuestion(Empty(), ADMIN, QUESTION, VERSION, CONTENT)
  }

  /** The version moved by one accepted transition. */
  function Moved(db: Db, operation: LifecycleOperation, actor: Id): Db
    requires VERSION in db.versions
  {
    TransitionEffect(db, Config(operation), actor, VERSION, db.versions[VERSION], Plain(db), 0)
  }

  function Plain(db: Db): TransitionRequest
    requires VERSION in db.versions
  {
    TransitionRequest(db.versions[VERSION].rowVersion, None, None)
  }

  lemma CreationCommits()
    ensures CommitCreateQuestion(Empty(), ADMIN, QUESTION, VERSION, CONTENT, ContentSeen(true, false)) == Ok(Created())
    ensures Duo(Created())
  {
    hide Arm, Complete, FingerprintOf;
    ContentIsComplete();
    CreationArms(Operation(ADMIN, QuestionCreate, {ADMIN}), Manifest(map[], map[], map[], CONTENT.tags));
    assert |{ADMIN}| == 1;
    assert !CrossQuestionDuplicate(Empty(), QUESTION, FingerprintOf(CONTENT));
    hide CONTENT;
  }

  lemma CreationArms(op: Operation, m: Manifest)
    requires op == Operation(ADMIN, QuestionCreate, {ADMIN}) && m == Manifest(map[], map[], map[], {TAG})
    ensures Arm(Empty(), op, m).None?
  {
    assert |{TAG}| == 1;
    assert DerivedUsers(Empty(), op, m) == {ADMIN};
  }

  function Targets(db: Db): Manifest
    requires VERSION in db.versions && QUESTION in db.questions
  {
    Manifest(map[QUESTION := QuestionItem(db.questions[QUESTION].rowVersion, db.questions[QUESTION].lifecycle)],
             map[VERSION := VersionItem(db.versions[VERSION].rowVersion, db.versions[VERSION].status)],
             map[], {})
  }

  /** A command refers to the actor and the author; no third user approved. */
  lemma DuoMatches(db: Db, command: Command, actor: Id, approver: Id)
    requires Duo(db) && approver in {ADMIN, actor}
    requires NamesApprover(command, db.versions[VERSION].status) ==>
               LatestApprover(db.reviews, VERSION) == Some(AdminAccount(approver))
    ensures TargetsMatch(db, Targets(db))
    ensures DerivedUsers(db, Operation(actor, command, {actor, ADMIN}), Targets(db)) == {actor, ADMIN}
  {
    hide LatestApprover, Administrators;
  }

  lemma OneKey<T>(m: map<Id, T>, k: Id)
    requires m.Keys == {k}
    ensures |m| == 1
  {
    assert |m| == |m.Keys|;
  }

  lemma DuoRules(db: Db, command: Command)
    requires Duo(db) && TargetsMatch(db, Targets(db))
    requires command in {ReviewRequest, Approval, ApprovalWithdrawal}
    requires VersionStateOk(command, db.versions[VERSION].status)
    ensures ShapeOk(command, Targets(db)) && AggregateRulesOk(db, command, Targets(db))
  {
    hide TargetsMatch;
    OneKey(Targets(db).questions, QUESTION);
    OneKey(Targets(db).versions, VERSION);
  }

  /** The single version manifest of a two-administrator database arms. */
  lemma DuoArms(db: Db, command: Command, actor: Id)
    requires Duo(db)
    requires command in {ReviewRequest, Approval, ApprovalWithdrawal}
    requires VersionStateOk(command, db.versions[VERSION].status)
    requires command == ApprovalWithdrawal ==> LatestApprover(db.reviews, VERSION) == Some(AdminAccount(ADMIN))
    ensures Arm(db, Operation(actor, command, {actor, ADMIN}), Targets(db)).None?
  {
    DuoMatches(db, command, actor, ADMIN);
    DuoRules(db, command);
    hide DerivedUsers, LatestApprover, AggregateRulesOk, ShapeOk, QuestionMatches, VersionMatches, ReportMatches, Duo;
  }

  /** Who may take a step of the run: only the author requests a review. */
  ghost predicate MayTake(operation: LifecycleOperation, actor: Id) {
    operation != RequestQuestionChanges && actor in {ADMIN, OTHER}
    && (operation == RequestContentReview ==> actor == ADMIN)
  }

  lemma DuoTransition(db: Db, operation: LifecycleOperation, actor: Id)
    requires Duo(db) && MayTake(operation, actor)
    requires db.versions[VERSION].status in Config(operation).fromStates
    requires operation == WithdrawQuestionApproval ==> LatestApprover(db.reviews, VERSION) == Some(AdminAccount(ADMIN))
    ensures CommitTransition(db, operation, actor, VERSION, Plain(db), LoadVersionTarget(db, VERSION), 0)
         == Ok(Moved(db, operation, actor))
  {
    hide Arm, LatestApprover, TransitionEffect, Begin;
    var t := LoadVersionTarget(db, VERSION).value;
    DuoArms(db, Config(operation).command, actor);
    assert SingleVersionManifest(VERSION, t) == Targets(db);
    assert TransitionReferenced(operation, actor, Some(t)) == {actor, ADMIN};
    DuoBegins(db, Config(operation).command, actor);
  }

  lemma DuoBegins(db: Db, command: Command, actor: Id)
    requires Duo(db) && actor in {ADMIN, OTHER}
    ensures Begin(db, Operation(actor, command, {actor, ADMIN})).None?
  {
    TwoAtMost(actor);
  }

  lemma TwoAtMost(actor: Id)
    ensures 1 <= |{actor, ADMIN}| <= 2
  {
    assert {actor, ADMIN} == {actor} + {ADMIN};
  }

  lemma DuoMoves(db: Db, operation: LifecycleOperation, actor: Id)
    requires Duo(db) && MayTake(operation, actor)
    ensures Duo(Moved(db, operation, actor))
    ensures Moved(db, operation, actor).versions[VERSION] ==
            db.versions[VERSION].(status := Config(operation).toState,
                                  rowVersion := db.versions[VERSION].rowVersion + 1)
    ensures LatestApprover(Moved(db, operation, actor).reviews, VERSION) ==
            if operation == ApproveQuestionVersion then Some(AdminAccount(actor))
            else LatestApprover(db.reviews, VERSION)
  {
    hide LatestApprover, Administrators;
    ApproverAppendAny(db.reviews, Moved(db, operation, actor).reviews[|db.reviews|]);
  }

  lemma ApproverAppendAny(reviews: seq<Review>, r: Review)
    requires r.versionId == VERSION
    ensures LatestApprover(reviews + [r], VERSION)
         == if r.action == ApprovedVersion then r.actor else LatestApprover(reviews, VERSION)
  {
    assert (reviews + [r])[..|reviews|] == reviews;
  }

  /** What the approval of the shared version leaves. */
  ghost predicate Approvable(db: Db, rowVersion: nat, approver: Id) {
    && Duo(db) && db.versions[VERSION].status == Approved && db.versions[VERSION].rowVersion == rowVersion
    && LatestApprover(db.reviews, VERSION) == Some(AdminAccount(approver))
  }

  /** The old rows of a version approved by the author, read while the other administrator has approved it again. */
  ghost predicate OldRows(db: Db, was: VersionTarget) {
    && Duo(db) && Approvable(db, db.versions[VERSION].rowVersion, OTHER)
    && was.version == db.versions[VERSION].(rowVersion := was.version.rowVersion)
    && was.question == db.questions[QUESTION] && was.approver == Some(AdminAccount(ADMIN))
  }

  /** A publication by the other administrator passes both guards although it was planned on old rows. */
  lemma DuoPublicationPasses(db: Db, was: VersionTarget)
    requires OldRows(db, was)
    ensures var aggregate := LoadLifecycleVersions(db, QUESTION);
            && aggregate == db.versions
            && PublishManifest(was, aggregate) == Targets(db)
            && PublishReferenced(OTHER, Some(was), aggregate) == {OTHER, ADMIN}
            && Begin(db, Operation(OTHER, Publication, {OTHER, ADMIN})).None?
            && Arm(db, Operation(OTHER, Publication, {OTHER, ADMIN}), Targets(db)).None?
  {
    hide Arm, Begin, LatestApprover, Administrators;
    DuoPublicationArms(db);
    DuoBegins(db, Publication, OTHER);
  }

  /** It commits, one above the row version it was planned on, and names the approver it read. */
  lemma DuoPublication(db: Db, was: VersionTarget)
    requires OldRows(db, was)
    ensures var r := CommitPublish(db, OTHER, VERSION, 1, was.version.rowVersion, Some(was),
                                   LoadLifecycleVersions(db, QUESTION), 0);
            && r.Ok?
            && VERSION in r.value.versions
            && r.value.versions[VERSION].rowVersion == was.version.rowVersion + 1
            && r.value.versions[VERSION].status == Published
            && r.value.reviews == db.reviews + [Review(VERSION, QUESTION, PublishedVersion, Approved, Published,
                                                       Some(AdminAccount(OTHER)), Some(AdminAccount(ADMIN)), None,
                                                       None, 0)]
  {
    hide Complete, Arm, Begin, FingerprintOf, CrossQuestionDuplicate, LatestApprover, Administrators,
         LoadLifecycleVersions, PublishManifest, PublishReferenced;
    DuoPublicationPasses(db, was);
    assert PublishRowsOk(VERSION, was, db.versions);
    NoOtherQuestion(db, FingerprintOf(was.version.content));
  }

  lemma NoOtherQuestion(db: Db, f: Fingerprint)
    requires Duo(db)
    ensures !CrossQuestionDuplicate(db, QUESTION, f)
  {
    hide FingerprintOf;
  }

  lemma DuoPublicationExact(db: Db)
    requires Duo(db) && db.versions[VERSION].status == Approved && TargetsMatch(db, Targets(db))
    ensures PublicationExact(db, Targets(db))
  {
    hide TargetsMatch;
    var m := Targets(db);
    OneKey(m.versions, VERSION);
    var approved := set v | v in m.versions && db.versions[v].status == Approved;
    assert approved == {VERSION};
    var published := set v | v in m.versions && db.versions[v].status == Published;
    assert published == {};
  }

  lemma DuoPublicationArms(db: Db)
    requires Duo(db) && Approvable(db, db.versions[VERSION].rowVersion, OTHER)
    ensures Arm(db, Operation(OTHER, Publication, {OTHER, ADMIN}), Targets(db)).None?
  {
    hide DerivedUsers, LatestApprover, TargetsMatch, PublicationExact, Administrators;
    DuoMatches(db, Publication, OTHER, OTHER);
    DuoPublicationExact(db);
    OneKey(Targets(db).questions, QUESTION);
    OneKey(Targets(db).versions, VERSION);
  }

  // ----- the run

  function Step(operation: LifecycleOperation, actor: Id, rowVersion: nat, at: nat): Event {
    Transition(operation, actor, VERSION, TransitionRequest(rowVersion, None, None), at, 0)
  }

  /**
    * Create, request, approve by the author; withdraw, request, approve by the
    * other administrator, who then publishes on the rows of the first approval.
    */
  function RaceEvents(): seq<Event> {
    [CreateQuestion(ADMIN, QUESTION, VERSION, CONTENT, ContentSeen(true, false)),
     Step(RequestContentReview, ADMIN, 1, 1),
     Step(ApproveQuestionVersion, ADMIN, 2, 2),
     Step(WithdrawQuestionApproval, ADMIN, 3, 3),
     Step(RequestContentReview, ADMIN, 4, 4),
     Step(ApproveQuestionVersion, OTHER, 5, 5),
     Publish(OTHER, VERSION, 1, 3, 3, 6, 0)]
  }

  lemma DuoCommits(h: seq<Db>, operation: LifecycleOperation, actor: Id, rowVersion: nat)
    requires |h| > 0 && Duo(h[|h| - 1]) && MayTake(operation, actor)
    requires var db := h[|h| - 1];
             && db.versions[VERSION].status in Config(operation).fromStates
             && db.versions[VERSION].rowVersion == rowVersion
             && (operation == WithdrawQuestionApproval ==>
                   LatestApprover(db.reviews, VERSION) == Some(AdminAccount(ADMIN)))
    ensures Commits(h, Step(operation, actor, rowVersion, |h| - 1), Moved(h[|h| - 1], operation, actor))
  {
    hide CommitTransition, TransitionEffect, Duo, LatestApprover, MayTake;
    DuoTransition(h[|h| - 1], operation, actor);
  }

  lemma EmptyIsSeeded()
    ensures Seeded(Empty())
  {
  }

  lemma RunGrows(h: seq<Db>, events: seq<Event>, e: Event, next: Db)
    requires Run(h, events) && Commits(h, e, next)
    ensures Run(h + [next], events + [e])
  {
    hide Commits, Seeded;
    var g, es := h + [next], events + [e];
    forall k | 0 <= k < |es| ensures Stepped(g, es, k) {
      if k < |events| {
        assert Stepped(h, events, k);
        assert g[..k + 1] == h[..k + 1];
      } else {
        assert g[..k + 1] == h;
      }
    }
  }

  /** After n events of the run the version has the given status, row version and latest approver. */
  ghost predicate Stage(h: seq<Db>, n: nat, status: Status, rowVersion: nat, approver: Option<Account>) {
    && n <= |RaceEvents()| && |h| == n + 1
    && Run(h, RaceEvents()[..n])
    && Duo(h[n])
    && VERSION in h[n].versions
    && h[n].versions[VERSION] == NewVersion(ADMIN, QUESTION, 1, CONTENT).(status := status, rowVersion := rowVersion)
    && LatestApprover(h[n].reviews, VERSION) == approver
  }

  /** One more transition of the run. */
  lemma NextStage(h: seq<Db>, n: nat, operation: LifecycleOperation, actor: Id, status: Status, rowVersion: nat,
                  approver: Option<Account>)
    returns (next: seq<Db>)
    requires Stage(h, n, status, rowVersion, approver) && n < |RaceEvents()|
    requires RaceEvents()[n] == Step(operation, actor, rowVersion, n)
    requires MayTake(operation, actor) && status in Config(operation).fromStates
    requires operation == WithdrawQuestionApproval ==> approver == Some(AdminAccount(ADMIN))
    ensures |next| == n + 2 && next[..n + 1] == h
    ensures Stage(next, n + 1, Config(operation).toState, rowVersion + 1,
                  if operation == ApproveQuestionVersion then Some(AdminAccount(actor)) else approver)
  {
    hide Run, Commits, Duo, LatestApprover, Moved, RaceEvents, MayTake;
    hide CONTENT;
    MovedHas(h[n], operation, actor);
    next := h + [Moved(h[n], operation, actor)];
    DuoMoves(h[n], operation, actor);
    NextRun(h, n, operation, actor, rowVersion);
  }

  lemma NextRun(h: seq<Db>, n: nat, operation: LifecycleOperation, actor: Id, rowVersion: nat)
    requires n < |RaceEvents()| && |h| == n + 1 && Run(h, RaceEvents()[..n]) && Duo(h[n])
    requires RaceEvents()[n] == Step(operation, actor, rowVersion, n)
    requires MayTake(operation, actor) && VERSION in h[n].versions
    requires h[n].versions[VERSION].status in Config(operation).fromStates
             && h[n].versions[VERSION].rowVersion == rowVersion
    requires operation == WithdrawQuestionApproval ==>
               LatestApprover(h[n].reviews, VERSION) == Some(AdminAccount(ADMIN))
    ensures Run(h + [Moved(h[n], operation, actor)], RaceEvents()[..n + 1])
  {
    hide Run, Commits, Duo, LatestApprover, Moved, RaceEvents, MayTake;
    var es := RaceEvents();
    DuoCommits(h, operation, actor, rowVersion);
    RunGrows(h, es[..n], es[n], Moved(h[n], operation, actor));
    assert es[..n + 1] == es[..n] + [es[n]];
  }

  lemma MovedHas(db: Db, operation: LifecycleOperation, actor: Id)
    requires VERSION in db.versions
    ensures VERSION in Moved(db, operation, actor).versions
  {
  }

  lemma FirstStage() returns (h: seq<Db>)
    ensures Stage(h, 1, Draft, 1, None)
  {
    hide CommitCreateQuestion, CONTENT, InsertQuestion, Seeded;
    CreationCommits();
    EmptyIsSeeded();
    var es := RaceEvents()[..1];
    h := [Empty(), Created()];
    assert Commits([Empty()], es[0], Created());
    assert h[..1] == [Empty()];
    assert Stepped(h, es, 0);
    CreatedRows();
  }

  lemma CreatedRows()
    ensures Created().versions == map[VERSION := NewVersion(ADMIN, QUESTION, 1, CONTENT)]
    ensures Created().reviews == []
  {
    hide CONTENT;
  }

  lemma FirstApproval() returns (h: seq<Db>)
    ensures Stage(h, 3, Approved, 3, Some(AdminAccount(ADMIN)))
  {
    hide Stage;
    h := FirstStage();
    h := NextStage(h, 1, RequestContentReview, ADMIN, Draft, 1, None);
    h := NextStage(h, 2, ApproveQuestionVersion, ADMIN, InReview, 2, None);
  }

  lemma SecondApproval() returns (h: seq<Db>)
    ensures Stage(h, 6, Approved, 6, Some(AdminAccount(OTHER)))
    ensures |h| == 7 && Stage(h[..4], 3, Approved, 3, Some(AdminAccount(ADMIN)))
    ensures Stage(h[..5], 4, ChangesRequested, 4, Some(AdminAccount(ADMIN)))
  {
    hide Stage;
    var first := FirstApproval();
    var second := NextStage(first, 3, WithdrawQuestionApproval, ADMIN, Approved, 3, Some(AdminAccount(ADMIN)));
    var third := NextStage(second, 4, RequestContentReview, ADMIN, ChangesRequested, 4, Some(AdminAccount(ADMIN)));
    h := NextStage(third, 5, ApproveQuestionVersion, OTHER, InReview, 5, Some(AdminAccount(ADMIN)));
    assert h[..6][..5] == h[..5] && h[..5][..4] == h[..4];
  }

  /** The rows a two-administrator database gives a publication. */
  lemma DuoTarget(db: Db, rowVersion: nat, approver: Id)
    requires Approvable(db, rowVersion, approver)
    ensures LoadVersionTarget(db, VERSION).Some?
    ensures var t := LoadVersionTarget(db, VERSION).value;
            && t.version == db.versions[VERSION] && t.question == NewQuestion(ADMIN)
            && t.approver == Some(AdminAccount(approver)) && t.version.questionId == QUESTION
    ensures QUESTION in db.questions && db.questions[QUESTION] == NewQuestion(ADMIN)
  {
    hide LatestApprover, Administrators;
  }

  /**
    * The publication planned on the first approval commits after the second one.
    * Run on the rows of its own database it is a version conflict; it leaves a
    * row version below the one it replaced, one that the version had before while
    * it was open, and names the approver of the first approval.
    */
  lemma PublicationOnOldRowsCommits() returns (h: seq<Db>)
    ensures Run(h, RaceEvents()) && |h| == 8
    ensures VERSION in h[4].versions && h[4].versions[VERSION].status == ChangesRequested
            && h[4].versions[VERSION].rowVersion == 4
    ensures VERSION in h[6].versions && h[6].versions[VERSION].rowVersion == 6
    ensures VERSION in h[7].versions && h[7].versions[VERSION].status == Published
            && h[7].versions[VERSION].rowVersion == 4
    ensures CommitPublish(h[6], OTHER, VERSION, 1, 3, LoadVersionTarget(h[3], VERSION),
                          LoadLifecycleVersions(h[6], QUESTION), 0)
         == Ok(h[7])
    ensures CommitPublish(h[6], OTHER, VERSION, 1, 3, LoadVersionTarget(h[6], VERSION),
                          LoadLifecycleVersions(h[6], QUESTION), 0)
         == Err(VersionConflict)
    ensures LatestApprover(h[6].reviews, VERSION) == Some(AdminAccount(OTHER))
    ensures |h[7].reviews| == |h[6].reviews| + 1
         && h[7].reviews[|h[6].reviews|].action == PublishedVersion
         && h[7].reviews[|h[6].reviews|].counterpart == Some(AdminAccount(ADMIN))
  {
    hide Run, LatestApprover, LoadVersionTarget, LoadLifecycleVersions, CommitPublish, CONTENT, Duo, RaceEvents;
    h := SecondApproval();
    assert h[..4][3] == h[3] && h[..5][4] == h[4];
    DuoTarget(h[3], 3, ADMIN);
    DuoTarget(h[6], 6, OTHER);
    var t := LoadVersionTarget(h[3], VERSION).value;
    DuoPublication(h[6], t);
    var next := CommitPublish(h[6], OTHER, VERSION, 1, 3, Some(t), LoadLifecycleVersions(h[6], QUESTION), 0).value;
    RaceEnds(h, next);
    FreshPublicationConflicts(h[6]);
    h := h + [next];
  }

  lemma RaceEnds(h: seq<Db>, next: Db)
    requires Run(h, RaceEvents()[..6]) && |h| == 7
    requires LoadVersionTarget(h[3], VERSION).Some?
             && LoadVersionTarget(h[3], VERSION).value.version.questionId == QUESTION
    requires CommitPublish(h[6], OTHER, VERSION, 1, 3, LoadVersionTarget(h[3], VERSION),
                           LoadLifecycleVersions(h[6], QUESTION), 0) == Ok(next)
    ensures Run(h + [next], RaceEvents())
  {
    hide Run, CommitPublish, LoadVersionTarget, LoadLifecycleVersions, CONTENT;
    var es := RaceEvents();
    assert Commits(h, es[6], next);
    RunGrows(h, es[..6], es[6], next);
    assert es == es[..6] + [es[6]];
  }

  lemma FreshPublicationConflicts(db: Db)
    requires Approvable(db, 6, OTHER)
    ensures CommitPublish(db, OTHER, VERSION, 1, 3, LoadVersionTarget(db, VERSION),
                          LoadLifecycleVersions(db, QUESTION), 0)
         == Err(VersionConflict)
  {
    hide LatestApprover, Arm, Begin, LoadLifecycleVersions, PublishReferenced, Administrators;
    DuoTarget(db, 6, OTHER);
    DuoReferences(db);
    DuoBegins(db, Publication, OTHER);
  }

  lemma DuoReferences(db: Db)
    requires Approvable(db, 6, OTHER)
    ensures PublishReferenced(OTHER, LoadVersionTarget(db, VERSION), LoadLifecycleVersions(db, QUESTION))
            == {OTHER, ADMIN}
  {
    hide LatestApprover, Administrators;
    assert LoadLifecycleVersions(db, QUESTION) == db.versions;
  }
}
