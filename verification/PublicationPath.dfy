/**
  * From every state of every run an open version whose author is still an
  * administrator can be published: at most three commits of the author lead there.
  */
module PublicationPath {
  import opened Common
  import opened ContentTables
  import opened ContentCommands
  import opened ContentInvariant
  import opened ContentOrder
  import opened ContentEvents
  import opened ContentRuns
  import opened LifecycleAnswers

  function Last(h: seq<Db>): Db
    requires |h| > 0
  {
    h[|h| - 1]
  }

  /** A commit after the last state makes the run longer. */
  lemma RunGrows(h: seq<Db>, events: seq<Event>, e: Event, next: Db)
    requires Run(h, events) && Commits(h, e, next)
    ensures Run(h + [next], events + [e])
  {
    hide Commits, Seeded;
    var h2, events2 := h + [next], events + [e];
    forall k | 0 <= k < |events2| ensures Stepped(h2, events2, k) {
      assert h2[..k + 1] == h[..k + 1];
      if k < |events| {
        assert Stepped(h, events, k);
      } else {
        assert h[..k + 1] == h;
      }
    }
  }

  lemma LastIsSound(h: seq<Db>, events: seq<Event>)
    requires Run(h, events)
    ensures |h| > 0 && Inv(Last(h))
  {
    hide Run, Inv, Follows;
    RunIsSound(h, events);
  }

  /** How many commits an open version is away from being published. */
  function Distance(s: Status): nat {
    match s
    case Draft => 3
    case ChangesRequested => 3
    case InReview => 2
    case Approved => 1
    case _ => 0
  }

  /** The next commit of the author: request, approve, publish. */
  function NextCommit(h: seq<Db>, id: Id, author: Id, now: Time): Event
    requires |h| > 0 && id in Last(h).versions && Last(h).versions[id].questionId in Last(h).questions
  {
    var db, at := Last(h), |h| - 1;
    var row := db.versions[id];
    var request := TransitionRequest(row.rowVersion, None, None);
    if Editable(row.status) then Transition(RequestContentReview, author, id, request, at, now)
    else if row.status == InReview then Transition(ApproveQuestionVersion, author, id, request, at, now)
    else Publish(author, id, db.questions[row.questionId].rowVersion, row.rowVersion, at, at, now)
  }

  /** The version is open, and its author an active administrator. */
  ghost predicate OwnedBy(db: Db, id: Id, author: Id) {
    && id in db.versions && OpenStatus(db.versions[id].status) && db.versions[id].creator.userId == Some(author)
    && author in db.users && db.users[author] == User(Admin, ActiveAccount)
  }

  /** The commit left the version one step further, with its content and its author. */
  ghost predicate OneStep(db: Db, next: Db, id: Id, author: Id)
    requires id in db.versions
  {
    && id in next.versions
    && Distance(next.versions[id].status) + 1 == Distance(db.versions[id].status)
    && (next.versions[id].status == Published || OwnedBy(next, id, author))
    && next.versions[id].content == db.versions[id].content
  }

  lemma ReviewStep(db: Db, id: Id, author: Id, now: Time) returns (operation: LifecycleOperation, next: Db)
    requires Inv(db) && OwnedBy(db, id, author) && db.versions[id].status != Approved
    ensures operation == if db.versions[id].status == InReview then ApproveQuestionVersion else RequestContentReview
    ensures CommitTransition(db, operation, author, id, TransitionRequest(db.versions[id].rowVersion, None, None),
                             LoadVersionTarget(db, id), now) == Ok(next)
    ensures OneStep(db, next, id, author)
  {
    hide Inv, CommitTransition, LoadVersionTarget;
    var row := db.versions[id];
    var request := TransitionRequest(row.rowVersion, None, None);
    operation := if row.status == InReview then ApproveQuestionVersion else RequestContentReview;
    assert Moves(operation, row.status, if row.status == InReview then Approved else InReview);
    TransitionAnswers(db, operation, author, id, request, now);
    next := CommitTransition(db, operation, author, id, request, LoadVersionTarget(db, id), now).value;
  }

  lemma PublishStep(db: Db, id: Id, author: Id, now: Time) returns (next: Db)
    requires Inv(db) && OwnedBy(db, id, author) && db.versions[id].status == Approved
    ensures db.versions[id].questionId in db.questions && LoadVersionTarget(db, id).Some?
    ensures LoadVersionTarget(db, id).value.version == db.versions[id]
    ensures CommitPublish(db, author, id, db.questions[db.versions[id].questionId].rowVersion,
                          db.versions[id].rowVersion, LoadVersionTarget(db, id),
                          LoadLifecycleVersions(db, db.versions[id].questionId), now) == Ok(next)
    ensures OneStep(db, next, id, author)
  {
    hide Inv, CommitPublish, LoadVersionTarget, LoadLifecycleVersions, LatestApprover;
    OpenIsActive(db, id);
    TargetIsThere(db, id);
    var row := db.versions[id];
    var expected := db.questions[row.questionId].rowVersion;
    PublishAnswers(db, author, id, expected, row.rowVersion, now);
    next := CommitPublish(db, author, id, expected, row.rowVersion, LoadVersionTarget(db, id),
                          LoadLifecycleVersions(db, row.questionId), now).value;
  }

  lemma ReviewCommits(h: seq<Db>, operation: LifecycleOperation, actor: Id, id: Id, request: TransitionRequest,
                      now: Time, next: Db)
    requires |h| > 0
    requires CommitTransition(Last(h), operation, actor, id, request, LoadVersionTarget(Last(h), id), now) == Ok(next)
    ensures Commits(h, Transition(operation, actor, id, request, |h| - 1, now), next)
  {
    hide CommitTransition, LoadVersionTarget;
  }

  lemma PublishCommitsHere(h: seq<Db>, actor: Id, id: Id, expectedQuestion: nat, expected: nat, now: Time, next: Db)
    requires |h| > 0 && LoadVersionTarget(Last(h), id).Some?
    requires CommitPublish(Last(h), actor, id, expectedQuestion, expected, LoadVersionTarget(Last(h), id),
                           LoadLifecycleVersions(Last(h), LoadVersionTarget(Last(h), id).value.version.questionId), now)
             == Ok(next)
    ensures Commits(h, Publish(actor, id, expectedQuestion, expected, |h| - 1, |h| - 1, now), next)
  {
    hide CommitPublish, LoadVersionTarget, LoadLifecycleVersions;
  }

  /** Each of these commits succeeds and takes the version one step further. */
  lemma OneCommit(h: seq<Db>, events: seq<Event>, id: Id, author: Id, now: Time) returns (next: Db)
    requires Run(h, events) && |h| > 0 && OwnedBy(Last(h), id, author)
    ensures Last(h).versions[id].questionId in Last(h).questions
    ensures Commits(h, NextCommit(h, id, author, now), next)
    ensures OneStep(Last(h), next, id, author)
  {
    var db := Last(h);
    LastIsSound(h, events);
    OpenIsActive(db, id);
    hide Run, Inv, Commits, CommitTransition, CommitPublish, LoadVersionTarget, LoadLifecycleVersions, OneStep;
    var row := db.versions[id];
    if row.status == Approved {
      next := PublishStep(db, id, author, now);
      PublishCommitsHere(h, author, id, db.questions[row.questionId].rowVersion, row.rowVersion, now, next);
    } else {
      var operation;
      operation, next := ReviewStep(db, id, author, now);
      ReviewCommits(h, operation, author, id, TransitionRequest(row.rowVersion, None, None), now, next);
    }
  }

  /**
    * Every open version of every reachable state whose author is an active
    * administrator has a run of at most three more commits, all by the author,
    * after which it is published with the content it has now.
    */
  lemma {:induction false} CandidateCanBePublished(h: seq<Db>, events: seq<Event>, id: Id, author: Id, now: Time)
    returns (h2: seq<Db>, events2: seq<Event>)
    requires Run(h, events) && |h| > 0 && OwnedBy(Last(h), id, author)
    ensures Run(h2, events2) && |events2| == |events| + Distance(Last(h).versions[id].status)
    ensures h <= h2 && events <= events2
    ensures id in Last(h2).versions && Last(h2).versions[id].status == Published
    ensures Last(h2).versions[id].content == Last(h).versions[id].content
    ensures Last(h2).versions[id].questionId in Last(h2).questions
    ensures Last(h2).questions[Last(h2).versions[id].questionId].current == Some(id)
    decreases Distance(Last(h).versions[id].status)
  {
    hide Run, Commits, NextCommit, LoadVersionTarget;
    var next := OneCommit(h, events, id, author, now);
    var e := NextCommit(h, id, author, now);
    RunGrows(h, events, e, next);
    if next.versions[id].status == Published {
      h2, events2 := h + [next], events + [e];
      LastIsSound(h2, events2);
      PublishedIsCurrent(next, id);
    } else {
      h2, events2 := CandidateCanBePublished(h + [next], events + [e], id, author, now);
    }
  }
}
