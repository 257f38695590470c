/**
  * Admin re-authentication: an intent to replace one active session, a pending
  * replacement, and the proof of the provider sign-in that completes it. Each
  * function is one transaction over the authority tables.
  */
module Rotation {
  import opened Common

  const SECOND: Time := 1000
  const MINUTE: Time := 60 * SECOND
  const DAY: Time := 24 * 60 * MINUTE
  const INTENT_LIFETIME: Time := 2 * MINUTE
  const PROOF_LIFETIME: Time := 2 * MINUTE
  const FRESH_LIFETIME: Time := 5 * MINUTE
  const SETTLED_AFTER: Time := 15 * MINUTE
  const SESSION_LIMIT: Time := 30 * DAY

  datatype Link = Link(provider: Id, accountId: Id)

  datatype Actor = Actor(admin: bool, active: bool, verified: bool, generation: nat, links: set<Link>)

  /** A raw token is named by its id; its digest identifies it. */
  datatype Session = Session(userId: Id, token: Id, pending: bool, generation: nat, createdAt: Time, expiresAt: Time)

  datatype IntentState = Prepared | Staged | Finalized

  datatype StagedRef = StagedRef(sessionId: Id, token: Id)

  datatype Intent = Intent(
    operationId: Id,
    requestId: Id,
    userId: Id,
    oldSessionId: Id,
    oldToken: Id,
    generation: nat,
    state: IntentState,
    staged: Option<StagedRef>,
    expiresAt: Time,
    finalizedAt: Option<Time>)

  datatype Context = Context(intentId: Id, userId: Id, sessionId: Id, generation: nat, link: Link)

  datatype Completion = Completion(sessionId: Id, at: Time)

  datatype Proof = Proof(context: Context, completed: Option<Completion>, expiresAt: Time)

  /** One REAUTHENTICATION audit row. */
  datatype RotationAudit = RotationAudit(operationId: Id, requestId: Id, userId: Id, wasFresh: bool)

  /** The authority tables, the database clock and the ids handed out so far. */
  datatype Auth = Auth(
    users: map<Id, Actor>,
    sessions: map<Id, Session>,
    intents: map<Id, Intent>,
    proofs: map<Id, Proof>,
    audits: seq<RotationAudit>,
    now: Time,
    issued: set<Id>)

  datatype RotatedSession = RotatedSession(id: Id, createdAt: Time, expiresAt: Time, generation: nat, userId: Id)

  // ----- shared conditions

  predicate Unfinished(i: Intent) {
    i.state == Prepared || i.state == Staged
  }

  predicate Unexpired(db: Auth, s: Session) {
    db.now < s.expiresAt && db.now < s.createdAt + SESSION_LIMIT
  }

  /** The user is an active administrator of the given generation. */
  predicate AdminOf(db: Auth, userId: Id, generation: nat) {
    userId in db.users && db.users[userId].admin && db.users[userId].active && db.users[userId].generation == generation
  }

  /** The session is active, current and unexpired. */
  predicate Holds(db: Auth, sessionId: Id, generation: nat) {
    && sessionId in db.sessions
    && !db.sessions[sessionId].pending
    && db.sessions[sessionId].generation == generation
    && AdminOf(db, db.sessions[sessionId].userId, generation)
    && Unexpired(db, db.sessions[sessionId])
  }

  /** The PREPARED intent still owns the exact old session and the linked account of the context. */
  predicate ContextIsValid(db: Auth, c: Context) {
    && c.intentId in db.intents
    && db.intents[c.intentId].state == Prepared
    && db.now < db.intents[c.intentId].expiresAt
    && db.intents[c.intentId].userId == c.userId
    && db.intents[c.intentId].oldSessionId == c.sessionId
    && db.intents[c.intentId].generation == c.generation
    && Holds(db, c.sessionId, c.generation)
    && db.sessions[c.sessionId].userId == c.userId
    && c.link in db.users[c.userId].links
    && db.sessions[c.sessionId].token == db.intents[c.intentId].oldToken
  }

  function Min(a: Time, b: Time): Time {
    if a <= b then a else b
  }

  // ----- prepare

  function UnfinishedOf(db: Auth, sessionId: Id): set<Id> {
    set i | i in db.intents && db.intents[i].oldSessionId == sessionId && Unfinished(db.intents[i])
  }

  function ExpiredOf(db: Auth, sessionId: Id): set<Id> {
    set i | i in UnfinishedOf(db, sessionId) && db.intents[i].expiresAt <= db.now
  }

  lemma {:induction false} LeastOf(s: set<Id>) returns (m: Id)
    requires s != {}
    ensures m in s && forall y | y in s :: m <= y
    decreases |s|
  {
    var first :| first in s;
    m := first;
    if s - {first} != {} {
      var rest := LeastOf(s - {first});
      m := if first <= rest then first else rest;
    }
    forall y | y in s ensures m <= y {
      assert y == first || y in s - {first};
    }
  }

  function Least(s: set<Id>): (x: Id)
    requires s != {}
    ensures x in s && forall y | y in s :: x <= y
  {
    assert exists x :: x in s && forall y | y in s :: x <= y by {
      var m := LeastOf(s);
    }
    var x :| x in s && forall y | y in s :: x <= y;
    x
  }

  /** Drops a pending session of the user; every other session stays. */
  function WithoutPending(db: Auth, staged: Option<StagedRef>, userId: Id): Auth {
    if staged.Some? && staged.value.sessionId in db.sessions && db.sessions[staged.value.sessionId].userId == userId
       && db.sessions[staged.value.sessionId].pending
    then db.(sessions := db.sessions - {staged.value.sessionId})
    else db
  }

  /** Removes an unfinished intent together with its pending session. */
  function DropIntent(db: Auth, intentId: Id): Auth
    requires intentId in db.intents
  {
    var i := db.intents[intentId];
    var d := WithoutPending(db, i.staged, i.userId);
    d.(intents := d.intents - {intentId})
  }

  datatype PrepareResult = Refused(db: Auth) | Contended | PreparedIn(db: Auth)

  function DropExpired(db: Auth, sessionId: Id): Auth {
    var expired := ExpiredOf(db, sessionId);
    if expired == {} then db else DropIntent(db, Least(expired))
  }

  function NewIntent(db: Auth, sessionId: Id, requestId: Id, operationId: Id): Intent
    requires sessionId in db.sessions
  {
    var s := db.sessions[sessionId];
    Intent(operationId, requestId, s.userId, sessionId, s.token, s.generation, Prepared, None,
           db.now + INTENT_LIFETIME, None)
  }

  /** A PREPARED intent for the active session of the token, after dropping one expired unfinished intent of it. */
  function Prepare(db: Auth, sessionId: Id, token: Id, actorId: Id, requestId: Id, intentId: Id,
                   operationId: Id): PrepareResult
  {
    if !(sessionId in db.sessions && db.sessions[sessionId].token == token && db.sessions[sessionId].userId == actorId
         && Holds(db, sessionId, db.sessions[sessionId].generation) && db.users[actorId].verified) then Refused(db)
    else
      var d := DropExpired(db, sessionId);
      if UnfinishedOf(d, sessionId) != {} then Contended
      else if !(sessionId in d.sessions && Holds(d, sessionId, d.sessions[sessionId].generation)) then Refused(d)
      else PreparedIn(d.(intents := d.intents[intentId := NewIntent(d, sessionId, requestId, operationId)],
                         issued := d.issued + {intentId, operationId, requestId}))
  }

  // ----- stage, finalize, complete

  /** The pending replacement of a PREPARED intent; None when the intent or its old session no longer qualifies. */
  function Stage(db: Auth, intentId: Id, newId: Id, newToken: Id, userId: Id, expiresAt: Time): Option<Auth> {
    if intentId !in db.intents then None
    else
      var i := db.intents[intentId];
      if i.state == Prepared && i.userId == userId && db.now < i.expiresAt
         && db.now + DAY - 5 * MINUTE <= expiresAt <= db.now + DAY + 5 * MINUTE
         && Holds(db, i.oldSessionId, i.generation)
         && db.sessions[i.oldSessionId].userId == i.userId && db.sessions[i.oldSessionId].token == i.oldToken
         && newId !in db.issued && newToken !in db.issued && newId != newToken
      then
        var session := Session(i.userId, newToken, true, i.generation, db.now, db.now + DAY);
        Some(db.(sessions := db.sessions[newId := session],
                 intents := db.intents[intentId := i.(state := Staged, staged := Some(StagedRef(newId, newToken)))],
                 issued := db.issued + {newId, newToken}))
      else None
  }

  /**
    * The staged session is pending under the given token and the old one still
    * active; both belong to the intent's user.
    */
  predicate PairReady(db: Auth, i: Intent, newToken: Id)
    requires i.staged.Some?
  {
    var newId := i.staged.value.sessionId;
    && newId in db.sessions
    && db.sessions[newId].userId == i.userId && db.sessions[newId].token == newToken && db.sessions[newId].pending
    && db.sessions[newId].expiresAt - db.sessions[newId].createdAt == DAY
    && db.sessions[newId].generation == i.generation && db.now < db.sessions[newId].expiresAt
    && i.oldSessionId in db.sessions
    && db.sessions[i.oldSessionId].userId == i.userId && !db.sessions[i.oldSessionId].pending
    && db.sessions[i.oldSessionId].token == i.oldToken
    && Unexpired(db, db.sessions[i.oldSessionId])
    && AdminOf(db, i.userId, i.generation)
  }

  /**
    * Activates the staged session, deletes the old one, writes the audit row and
    * finalizes the intent; None when it raises.
    */
  function Finalize(db: Auth, intentId: Id, newToken: Id): Option<Auth> {
    if intentId !in db.intents then None
    else
      var i := db.intents[intentId];
      if !(i.state == Staged && db.now < i.expiresAt && i.staged.Some? && i.staged.value.token == newToken
           && PairReady(db, i, newToken)) then None
      else
        var newId := i.staged.value.sessionId;
        var was := db.sessions[i.oldSessionId];
        if was.generation != i.generation then None
        else
          var rotated := db.(
            sessions := db.sessions[newId := db.sessions[newId].(pending := false)] - {i.oldSessionId},
            audits := db.audits
              + [RotationAudit(i.operationId, i.requestId, i.userId, db.now < was.createdAt + FRESH_LIFETIME)],
            intents := db.intents[intentId := i.(state := Finalized, finalizedAt := Some(db.now))]);
          if Holds(rotated, newId, i.generation) then Some(rotated) else None
  }

  datatype CompleteResult = Rotated(db: Auth, session: RotatedSession) | NoRotation | RotationRaised

  /** Stages, finalizes and confirms the rotation of a proof and marks the proof complete, all or nothing. */
  function Complete(db: Auth, digest: Id, oldToken: Id, newId: Id, newToken: Id): CompleteResult {
    if digest !in db.proofs then NoRotation
    else
      var p := db.proofs[digest];
      if p.completed.Some? || p.expiresAt <= db.now || !ContextIsValid(db, p.context) then NoRotation
      else if db.sessions[p.context.sessionId].token != oldToken then NoRotation
      else
        var staged := Stage(db, p.context.intentId, newId, newToken, p.context.userId, db.now + DAY);
        if staged.None? then RotationRaised
        else
          var finalized := Finalize(staged.value, p.context.intentId, newToken);
          if finalized.None? then RotationRaised
          else if !Holds(finalized.value, newId, p.context.generation) then RotationRaised
          else
            var d := finalized.value;
            var s := d.sessions[newId];
            Rotated(d.(proofs := d.proofs[digest := p.(completed := Some(Completion(newId, s.createdAt)),
                                                       expiresAt := Min(s.createdAt + FRESH_LIFETIME, s.expiresAt))]),
                    RotatedSession(newId, s.createdAt, s.expiresAt, p.context.generation, p.context.userId))
  }

  // ----- proofs

  /** A proof of the provider sign-in, for a context that is still valid. */
  function StageProof(db: Auth, context: Context, digest: Id): Option<Auth> {
    if !ContextIsValid(db, context) || digest in db.issued then None
    else Some(db.(proofs := db.proofs[digest := Proof(context, None, Min(db.intents[context.intentId].expiresAt,
                                                                         db.now + PROOF_LIFETIME))],
                  issued := db.issued + {digest}))
  }

  /** Beginning a provider transaction sweeps every expired proof. */
  function SweepProofs(db: Auth): Auth {
    db.(proofs := map d | d in db.proofs && db.now < db.proofs[d].expiresAt :: db.proofs[d])
  }

  // ----- recovery

  predicate HasAudit(db: Auth, i: Intent) {
    exists k | 0 <= k < |db.audits| ::
      db.audits[k].operationId == i.operationId && db.audits[k].requestId == i.requestId
      && db.audits[k].userId == i.userId
  }

  /** The exact FINALIZED rotation of an intent, while the replacement still holds authority. */
  function ReconcileIntent(db: Auth, intentId: Id, newToken: Id): Option<RotatedSession> {
    if intentId !in db.intents then None
    else
      var i := db.intents[intentId];
      if i.state == Finalized && i.staged.Some? && i.staged.value.token == newToken
         && Holds(db, i.staged.value.sessionId, i.generation)
         && db.sessions[i.staged.value.sessionId].userId == i.userId
         && db.sessions[i.staged.value.sessionId].token == newToken
         && HasAudit(db, i)
      then
        var s := db.sessions[i.staged.value.sessionId];
        Some(RotatedSession(i.staged.value.sessionId, s.createdAt, s.expiresAt, s.generation, i.userId))
      else None
  }

  /** The rotation a live proof completed, for the token of the caller. */
  function Reconcile(db: Auth, digest: Id, newToken: Id): Option<RotatedSession> {
    if digest !in db.proofs || db.proofs[digest].expiresAt <= db.now then None
    else
      var p := db.proofs[digest];
      var r := ReconcileIntent(db, p.context.intentId, newToken);
      if r.Some? && p.completed.Some? && r.value.id == p.completed.value.sessionId
      then Some(r.value.(userId := p.context.userId)) else None
  }

  /** Drops an unfinished intent and its pending session; false for a finalized one. */
  function Abort(db: Auth, intentId: Id): (Auth, bool) {
    if intentId !in db.intents then (db, true)
    else if db.intents[intentId].state == Finalized then (db, false)
    else (DropIntent(db, intentId), true)
  }

  /** The last write of a cancellation: the proof goes unless it was completed. */
  function DropProof(db: Auth, digest: Id): Auth {
    if digest in db.proofs && db.proofs[digest].completed.None? then db.(proofs := db.proofs - {digest}) else db
  }

  // ----- cleanup and the rest of the session life

  /** Expired unfinished intents and settled finalized ones. */
  predicate CleanupCandidate(db: Auth, i: Intent) {
    || (Unfinished(i) && i.expiresAt <= db.now)
    || (i.state == Finalized && i.finalizedAt.Some? && i.finalizedAt.value <= db.now - SETTLED_AFTER)
  }

  /** The pending sessions named by the intents that are cleaned. */
  function CleanedSessions(db: Auth, chosen: set<Id>): set<Id> {
    set i | i in chosen && i in db.intents && CleanupCandidate(db, db.intents[i]) && db.intents[i].staged.Some?
            && db.intents[i].staged.value.sessionId in db.sessions
            && db.sessions[db.intents[i].staged.value.sessionId].userId == db.intents[i].userId
            && db.sessions[db.intents[i].staged.value.sessionId].pending
      :: db.intents[i].staged.value.sessionId
  }

  function CleanedIntents(db: Auth, chosen: set<Id>): set<Id> {
    set i | i in chosen && i in db.intents && CleanupCandidate(db, db.intents[i])
  }

  /** One bounded batch; every condition is checked again after locking the chosen intents. */
  function Cleanup(db: Auth, chosen: set<Id>): Auth {
    db.(sessions := db.sessions - CleanedSessions(db, chosen), intents := db.intents - CleanedIntents(db, chosen))
  }

  function SessionsOf(db: Auth, userId: Id): set<Id> {
    set s | s in db.sessions && db.sessions[s].userId == userId
  }

  /** Signing out deletes the active session of the token. */
  function SignOut(db: Auth, sessionId: Id, token: Id): Auth {
    if sessionId in db.sessions && db.sessions[sessionId].token == token && !db.sessions[sessionId].pending
    then db.(sessions := db.sessions - {sessionId}) else db
  }

  function SignIn(db: Auth, sessionId: Id, userId: Id, token: Id, lifetime: Time): Option<Auth> {
    if userId in db.users && db.users[userId].active && sessionId !in db.issued && token !in db.issued
       && sessionId != token then
      var session := Session(userId, token, false, db.users[userId].generation, db.now, db.now + lifetime);
      Some(db.(sessions := db.sessions[sessionId := session],
               issued := db.issued + {sessionId, token}))
    else None
  }

  /** A remembered session is extended; a one day session, such as a replacement, is not. */
  function Refresh(db: Auth, sessionId: Id): Auth {
    if sessionId in db.sessions && !db.sessions[sessionId].pending
       && db.sessions[sessionId].createdAt + DAY < db.sessions[sessionId].expiresAt
       && db.sessions[sessionId].userId in db.users && db.users[db.sessions[sessionId].userId].active
       && db.users[db.sessions[sessionId].userId].generation == db.sessions[sessionId].generation
    then db.(sessions := db.sessions[sessionId := db.sessions[sessionId].(
                           expiresAt := Min(db.now + 7 * DAY, db.sessions[sessionId].createdAt + SESSION_LIMIT))])
    else db
  }

  /** A change of role or status steps the generation and ends every session of the user. */
  function ChangeUser(db: Auth, userId: Id, admin: bool, active: bool): Auth {
    if userId in db.users then
      var user := db.users[userId];
      db.(users := db.users[userId := user.(admin := admin, active := active, generation := user.generation + 1)],
          sessions := db.sessions - SessionsOf(db, userId))
    else db
  }

  /** Erasure removes the user with every session and every proof. */
  function EraseUser(db: Auth, userId: Id): Auth {
    db.(users := db.users - {userId},
        sessions := db.sessions - SessionsOf(db, userId),
        proofs := map d | d in db.proofs && db.proofs[d].context.userId != userId :: db.proofs[d])
  }

  function SignUp(db: Auth, userId: Id, verified: bool, links: set<Link>): Option<Auth> {
    if userId in db.issued then None
    else Some(db.(users := db.users[userId := Actor(false, true, verified, 1, links)], issued := db.issued + {userId}))
  }
}
