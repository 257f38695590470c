/** Rotation safety: what every interleaving of the re-authentication steps keeps. */
module RotationSafety {
  import opened Common
  import opened Rotation

  datatype Event =
    | PrepareStep(sessionId: Id, token: Id, actorId: Id, requestId: Id, intentId: Id, operationId: Id)
    | StageStep(intentId: Id, newId: Id, newToken: Id, userId: Id, expiresAt: Time)
    | FinalizeStep(intentId: Id, newToken: Id)
    | CompleteStep(digest: Id, oldToken: Id, newId: Id, newToken: Id)
    | StageProofStep(context: Context, digest: Id)
    | SweepStep
    | AbortStep(intentId: Id)
    | DropProofStep(digest: Id)
    | CleanupStep(chosen: set<Id>)
    | SignInStep(sessionId: Id, userId: Id, token: Id, lifetime: Time)
    | SignOutStep(sessionId: Id, token: Id)
    | RefreshStep(sessionId: Id)
    | ChangeUserStep(userId: Id, admin: bool, active: bool)
    | EraseUserStep(userId: Id)
    | SignUpStep(userId: Id, verified: bool, links: set<Link>)
    | TickStep(now: Time)

  /** The fresh names a step takes from the supply. */
  predicate FreshNames(db: Auth, e: Event) {
    match e
    case PrepareStep(_, _, _, requestId, intentId, operationId) =>
      intentId !in db.issued && operationId !in db.issued && requestId !in db.issued
      && intentId != operationId && requestId != intentId && requestId != operationId
    case _ => true
  }

  /** One committed transaction, or the passing of time. A step that raises or refuses changes nothing. */
  ghost predicate Next(db: Auth, e: Event, next: Auth) {
    FreshNames(db, e)
    && match e
       case PrepareStep(sessionId, token, actorId, requestId, intentId, operationId) =>
         var r := Prepare(db, sessionId, token, actorId, requestId, intentId, operationId);
         if r.Contended? then next == db else next == r.db
       case StageStep(intentId, newId, newToken, userId, expiresAt) =>
         Stage(db, intentId, newId, newToken, userId, expiresAt) == Some(next)
       case FinalizeStep(intentId, newToken) => Finalize(db, intentId, newToken) == Some(next)
       case CompleteStep(digest, oldToken, newId, newToken) =>
         var r := Complete(db, digest, oldToken, newId, newToken);
         r.Rotated? && next == r.db
       case StageProofStep(context, digest) => StageProof(db, context, digest) == Some(next)
       case SweepStep => next == SweepProofs(db)
       case AbortStep(intentId) => next == Abort(db, intentId).0
       case DropProofStep(digest) => next == DropProof(db, digest)
       case CleanupStep(chosen) => next == Cleanup(db, chosen)
       case SignInStep(sessionId, userId, token, lifetime) =>
         SignIn(db, sessionId, userId, token, lifetime) == Some(next)
       case SignOutStep(sessionId, token) => next == SignOut(db, sessionId, token)
       case RefreshStep(sessionId) => next == Refresh(db, sessionId)
       case ChangeUserStep(userId, admin, active) => next == ChangeUser(db, userId, admin, active)
       case EraseUserStep(userId) => next == EraseUser(db, userId)
       case SignUpStep(userId, verified, links) => SignUp(db, userId, verified, links) == Some(next)
       case TickStep(now) => db.now <= now && next == db.(now := now)
  }

  // ----- the invariant

  ghost predicate IntentShape(db: Auth, id: Id, i: Intent) {
    && (i.state == Prepared ==> i.staged.None?)
    && (i.state == Staged ==> i.staged.Some?)
    && (i.state == Finalized <==> i.finalizedAt.Some?)
    && (i.state == Finalized ==> i.staged.Some? && i.finalizedAt.value <= db.now)
    && (i.staged.Some? ==> i.staged.value.sessionId in db.issued)
    && id in db.issued && i.operationId in db.issued && i.oldSessionId in db.issued
    && (i.state == Finalized ==> i.oldSessionId !in db.sessions)
    && (i.staged.Some? && i.staged.value.sessionId in db.sessions && db.sessions[i.staged.value.sessionId].pending ==>
          i.state == Staged)
  }

  ghost predicate IntentsShaped(db: Auth) {
    forall i {:trigger IntentShape(db, i, db.intents[i])} | i in db.intents :: IntentShape(db, i, db.intents[i])
  }

  /** At most one unfinished intent for each old session; staged sessions and operations are never shared. */
  ghost predicate Separate(i: Intent, j: Intent) {
    && (Unfinished(i) && Unfinished(j) ==> i.oldSessionId != j.oldSessionId)
    && (i.staged.Some? && j.staged.Some? ==> i.staged.value.sessionId != j.staged.value.sessionId)
    && i.operationId != j.operationId
  }

  ghost predicate IntentsSeparate(intents: map<Id, Intent>) {
    forall i, j {:trigger Separate(intents[i], intents[j])} | i in intents && j in intents && i != j ::
      Separate(intents[i], intents[j])
  }

  /** The intent staged the session for its own user, token and generation. */
  ghost predicate Names(i: Intent, id: Id, s: Session) {
    i.state == Staged && i.staged == Some(StagedRef(id, s.token)) && i.userId == s.userId
    && i.generation == s.generation
  }

  /** Every pending session is named by a staged intent. */
  ghost predicate PendingNamed(intents: map<Id, Intent>, sessions: map<Id, Session>) {
    forall s | s in sessions && sessions[s].pending :: exists i :: i in intents && Names(intents[i], s, sessions[s])
  }

  ghost predicate SessionsIssued(db: Auth) {
    && db.users.Keys <= db.issued
    && forall s | s in db.sessions :: s in db.issued && db.sessions[s].createdAt <= db.now
  }

  /** An operation has its audit row when its intent is finalized, exactly one, and none before. */
  ghost predicate AuditsOnce(audits: seq<RotationAudit>, issued: set<Id>) {
    && (forall k, l | 0 <= k < l < |audits| :: audits[k].operationId != audits[l].operationId)
    && (forall k | 0 <= k < |audits| :: audits[k].operationId in issued)
  }

  ghost predicate AuditMatches(audits: seq<RotationAudit>, i: Intent) {
    if i.state == Finalized then
      exists k :: 0 <= k < |audits| && audits[k].operationId == i.operationId && audits[k].requestId == i.requestId
                  && audits[k].userId == i.userId
    else forall k | 0 <= k < |audits| :: audits[k].operationId != i.operationId
  }

  ghost predicate AuditsMatch(audits: seq<RotationAudit>, intents: map<Id, Intent>) {
    forall i {:trigger AuditMatches(audits, intents[i])} | i in intents :: AuditMatches(audits, intents[i])
  }

  /** A completed proof that is still live has its FINALIZED intent: cleanup waits longer than the proof lives. */
  ghost predicate ProofSettled(db: Auth, d: Id, p: Proof) {
    && d in db.issued
    && p.context.intentId in db.issued
    && (p.completed.Some? ==>
          && p.completed.value.at <= db.now
          && p.expiresAt <= p.completed.value.at + FRESH_LIFETIME
          && (db.now < p.expiresAt ==>
                && p.context.intentId in db.intents
                && db.intents[p.context.intentId].state == Finalized
                && db.intents[p.context.intentId].finalizedAt == Some(p.completed.value.at)
                && db.intents[p.context.intentId].staged.Some?
                && db.intents[p.context.intentId].staged.value.sessionId == p.completed.value.sessionId))
  }

  ghost predicate ProofsSettled(db: Auth) {
    forall d {:trigger ProofSettled(db, d, db.proofs[d])} | d in db.proofs :: ProofSettled(db, d, db.proofs[d])
  }

  ghost predicate Inv(db: Auth) {
    && IntentsShaped(db)
    && IntentsSeparate(db.intents)
    && PendingNamed(db.intents, db.sessions)
    && SessionsIssued(db)
    && AuditsOnce(db.audits, db.issued)
    && AuditsMatch(db.audits, db.intents)
    && ProofsSettled(db)
  }

  lemma AllIssued(db: Auth)
    requires Inv(db)
    ensures db.users.Keys <= db.issued && db.sessions.Keys <= db.issued
  {
  }

  // ----- removing things

  /** Fewer active sessions, with everything else as it was. */
  lemma FewerSessionsKeep(db: Auth, next: Auth)
    requires Inv(db) && next == db.(sessions := next.sessions, users := next.users)
    requires next.users.Keys <= db.issued
    requires next.sessions.Keys <= db.sessions.Keys
    requires forall s | s in next.sessions :: next.sessions[s] == db.sessions[s]
    ensures Inv(next)
  {
    hide AuditMatches, AuditsOnce, Separate;
    forall i | i in next.intents ensures IntentShape(next, i, next.intents[i]) {
      assert IntentShape(db, i, db.intents[i]);
    }
    forall d | d in next.proofs ensures ProofSettled(next, d, next.proofs[d]) {
      assert ProofSettled(db, d, db.proofs[d]);
    }
  }

  lemma DropIntentShapes(db: Auth, id: Id)
    requires Inv(db) && id in db.intents && Unfinished(db.intents[id])
    ensures IntentsShaped(DropIntent(db, id)) && ProofsSettled(DropIntent(db, id))
  {
    hide AuditMatches, AuditsOnce, Separate;
    var next := DropIntent(db, id);
    forall i | i in next.intents ensures IntentShape(next, i, next.intents[i]) {
      assert IntentShape(db, i, db.intents[i]);
    }
    forall d | d in next.proofs ensures ProofSettled(next, d, next.proofs[d]) {
      assert ProofSettled(db, d, db.proofs[d]);
    }
  }

  /** Dropping an unfinished intent takes its pending session with it and leaves every finished rotation alone. */
  lemma DropIntentKeeps(db: Auth, id: Id)
    requires Inv(db) && id in db.intents && Unfinished(db.intents[id])
    ensures Inv(DropIntent(db, id))
  {
    hide AuditsOnce, IntentsShaped, ProofsSettled;
    DropIntentShapes(db, id);
    var next := DropIntent(db, id);
    forall i, j | i in next.intents && j in next.intents && i != j ensures Separate(next.intents[i], next.intents[j]) {
      assert Separate(db.intents[i], db.intents[j]);
    }
    forall s | s in next.sessions && next.sessions[s].pending
      ensures exists i :: i in next.intents && Names(next.intents[i], s, next.sessions[s])
    {
      var i :| i in db.intents && Names(db.intents[i], s, db.sessions[s]);
      assert i in next.intents;
    }
    forall i | i in next.intents ensures AuditMatches(next.audits, next.intents[i]) {
      assert AuditMatches(db.audits, db.intents[i]);
    }
  }

  // ----- prepare

  lemma DropExpiredKeeps(db: Auth, sessionId: Id)
    requires Inv(db)
    ensures Inv(DropExpired(db, sessionId))
  {
    hide Inv;
    if ExpiredOf(db, sessionId) != {} {
      DropIntentKeeps(db, Least(ExpiredOf(db, sessionId)));
    }
  }

  lemma NewIntentShapes(db: Auth, next: Auth, id: Id, i: Intent)
    requires Inv(db) && id !in db.issued && i.operationId !in db.issued && id in next.issued
             && i.operationId in next.issued
    requires i.state == Prepared && i.staged.None? && i.finalizedAt.None? && i.oldSessionId in db.issued
    requires next == db.(intents := db.intents[id := i], issued := next.issued) && db.issued <= next.issued
    ensures IntentsShaped(next) && ProofsSettled(next) && AuditsMatch(next.audits, next.intents) && SessionsIssued(next)
  {
    hide Separate;
    forall k | k in next.intents ensures IntentShape(next, k, next.intents[k]) {
      assert k != id ==> IntentShape(db, k, db.intents[k]);
    }
    forall d | d in next.proofs ensures ProofSettled(next, d, next.proofs[d]) {
      assert ProofSettled(db, d, db.proofs[d]);
    }
    forall k | k in next.intents ensures AuditMatches(next.audits, next.intents[k]) {
      assert k != id ==> AuditMatches(db.audits, db.intents[k]);
    }
  }

  lemma NewIntentKeeps(db: Auth, next: Auth, id: Id, i: Intent)
    requires Inv(db) && id !in db.issued && i.operationId !in db.issued && id in next.issued
             && i.operationId in next.issued
    requires i.state == Prepared && i.staged.None? && i.finalizedAt.None? && i.oldSessionId in db.issued
    requires UnfinishedOf(db, i.oldSessionId) == {}
    requires next == db.(intents := db.intents[id := i], issued := next.issued) && db.issued <= next.issued
    ensures Inv(next)
  {
    hide AuditMatches;
    NewIntentShapes(db, next, id, i);
    forall k | k in db.intents ensures Separate(db.intents[k], i) && Separate(i, db.intents[k]) {
      assert IntentShape(db, k, db.intents[k]);
      assert k !in UnfinishedOf(db, i.oldSessionId);
    }
    forall k, l | k in next.intents && l in next.intents && k != l ensures Separate(next.intents[k], next.intents[l]) {
      assert k != id && l != id ==> Separate(db.intents[k], db.intents[l]);
    }
    forall s | s in next.sessions && next.sessions[s].pending
      ensures exists k :: k in next.intents && Names(next.intents[k], s, next.sessions[s])
    {
      var k :| k in db.intents && Names(db.intents[k], s, db.sessions[s]);
      assert IntentShape(db, k, db.intents[k]);
      assert k in next.intents && next.intents[k] == db.intents[k];
    }
  }

  lemma PrepareKeeps(db: Auth, sessionId: Id, token: Id, actorId: Id, requestId: Id, intentId: Id, operationId: Id)
    requires Inv(db) && FreshNames(db, PrepareStep(sessionId, token, actorId, requestId, intentId, operationId))
    ensures var r := Prepare(db, sessionId, token, actorId, requestId, intentId, operationId);
            !r.Contended? ==> Inv(r.db)
  {
    hide Inv, Holds, UnfinishedOf, DropExpired;
    DropExpiredKeeps(db, sessionId);
    var d := DropExpired(db, sessionId);
    DropExpiredIssued(db, sessionId);
    var r := Prepare(db, sessionId, token, actorId, requestId, intentId, operationId);
    AllIssued(d);
    if r.PreparedIn? {
      NewIntentKeeps(d, r.db, intentId, r.db.intents[intentId]);
    }
  }

  lemma DropExpiredIssued(db: Auth, sessionId: Id)
    ensures DropExpired(db, sessionId).issued == db.issued
  {
  }

  // ----- stage

  lemma StageShapes(db: Auth, intentId: Id, newId: Id, newToken: Id, userId: Id, expiresAt: Time)
    requires Inv(db) && Stage(db, intentId, newId, newToken, userId, expiresAt).Some?
    ensures var next := Stage(db, intentId, newId, newToken, userId, expiresAt).value;
            IntentsShaped(next) && ProofsSettled(next) && AuditsMatch(next.audits, next.intents) && SessionsIssued(next)
  {
    hide Separate, Holds;
    var next := Stage(db, intentId, newId, newToken, userId, expiresAt).value;
    forall k | k in next.intents ensures IntentShape(next, k, next.intents[k]) {
      assert IntentShape(db, k, db.intents[k]);
    }
    forall d | d in next.proofs ensures ProofSettled(next, d, next.proofs[d]) {
      assert ProofSettled(db, d, db.proofs[d]);
    }
    forall k | k in next.intents ensures AuditMatches(next.audits, next.intents[k]) {
      assert AuditMatches(db.audits, db.intents[k]);
    }
  }

  /** Staging adds one pending session and the staged intent that names it. */
  lemma StageKeeps(db: Auth, intentId: Id, newId: Id, newToken: Id, userId: Id, expiresAt: Time)
    requires Inv(db) && Stage(db, intentId, newId, newToken, userId, expiresAt).Some?
    ensures Inv(Stage(db, intentId, newId, newToken, userId, expiresAt).value)
  {
    hide AuditMatches, Holds;
    StageShapes(db, intentId, newId, newToken, userId, expiresAt);
    var next := Stage(db, intentId, newId, newToken, userId, expiresAt).value;
    forall k, l | k in next.intents && l in next.intents && k != l ensures Separate(next.intents[k], next.intents[l]) {
      assert Separate(db.intents[k], db.intents[l]) && IntentShape(db, k, db.intents[k])
             && IntentShape(db, l, db.intents[l]);
    }
    forall s | s in next.sessions && next.sessions[s].pending
      ensures exists k :: k in next.intents && Names(next.intents[k], s, next.sessions[s])
    {
      if s == newId {
        assert Names(next.intents[intentId], s, next.sessions[s]);
      } else {
        var k :| k in db.intents && Names(db.intents[k], s, db.sessions[s]);
        assert k != intentId && next.intents[k] == db.intents[k];
      }
    }
  }

  // ----- finalize

  lemma FinalizeShapes(db: Auth, intentId: Id, newToken: Id)
    requires Inv(db) && Finalize(db, intentId, newToken).Some?
    ensures var next := Finalize(db, intentId, newToken).value;
            IntentsShaped(next) && ProofsSettled(next) && SessionsIssued(next)
  {
    hide Separate, Holds, AuditMatches, AuditsOnce;
    var next := Finalize(db, intentId, newToken).value;
    forall k | k in next.intents ensures IntentShape(next, k, next.intents[k]) {
      assert IntentShape(db, k, db.intents[k]);
      assert k != intentId ==> Separate(db.intents[k], db.intents[intentId]);
    }
    forall d | d in next.proofs ensures ProofSettled(next, d, next.proofs[d]) {
      assert ProofSettled(db, d, db.proofs[d]);
    }
  }

  lemma FinalizeAudits(db: Auth, intentId: Id, newToken: Id)
    requires Inv(db) && Finalize(db, intentId, newToken).Some?
    ensures var next := Finalize(db, intentId, newToken).value;
            AuditsOnce(next.audits, next.issued) && AuditsMatch(next.audits, next.intents)
  {
    hide Holds, PairReady;
    var next := Finalize(db, intentId, newToken).value;
    var i := db.intents[intentId];
    assert AuditMatches(db.audits, i) && IntentShape(db, intentId, i);
    assert next.audits == db.audits + [next.audits[|db.audits|]];
    forall k | k in next.intents ensures AuditMatches(next.audits, next.intents[k]) {
      assert AuditMatches(db.audits, db.intents[k]);
      assert k != intentId ==> Separate(db.intents[k], i);
      if k == intentId {
        assert next.audits[|db.audits|].operationId == i.operationId;
      } else if next.intents[k].state == Finalized {
        var n :| 0 <= n < |db.audits| && db.audits[n].operationId == db.intents[k].operationId
                 && db.audits[n].requestId == db.intents[k].requestId && db.audits[n].userId == db.intents[k].userId;
        assert next.audits[n] == db.audits[n];
      }
    }
  }

  /** Finalizing keeps every rule: the staged session is no longer pending and its intent no longer unfinished. */
  lemma FinalizeKeeps(db: Auth, intentId: Id, newToken: Id)
    requires Inv(db) && Finalize(db, intentId, newToken).Some?
    ensures Inv(Finalize(db, intentId, newToken).value)
  {
    hide AuditMatches, AuditsOnce, Holds, IntentsShaped, ProofsSettled;
    FinalizeShapes(db, intentId, newToken);
    FinalizeAudits(db, intentId, newToken);
    var next := Finalize(db, intentId, newToken).value;
    forall k, l | k in next.intents && l in next.intents && k != l ensures Separate(next.intents[k], next.intents[l]) {
      assert Separate(db.intents[k], db.intents[l]);
    }
    forall s | s in next.sessions && next.sessions[s].pending
      ensures exists k :: k in next.intents && Names(next.intents[k], s, next.sessions[s])
    {
      var k :| k in db.intents && Names(db.intents[k], s, db.sessions[s]);
      assert k != intentId && next.intents[k] == db.intents[k];
    }
  }

  // ----- complete

  lemma CompleteParts(db: Auth, digest: Id, oldToken: Id, newId: Id, newToken: Id)
    requires Complete(db, digest, oldToken, newId, newToken).Rotated?
    ensures digest in db.proofs && db.proofs[digest].completed.None? && db.now < db.proofs[digest].expiresAt
    ensures ContextIsValid(db, db.proofs[digest].context)
    ensures var c := db.proofs[digest].context;
            var staged := Stage(db, c.intentId, newId, newToken, c.userId, db.now + DAY);
            && staged.Some?
            && var finalized := Finalize(staged.value, c.intentId, newToken);
            && finalized.Some?
            && Complete(db, digest, oldToken, newId, newToken).db ==
               finalized.value.(proofs := db.proofs[digest := db.proofs[digest].(
                                            completed := Some(Completion(newId, db.now)),
                                            expiresAt := db.now + FRESH_LIFETIME)])
  {
    hide Holds;
  }

  /** Completing keeps every rule, and its proof is settled for as long as it lives. */
  lemma CompleteKeeps(db: Auth, digest: Id, oldToken: Id, newId: Id, newToken: Id)
    requires Inv(db) && Complete(db, digest, oldToken, newId, newToken).Rotated?
    ensures Inv(Complete(db, digest, oldToken, newId, newToken).db)
  {
    hide Holds, Complete, ContextIsValid, IntentsShaped, IntentsSeparate, PendingNamed, AuditsMatch, AuditsOnce,
         PairReady;
    CompleteParts(db, digest, oldToken, newId, newToken);
    var c := db.proofs[digest].context;
    StageKeeps(db, c.intentId, newId, newToken, c.userId, db.now + DAY);
    var staged := Stage(db, c.intentId, newId, newToken, c.userId, db.now + DAY).value;
    FinalizeKeeps(staged, c.intentId, newToken);
    var finalized := Finalize(staged, c.intentId, newToken).value;
    var next := Complete(db, digest, oldToken, newId, newToken).db;
    ShapesFrame(finalized, next);
    assert ProofSettled(db, digest, db.proofs[digest]);
    forall d | d in next.proofs ensures ProofSettled(next, d, next.proofs[d]) {
      assert d != digest ==> ProofSettled(finalized, d, finalized.proofs[d]);
    }
  }

  /** The shape of the intents does not depend on the proofs. */
  lemma ShapesFrame(db: Auth, next: Auth)
    requires IntentsShaped(db) && next == db.(proofs := next.proofs)
    ensures IntentsShaped(next)
  {
    forall i | i in next.intents ensures IntentShape(next, i, next.intents[i]) {
      assert IntentShape(db, i, db.intents[i]);
    }
  }

  // ----- proofs, cleanup, sessions, users, time

  lemma StageProofKeeps(db: Auth, context: Context, digest: Id)
    requires Inv(db) && StageProof(db, context, digest).Some?
    ensures Inv(StageProof(db, context, digest).value)
  {
    hide Holds, AuditMatches, Separate;
    var next := StageProof(db, context, digest).value;
    assert IntentShape(db, context.intentId, db.intents[context.intentId]);
    forall i | i in next.intents ensures IntentShape(next, i, next.intents[i]) {
      assert IntentShape(db, i, db.intents[i]);
    }
    forall d | d in next.proofs ensures ProofSettled(next, d, next.proofs[d]) {
      assert d != digest ==> ProofSettled(db, d, db.proofs[d]);
    }
  }

  lemma FewerProofsKeep(db: Auth, next: Auth)
    requires Inv(db) && next == db.(proofs := next.proofs)
    requires forall d | d in next.proofs :: d in db.proofs && next.proofs[d] == db.proofs[d]
    ensures Inv(next)
  {
    hide AuditMatches, Separate, AuditsOnce;
    ShapesFrame(db, next);
    forall d | d in next.proofs ensures ProofSettled(next, d, next.proofs[d]) {
      assert ProofSettled(db, d, db.proofs[d]);
    }
  }

  /** Cleaning takes every pending session of a cleaned intent, and no intent a live completed proof relies on. */
  lemma CleanupKeeps(db: Auth, chosen: set<Id>)
    requires Inv(db)
    ensures Inv(Cleanup(db, chosen))
  {
    hide AuditMatches, AuditsOnce;
    var next := Cleanup(db, chosen);
    forall i | i in next.intents ensures IntentShape(next, i, next.intents[i]) {
      assert IntentShape(db, i, db.intents[i]);
    }
    forall i, j | i in next.intents && j in next.intents && i != j ensures Separate(next.intents[i], next.intents[j]) {
      assert Separate(db.intents[i], db.intents[j]);
    }
    forall i | i in next.intents ensures AuditMatches(next.audits, next.intents[i]) {
      assert AuditMatches(db.audits, db.intents[i]);
    }
    CleanupPending(db, chosen);
    forall d | d in next.proofs ensures ProofSettled(next, d, next.proofs[d]) {
      assert ProofSettled(db, d, db.proofs[d]);
    }
  }

  lemma CleanupPending(db: Auth, chosen: set<Id>)
    requires PendingNamed(db.intents, db.sessions)
    ensures PendingNamed(Cleanup(db, chosen).intents, Cleanup(db, chosen).sessions)
  {
    var next := Cleanup(db, chosen);
    forall s | s in next.sessions && next.sessions[s].pending
      ensures exists i :: i in next.intents && Names(next.intents[i], s, next.sessions[s])
    {
      var i :| i in db.intents && Names(db.intents[i], s, db.sessions[s]);
      assert i in CleanedIntents(db, chosen) ==> s in CleanedSessions(db, chosen) by {
        assert db.sessions[db.intents[i].staged.value.sessionId].pending;
      }
      assert i in next.intents && Names(next.intents[i], s, next.sessions[s]);
    }
  }

  /** Later time, more names, or other users change no rule. */
  lemma LaterKeeps(db: Auth, next: Auth)
    requires Inv(db) && next == db.(now := next.now, issued := next.issued, users := next.users)
    requires db.now <= next.now && db.issued <= next.issued && next.users.Keys <= next.issued
    ensures Inv(next)
  {
    hide AuditMatches, Separate;
    forall i | i in next.intents ensures IntentShape(next, i, next.intents[i]) {
      assert IntentShape(db, i, db.intents[i]);
    }
    forall d | d in next.proofs ensures ProofSettled(next, d, next.proofs[d]) {
      assert ProofSettled(db, d, db.proofs[d]);
    }
  }

  lemma SignInKeeps(db: Auth, sessionId: Id, userId: Id, token: Id, lifetime: Time)
    requires Inv(db) && SignIn(db, sessionId, userId, token, lifetime).Some?
    ensures Inv(SignIn(db, sessionId, userId, token, lifetime).value)
  {
    hide AuditMatches, Separate;
    var next := SignIn(db, sessionId, userId, token, lifetime).value;
    forall i | i in next.intents ensures IntentShape(next, i, next.intents[i]) {
      assert IntentShape(db, i, db.intents[i]);
    }
    forall d | d in next.proofs ensures ProofSettled(next, d, next.proofs[d]) {
      assert ProofSettled(db, d, db.proofs[d]);
    }
  }

  lemma RefreshKeeps(db: Auth, sessionId: Id)
    requires Inv(db)
    ensures Inv(Refresh(db, sessionId))
  {
    hide AuditMatches, Separate, AuditsOnce;
    var next := Refresh(db, sessionId);
    forall i | i in next.intents ensures IntentShape(next, i, next.intents[i]) {
      assert IntentShape(db, i, db.intents[i]);
    }
    forall d | d in next.proofs ensures ProofSettled(next, d, next.proofs[d]) {
      assert ProofSettled(db, d, db.proofs[d]);
    }
  }

  lemma EraseUserKeeps(db: Auth, userId: Id)
    requires Inv(db)
    ensures Inv(EraseUser(db, userId))
  {
    hide Inv;
    AllIssued(db);
    var first := db.(users := db.users - {userId}, sessions := db.sessions - SessionsOf(db, userId));
    FewerSessionsKeep(db, first);
    FewerProofsKeep(first, EraseUser(db, userId));
  }

  /** Every step of every actor keeps the rotation rules. */
  lemma StepKeeps(db: Auth, e: Event, next: Auth)
    requires Inv(db) && Next(db, e, next)
    ensures Inv(next)
  {
    hide Inv, Prepare, Stage, Finalize, Complete, StageProof, Cleanup, SignIn, DropIntent;
    AllIssued(db);
    match e {
      case PrepareStep(sessionId, token, actorId, requestId, intentId, operationId) =>
        PrepareKeeps(db, sessionId, token, actorId, requestId, intentId, operationId);
      case StageStep(intentId, newId, newToken, userId, expiresAt) =>
        StageKeeps(db, intentId, newId, newToken, userId, expiresAt);
      case FinalizeStep(intentId, newToken) => FinalizeKeeps(db, intentId, newToken);
      case CompleteStep(digest, oldToken, newId, newToken) => CompleteKeeps(db, digest, oldToken, newId, newToken);
      case StageProofStep(context, digest) => StageProofKeeps(db, context, digest);
      case SweepStep => FewerProofsKeep(db, next);
      case AbortStep(intentId) =>
        if intentId in db.intents && db.intents[intentId].state != Finalized { DropIntentKeeps(db, intentId); }
      case DropProofStep(digest) => FewerProofsKeep(db, next);
      case CleanupStep(chosen) => CleanupKeeps(db, chosen);
      case SignInStep(sessionId, userId, token, lifetime) => SignInKeeps(db, sessionId, userId, token, lifetime);
      case SignOutStep(sessionId, token) => FewerSessionsKeep(db, next);
      case RefreshStep(sessionId) => RefreshKeeps(db, sessionId);
      case ChangeUserStep(userId, admin, active) => FewerSessionsKeep(db, next);
      case EraseUserStep(userId) => EraseUserKeeps(db, userId);
      case SignUpStep(userId, verified, links) => LaterKeeps(db, next);
      case TickStep(now) => LaterKeeps(db, next);
    }
  }
}
