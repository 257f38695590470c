/**
  * What the steps of a re-authentication answer, said on the rows: exactly when
  * each succeeds, and that a linked administrator can go all the way.
  */
module RotationAnswers {
  import opened Common
  import opened Rotation
  import opened RotationSafety
  import opened RotationRecovery

  /** An active administrator of the generation, with an unexpired active session of that generation. */
  ghost predicate SignedIn(db: Auth, sessionId: Id, userId: Id, generation: nat) {
    && userId in db.users
    && db.users[userId].admin && db.users[userId].active && db.users[userId].generation == generation
    && sessionId in db.sessions
    && var s := db.sessions[sessionId];
       && s.userId == userId && !s.pending && s.generation == generation
       && db.now < s.expiresAt && db.now < s.createdAt + 30 * 24 * 60 * 60 * 1000
  }

  /**
    * The context may rotate: its prepared, unexpired intent is about the session
    * it names, under the token the intent was prepared with, the user is signed in
    * there as an administrator, and the provider account is one of the user's.
    */
  ghost predicate MayRotate(db: Auth, c: Context) {
    && SignedIn(db, c.sessionId, c.userId, c.generation)
    && c.link in db.users[c.userId].links
    && c.intentId in db.intents
    && var i := db.intents[c.intentId];
       && i.state == Prepared && db.now < i.expiresAt && i.userId == c.userId && i.oldSessionId == c.sessionId
       && i.generation == c.generation && i.oldToken == db.sessions[c.sessionId].token
  }

  lemma ValidMayRotate(db: Auth, c: Context)
    ensures ContextIsValid(db, c) <==> MayRotate(db, c)
  {
  }

  // ----- staging a proof

  /** A proof is staged exactly for a context that may rotate, under a new digest, for two minutes at most. */
  lemma StageProofAnswer(db: Auth, c: Context, digest: Id)
    ensures var r := StageProof(db, c, digest);
            if MayRotate(db, c) && digest !in db.issued then
              && c.intentId in db.intents && r.Some?
              && r.value.proofs.Keys == db.proofs.Keys + {digest}
              && (forall d | d in db.proofs && d != digest :: r.value.proofs[d] == db.proofs[d])
              && var expires := r.value.proofs[digest].expiresAt;
                 && r.value.proofs[digest] == Proof(c, None, expires)
                 && expires <= db.intents[c.intentId].expiresAt && expires <= db.now + 2 * 60 * 1000
                 && (expires == db.intents[c.intentId].expiresAt || expires == db.now + 2 * 60 * 1000)
                 && r.value == db.(proofs := r.value.proofs, issued := db.issued + {digest})
            else r.None?
  {
    ValidMayRotate(db, c);
  }

  // ----- completing

  /** The names of the replacement were never handed out. */
  predicate NewNames(db: Auth, newId: Id, newToken: Id) {
    newId !in db.issued && newToken !in db.issued && newId != newToken
  }

  lemma StageSucceeds(db: Auth, c: Context, newId: Id, newToken: Id)
    requires Inv(db) && MayRotate(db, c)
    ensures var staged := Stage(db, c.intentId, newId, newToken, c.userId, db.now + DAY);
            && (staged.Some? <==> NewNames(db, newId, newToken))
            && (staged.Some? ==>
                  && Finalize(staged.value, c.intentId, newToken).Some?
                  && Holds(Finalize(staged.value, c.intentId, newToken).value, newId, c.generation))
  {
    AllIssued(db);
    hide IntentsShaped, IntentsSeparate, PendingNamed, AuditsOnce, AuditsMatch, ProofsSettled;
  }

  /** The proof is marked complete by the new session and kept for five minutes. */
  ghost predicate ProofCompleted(db: Auth, next: Auth, digest: Id, newId: Id)
    requires digest in db.proofs
  {
    && next.proofs.Keys == db.proofs.Keys
    && (forall d | d in db.proofs && d != digest :: next.proofs[d] == db.proofs[d])
    && next.proofs[digest] == db.proofs[digest].(completed := Some(Completion(newId, db.now)),
                                                 expiresAt := db.now + 5 * 60 * 1000)
  }

  /** The proof is live, not used yet, and its context may rotate under the given token. */
  ghost predicate Completable(db: Auth, digest: Id, oldToken: Id) {
    && digest in db.proofs
    && db.proofs[digest].completed.None? && db.now < db.proofs[digest].expiresAt
    && MayRotate(db, db.proofs[digest].context)
    && db.sessions[db.proofs[digest].context.sessionId].token == oldToken
  }

  /**
    * Every answer of a completion: it rotates exactly when the proof is live and
    * unused, its context may rotate under the old token, and the new names are
    * new; it raises when they are not. What a rotation writes is RotationIsExact.
    */
  lemma CompleteAnswer(db: Auth, digest: Id, oldToken: Id, newId: Id, newToken: Id)
    requires Inv(db)
    ensures var r := Complete(db, digest, oldToken, newId, newToken);
            if !Completable(db, digest, oldToken) then r == NoRotation
            else if !NewNames(db, newId, newToken) then r == RotationRaised
            else
              var c := db.proofs[digest].context;
              && r.Rotated?
              && r.session == RotatedSession(newId, db.now, db.now + 24 * 60 * 60 * 1000, c.generation, c.userId)
              && ProofCompleted(db, r.db, digest, newId)
              && SignedIn(r.db, newId, c.userId, c.generation)
  {
    hide Inv, Stage, Finalize, MayRotate, ContextIsValid, Holds, ProofCompleted, SignedIn;
    if digest in db.proofs {
      var c := db.proofs[digest].context;
      ValidMayRotate(db, c);
      if Completable(db, digest, oldToken) {
        StageSucceeds(db, c, newId, newToken);
        if NewNames(db, newId, newToken) {
          CompletedRows(db, digest, oldToken, newId, newToken);
        }
      }
    }
  }

  lemma CompletedRows(db: Auth, digest: Id, oldToken: Id, newId: Id, newToken: Id)
    requires Inv(db) && Complete(db, digest, oldToken, newId, newToken).Rotated?
    ensures digest in db.proofs
    ensures var r := Complete(db, digest, oldToken, newId, newToken);
            var c := db.proofs[digest].context;
            && r.session == RotatedSession(newId, db.now, db.now + 24 * 60 * 60 * 1000, c.generation, c.userId)
            && ProofCompleted(db, r.db, digest, newId)
            && SignedIn(r.db, newId, c.userId, c.generation)
  {
    RotationIsExact(db, digest, oldToken, newId, newToken);
    CompleteParts(db, digest, oldToken, newId, newToken);
    ContextNames(db, db.proofs[digest].context);
    hide Inv, Stage, Finalize, ContextIsValid;
  }

  // ----- preparing

  /** The token is that of an unexpired active session of the actor, an active and verified administrator. */
  ghost predicate CanPrepare(db: Auth, sessionId: Id, token: Id, actorId: Id) {
    && sessionId in db.sessions && db.sessions[sessionId].token == token
    && SignedIn(db, sessionId, actorId, db.sessions[sessionId].generation) && db.users[actorId].verified
  }

  /** The intent wants to replace the session and is not finished. */
  ghost predicate InProgress(db: Auth, i: Id, sessionId: Id) {
    i in db.intents && db.intents[i].oldSessionId == sessionId && db.intents[i].state in {Prepared, Staged}
  }

  /** The pending session of an intent in progress. */
  ghost predicate PendingFor(db: Auth, s: Id, sessionId: Id) {
    && s in db.sessions && db.sessions[s].pending
    && exists i :: InProgress(db, i, sessionId) && Names(db.intents[i], s, db.sessions[s])
  }

  /** The new intent takes the place of the one in progress, and of its pending session. */
  ghost predicate IntentPrepared(db: Auth, next: Auth, sessionId: Id, token: Id, actorId: Id, requestId: Id,
                                 intentId: Id, operationId: Id)
    requires sessionId in db.sessions
  {
    && next == db.(intents := next.intents, sessions := next.sessions,
                   issued := db.issued + {intentId, operationId, requestId})
    && (forall i :: i in next.intents <==> i == intentId || (i in db.intents && !InProgress(db, i, sessionId)))
    && (forall i | i in next.intents && i != intentId :: i in db.intents && next.intents[i] == db.intents[i])
    && next.intents[intentId] == Intent(operationId, requestId, actorId, sessionId, token,
                                        db.sessions[sessionId].generation, Prepared, None, db.now + 2 * 60 * 1000, None)
    && (forall s :: s in next.sessions <==> s in db.sessions && !PendingFor(db, s, sessionId))
    && (forall s | s in next.sessions :: s in db.sessions && next.sessions[s] == db.sessions[s])
  }

  lemma HoldsIsSignedIn(db: Auth, sessionId: Id, userId: Id, generation: nat)
    ensures SignedIn(db, sessionId, userId, generation) <==>
              Holds(db, sessionId, generation) && db.sessions[sessionId].userId == userId
  {
  }

  lemma OneInProgress(db: Auth, i: Id, j: Id, sessionId: Id)
    requires Inv(db) && InProgress(db, i, sessionId) && InProgress(db, j, sessionId)
    ensures i == j
  {
    assert i != j ==> Separate(db.intents[i], db.intents[j]);
  }

  /** The rows after dropping the one intent in progress. */
  lemma DroppedRows(db: Auth, i: Id, sessionId: Id)
    requires Inv(db) && InProgress(db, i, sessionId)
    ensures var d := DropIntent(db, i);
            && d == db.(intents := db.intents - {i}, sessions := d.sessions)
            && (forall s :: s in d.sessions <==> s in db.sessions && !PendingFor(db, s, sessionId))
            && (forall s | s in d.sessions :: s in db.sessions && d.sessions[s] == db.sessions[s])
            && UnfinishedOf(d, sessionId) == {}
  {
    hide AuditsOnce, AuditsMatch, ProofsSettled;
    var d := DropIntent(db, i);
    assert IntentShape(db, i, db.intents[i]);
    forall j | InProgress(db, j, sessionId) ensures i == j {
      OneInProgress(db, i, j, sessionId);
    }
    forall j | j in d.intents && d.intents[j].oldSessionId == sessionId ensures !Unfinished(d.intents[j]) {
      assert InProgress(db, j, sessionId) ==> j == i;
    }
    assert UnfinishedOf(d, sessionId) == {};
    forall s | s in db.sessions ensures s in d.sessions <==> !PendingFor(db, s, sessionId) {
      if db.sessions[s].pending {
        var j :| j in db.intents && Names(db.intents[j], s, db.sessions[s]);
        assert j != i ==> Separate(db.intents[i], db.intents[j]);
      }
    }
  }

  lemma NoneInProgress(db: Auth, sessionId: Id)
    requires forall i :: !InProgress(db, i, sessionId)
    ensures DropExpired(db, sessionId) == db && UnfinishedOf(db, sessionId) == {}
    ensures forall s :: !PendingFor(db, s, sessionId)
  {
    forall i | i in db.intents && db.intents[i].oldSessionId == sessionId ensures !Unfinished(db.intents[i]) {
      assert !InProgress(db, i, sessionId);
    }
    assert UnfinishedOf(db, sessionId) == {};
    assert ExpiredOf(db, sessionId) == {};
  }

  lemma OnlyOneDropped(db: Auth, i: Id, sessionId: Id)
    requires Inv(db) && InProgress(db, i, sessionId)
    ensures DropExpired(db, sessionId) == if db.intents[i].expiresAt <= db.now then DropIntent(db, i) else db
    ensures i in UnfinishedOf(db, sessionId)
  {
    forall j | j in UnfinishedOf(db, sessionId) ensures j == i {
      OneInProgress(db, i, j, sessionId);
    }
    hide Inv, DropIntent;
    assert ExpiredOf(db, sessionId) == if db.intents[i].expiresAt <= db.now then {i} else {};
  }

  /**
    * Every answer of a preparation: refused unless the caller can prepare,
    * contended exactly while an unexpired intent for the session is in progress,
    * and otherwise a new intent takes the place of the expired one.
    */
  lemma PrepareAnswer(db: Auth, sessionId: Id, token: Id, actorId: Id, requestId: Id, intentId: Id, operationId: Id)
    requires Inv(db) && intentId !in db.issued
    ensures var r := Prepare(db, sessionId, token, actorId, requestId, intentId, operationId);
            if !CanPrepare(db, sessionId, token, actorId) then r == Refused(db)
            else if exists i :: InProgress(db, i, sessionId) && db.now < db.intents[i].expiresAt then r == Contended
            else
              && r.PreparedIn?
              && IntentPrepared(db, r.db, sessionId, token, actorId, requestId, intentId, operationId)
              && CanPrepare(r.db, sessionId, token, actorId)
  {
    hide Inv, DropExpired, UnfinishedOf, Holds, SignedIn;
    if sessionId in db.sessions {
      HoldsIsSignedIn(db, sessionId, actorId, db.sessions[sessionId].generation);
    }
    if CanPrepare(db, sessionId, token, actorId) {
      if exists i :: InProgress(db, i, sessionId) {
        var i :| InProgress(db, i, sessionId);
        OnlyOneDropped(db, i, sessionId);
        if db.now < db.intents[i].expiresAt {
        } else {
          forall j | InProgress(db, j, sessionId) ensures j == i {
            OneInProgress(db, i, j, sessionId);
          }
          DroppedRows(db, i, sessionId);
          PreparedRows(db, DropIntent(db, i), sessionId, token, actorId, requestId, intentId, operationId);
        }
      } else {
        NoneInProgress(db, sessionId);
        PreparedRows(db, db, sessionId, token, actorId, requestId, intentId, operationId);
      }
    }
  }

  lemma PreparedRows(db: Auth, d: Auth, sessionId: Id, token: Id, actorId: Id, requestId: Id, intentId: Id,
                     operationId: Id)
    requires Inv(db) && intentId !in db.issued && CanPrepare(db, sessionId, token, actorId)
    requires d == db.(intents := d.intents, sessions := d.sessions)
    requires forall i :: i in d.intents <==> i in db.intents && !InProgress(db, i, sessionId)
    requires forall i | i in d.intents :: d.intents[i] == db.intents[i]
    requires forall s :: s in d.sessions <==> s in db.sessions && !PendingFor(db, s, sessionId)
    requires forall s | s in d.sessions :: d.sessions[s] == db.sessions[s]
    ensures sessionId in d.sessions && Holds(d, sessionId, d.sessions[sessionId].generation)
    ensures var next := d.(intents := d.intents[intentId := NewIntent(d, sessionId, requestId, operationId)],
                           issued := d.issued + {intentId, operationId, requestId});
            && IntentPrepared(db, next, sessionId, token, actorId, requestId, intentId, operationId)
            && CanPrepare(next, sessionId, token, actorId)
  {
    hide PendingNamed, AuditsOnce, AuditsMatch, ProofsSettled, IntentsSeparate, Names;
    if intentId in db.intents {
      assert IntentShape(db, intentId, db.intents[intentId]);
    }
    assert !PendingFor(db, sessionId, sessionId);
  }

  // ----- the whole way

  /** Six names of the supply, all different. */
  ghost predicate SixNew(db: Auth, a: Id, b: Id, c: Id, d: Id, e: Id, f: Id) {
    && a !in db.issued && b !in db.issued && c !in db.issued && d !in db.issued && e !in db.issued && f !in db.issued
    && a != b && a != c && a != d && a != e && a != f && b != c && b != d && b != e && b != f && c != d && c != e
    && c != f && d != e && d != f && e != f
  }

  lemma FirstStep(db: Auth, sessionId: Id, token: Id, actorId: Id, link: Link, requestId: Id, intentId: Id,
                  operationId: Id) returns (next: Auth)
    requires Inv(db) && CanPrepare(db, sessionId, token, actorId) && link in db.users[actorId].links
    requires forall i :: InProgress(db, i, sessionId) ==> db.intents[i].expiresAt <= db.now
    requires intentId !in db.issued && operationId !in db.issued && requestId !in db.issued
    requires intentId != operationId && requestId != intentId && requestId != operationId
    ensures Next(db, PrepareStep(sessionId, token, actorId, requestId, intentId, operationId), next) && Inv(next)
    ensures MayRotate(next, Context(intentId, actorId, sessionId, db.sessions[sessionId].generation, link))
    ensures next.sessions[sessionId].token == token
    ensures next.issued == db.issued + {intentId, operationId, requestId}
  {
    PrepareAnswer(db, sessionId, token, actorId, requestId, intentId, operationId);
    hide Inv, Prepare, SignedIn, InProgress;
    next := Prepare(db, sessionId, token, actorId, requestId, intentId, operationId).db;
    StepKeeps(db, PrepareStep(sessionId, token, actorId, requestId, intentId, operationId), next);
    PreparedMayRotate(db, next, sessionId, token, actorId, link, requestId, intentId, operationId);
  }

  lemma SecondStep(db: Auth, context: Context, digest: Id) returns (next: Auth)
    requires Inv(db) && MayRotate(db, context) && digest !in db.issued
    ensures Next(db, StageProofStep(context, digest), next) && Inv(next)
    ensures digest in next.proofs && next.proofs[digest].context == context
    ensures Completable(next, digest, db.sessions[context.sessionId].token)
    ensures next.sessions == db.sessions && next.issued == db.issued + {digest}
  {
    StageProofAnswer(db, context, digest);
    hide Inv, StageProof;
    next := StageProof(db, context, digest).value;
    StepKeeps(db, StageProofStep(context, digest), next);
  }

  lemma ThirdStep(db: Auth, context: Context, digest: Id, token: Id, newId: Id, newToken: Id) returns (next: Auth)
    requires Inv(db) && Completable(db, digest, token) && db.proofs[digest].context == context
    requires NewNames(db, newId, newToken)
    ensures Next(db, CompleteStep(digest, token, newId, newToken), next)
    ensures SignedIn(next, newId, context.userId, context.generation)
    ensures newId in next.sessions && next.sessions[newId].token == newToken && context.sessionId !in next.sessions
  {
    CompleteAnswer(db, digest, token, newId, newToken);
    RotationIsExact(db, digest, token, newId, newToken);
    hide Inv, Complete, MayRotate, SignedIn;
    next := Complete(db, digest, token, newId, newToken).db;
  }

  /**
    * A verified administrator with an active session, a linked account and no
    * rotation in progress can prepare, stage a proof of that account and complete
    * it, one after the other: then the new session holds and the old one is gone.
    */
  lemma LinkedAdminRotates(db: Auth, sessionId: Id, token: Id, actorId: Id, link: Link, requestId: Id, intentId: Id,
                           operationId: Id, digest: Id, newId: Id, newToken: Id)
    returns (events: seq<Event>, states: seq<Auth>)
    requires Inv(db) && CanPrepare(db, sessionId, token, actorId) && link in db.users[actorId].links
    requires forall i :: InProgress(db, i, sessionId) ==> db.intents[i].expiresAt <= db.now
    requires SixNew(db, requestId, intentId, operationId, digest, newId, newToken)
    ensures |events| == 3 && |states| == 4 && states[0] == db
    ensures forall k | 0 <= k < 3 :: Next(states[k], events[k], states[k + 1])
    ensures events[0] == PrepareStep(sessionId, token, actorId, requestId, intentId, operationId)
    ensures events[1] == StageProofStep(Context(intentId, actorId, sessionId, db.sessions[sessionId].generation, link),
                                        digest)
    ensures events[2] == CompleteStep(digest, token, newId, newToken)
    ensures SignedIn(states[3], newId, actorId, db.sessions[sessionId].generation)
    ensures states[3].sessions[newId].token == newToken && sessionId !in states[3].sessions
  {
    hide Inv, Next, InProgress, SignedIn, MayRotate;
    var context := Context(intentId, actorId, sessionId, db.sessions[sessionId].generation, link);
    events := [PrepareStep(sessionId, token, actorId, requestId, intentId, operationId),
               StageProofStep(context, digest), CompleteStep(digest, token, newId, newToken)];
    var one := FirstStep(db, sessionId, token, actorId, link, requestId, intentId, operationId);
    var two := SecondStep(one, context, digest);
    var three := ThirdStep(two, context, digest, token, newId, newToken);
    states := [db, one, two, three];
  }

  lemma PreparedMayRotate(db: Auth, next: Auth, sessionId: Id, token: Id, actorId: Id, link: Link, requestId: Id,
                          intentId: Id, operationId: Id)
    requires CanPrepare(db, sessionId, token, actorId) && link in db.users[actorId].links
    requires IntentPrepared(db, next, sessionId, token, actorId, requestId, intentId, operationId)
    requires CanPrepare(next, sessionId, token, actorId)
    ensures MayRotate(next, Context(intentId, actorId, sessionId, db.sessions[sessionId].generation, link))
  {
  }

  // ----- a lost answer

  /** The proof is live and was completed by the session. */
  ghost predicate CompletedAs(db: Auth, digest: Id, s: Id) {
    && digest in db.proofs && db.now < db.proofs[digest].expiresAt
    && db.proofs[digest].completed.Some? && db.proofs[digest].completed.value.sessionId == s
  }

  /** The intent of the proof replaced its session by this one, under this token. */
  ghost predicate ReplacedBy(db: Auth, digest: Id, s: Id, token: Id) {
    && digest in db.proofs && db.proofs[digest].context.intentId in db.intents
    && var i := db.intents[db.proofs[digest].context.intentId];
       i.staged == Some(StagedRef(s, token)) && SignedIn(db, s, i.userId, i.generation) && db.sessions[s].token == token
  }

  /**
    * Looking a rotation up again finds it exactly when its proof is live and
    * completed and the replacement is still signed in under the token asked for.
    */
  lemma ReconcileAnswer(db: Auth, digest: Id, token: Id)
    requires Inv(db)
    ensures var r := Reconcile(db, digest, token);
            && (r.Some? <==> exists s :: CompletedAs(db, digest, s) && ReplacedBy(db, digest, s, token))
            && (r.Some? ==>
                  && CompletedAs(db, digest, r.value.id) && ReplacedBy(db, digest, r.value.id, token)
                  && var s := db.sessions[r.value.id];
                     r.value == RotatedSession(r.value.id, s.createdAt, s.expiresAt, s.generation,
                                               db.proofs[digest].context.userId))
  {
    hide IntentsSeparate, PendingNamed, SessionsIssued, AuditsOnce;
    if digest in db.proofs {
      assert ProofSettled(db, digest, db.proofs[digest]);
      var id := db.proofs[digest].context.intentId;
      if id in db.intents {
        assert AuditMatches(db.audits, db.intents[id]);
      }
      if exists s :: CompletedAs(db, digest, s) && ReplacedBy(db, digest, s, token) {
        var s :| CompletedAs(db, digest, s) && ReplacedBy(db, digest, s, token);
        SignedInHolds(db, s, db.intents[id].userId, db.intents[id].generation);
      }
      if Reconcile(db, digest, token).Some? {
        var s := Reconcile(db, digest, token).value.id;
        SignedInHolds(db, s, db.intents[id].userId, db.intents[id].generation);
        assert CompletedAs(db, digest, s) && ReplacedBy(db, digest, s, token);
      }
    }
  }

  lemma SignedInHolds(db: Auth, s: Id, userId: Id, generation: nat)
    ensures SignedIn(db, s, userId, generation) <==>
              Holds(db, s, generation) && db.sessions[s].userId == userId
  {
  }

  // ----- giving up

  /**
    * Aborting leaves a finalized intent alone and says so; any other one goes with
    * the pending session it named, and nothing else does.
    */
  lemma AbortAnswer(db: Auth, id: Id)
    requires Inv(db)
    ensures var r := Abort(db, id);
            if id in db.intents && db.intents[id].state == Finalized then r == (db, false)
            else
              && r.1
              && r.0 == db.(intents := db.intents - {id}, sessions := r.0.sessions)
              && (forall s :: s in r.0.sessions <==>
                    && s in db.sessions
                    && !(id in db.intents && db.sessions[s].pending && Names(db.intents[id], s, db.sessions[s])))
              && (forall s | s in r.0.sessions :: s in db.sessions && r.0.sessions[s] == db.sessions[s])
  {
    hide AuditsOnce, AuditsMatch, ProofsSettled;
    if id in db.intents && db.intents[id].staged.Some? {
      var s := db.intents[id].staged.value.sessionId;
      if s in db.sessions && db.sessions[s].pending {
        var j :| j in db.intents && Names(db.intents[j], s, db.sessions[s]);
        assert id != j ==> Separate(db.intents[id], db.intents[j]);
      }
    }
  }

  // ----- the clean-up

  /** An unfinished intent that ran out, or one finished a quarter of an hour ago. */
  ghost predicate Stale(db: Auth, i: Id) {
    && i in db.intents
    && (if db.intents[i].state == Finalized
        then db.intents[i].finalizedAt.Some? && db.intents[i].finalizedAt.value + 15 * 60 * 1000 <= db.now
        else db.intents[i].expiresAt <= db.now)
  }

  /**
    * A clean-up removes exactly the stale ones among the chosen intents and the
    * pending sessions they named; an active session is never removed.
    */
  lemma CleanupAnswer(db: Auth, chosen: set<Id>)
    requires Inv(db)
    ensures var next := Cleanup(db, chosen);
            && next == db.(intents := next.intents, sessions := next.sessions)
            && (forall i :: i in next.intents <==> i in db.intents && !(i in chosen && Stale(db, i)))
            && (forall i | i in next.intents :: i in db.intents && next.intents[i] == db.intents[i])
            && (forall s :: s in next.sessions <==>
                  && s in db.sessions
                  && !(db.sessions[s].pending
                       && exists i :: i in chosen && Stale(db, i) && Names(db.intents[i], s, db.sessions[s])))
            && (forall s | s in next.sessions :: s in db.sessions && next.sessions[s] == db.sessions[s])
  {
    hide AuditsOnce, AuditsMatch, ProofsSettled;
    var next := Cleanup(db, chosen);
    forall s | s in db.sessions
      ensures s in CleanedSessions(db, chosen) <==>
                db.sessions[s].pending
                && exists i :: i in chosen && Stale(db, i) && Names(db.intents[i], s, db.sessions[s])
    {
      if s in CleanedSessions(db, chosen) {
        var i :| i in chosen && i in db.intents && CleanupCandidate(db, db.intents[i]) && db.intents[i].staged.Some?
          && db.intents[i].staged.value.sessionId == s && db.sessions[s].pending;
        var j :| j in db.intents && Names(db.intents[j], s, db.sessions[s]);
        assert i != j ==> Separate(db.intents[i], db.intents[j]);
      }
    }
  }
}
