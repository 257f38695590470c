/**
  * Runs of the re-authentication steps, the exact effect of a rotation, and
  * what a caller who lost the commit response may conclude.
  */
module RotationRecovery {
  import opened Common
  import opened Rotation
  import opened RotationSafety

  // ----- runs

  /** Before the first step nobody re-authenticates. */
  ghost predicate Initial(db: Auth) {
    && db.intents == map[] && db.proofs == map[] && db.audits == []
    && db.users.Keys <= db.issued
    && forall s | s in db.sessions :: s in db.issued && !db.sessions[s].pending && db.sessions[s].createdAt <= db.now
  }

  ghost predicate Run(h: seq<Auth>, events: seq<Event>) {
    && |h| == |events| + 1
    && Initial(h[0])
    && forall k | 0 <= k < |events| :: Next(h[k], events[k], h[k + 1])
  }

  lemma {:induction false} RunInv(h: seq<Auth>, events: seq<Event>, k: nat)
    requires Run(h, events) && k < |h|
    ensures Inv(h[k])
    decreases k
  {
    hide Inv, Next;
    if k == 0 {
      InitialInv(h[0]);
    } else {
      RunInv(h, events, k - 1);
      StepKeeps(h[k - 1], events[k - 1], h[k]);
    }
  }

  lemma InitialInv(db: Auth)
    requires Initial(db)
    ensures Inv(db)
  {
  }

  /**
    * In every state of every run: one unfinished intent at most for each old
    * session, no pending session without the staged intent that names it, and
    * one audit row for each finalized intent and none for the others.
    */
  lemma RotationRules(h: seq<Auth>, events: seq<Event>, k: nat)
    requires Run(h, events) && k < |h|
    ensures forall i, j | i in h[k].intents && j in h[k].intents
                          && Unfinished(h[k].intents[i]) && Unfinished(h[k].intents[j])
                          && h[k].intents[i].oldSessionId == h[k].intents[j].oldSessionId :: i == j
    ensures forall s | s in h[k].sessions && h[k].sessions[s].pending ::
              exists i :: i in h[k].intents && Names(h[k].intents[i], s, h[k].sessions[s])
    ensures forall i | i in h[k].intents ::
              (h[k].intents[i].state == Finalized <==>
                 exists n :: 0 <= n < |h[k].audits| && h[k].audits[n].operationId == h[k].intents[i].operationId)
    ensures forall m, n | 0 <= m < n < |h[k].audits| :: h[k].audits[m].operationId != h[k].audits[n].operationId
    ensures forall i | i in h[k].intents && h[k].intents[i].state == Finalized ::
              h[k].intents[i].oldSessionId !in h[k].sessions
  {
    hide Run;
    RunInv(h, events, k);
    var db := h[k];
    forall i, j | i in db.intents && j in db.intents && Unfinished(db.intents[i]) && Unfinished(db.intents[j])
      && db.intents[i].oldSessionId == db.intents[j].oldSessionId
      ensures i == j
    {
      assert i != j ==> Separate(db.intents[i], db.intents[j]);
    }
    forall i | i in db.intents
      ensures db.intents[i].state == Finalized <==>
                exists n :: 0 <= n < |db.audits| && db.audits[n].operationId == db.intents[i].operationId
      ensures db.intents[i].state == Finalized ==> db.intents[i].oldSessionId !in db.sessions
    {
      assert AuditMatches(db.audits, db.intents[i]) && IntentShape(db, i, db.intents[i]);
    }
  }

  // ----- the exact effect of a rotation

  /**
    * A completed rotation is one of a linked account. It removes exactly the old
    * active session, adds exactly one active session of the same user and
    * generation, adds exactly one audit row, finalizes its own intent and leaves
    * every other row alone.
    */
  lemma RotationIsExact(db: Auth, digest: Id, oldToken: Id, newId: Id, newToken: Id)
    requires Inv(db) && Complete(db, digest, oldToken, newId, newToken).Rotated?
    ensures digest in db.proofs
    ensures var c := db.proofs[digest].context;
            var next := Complete(db, digest, oldToken, newId, newToken).db;
            && c.intentId in db.intents && c.sessionId in db.sessions && c.userId in db.users
            && var was := db.sessions[c.sessionId];
            && was.token == oldToken && !was.pending && was.userId == c.userId
            && c.link in db.users[c.userId].links
            && newId !in db.sessions
            && next.sessions == db.sessions[newId := Session(c.userId, newToken, false, was.generation, db.now,
                                                             db.now + DAY)] - {c.sessionId}
            && was.generation == db.users[c.userId].generation
            && next.audits == db.audits
               + [RotationAudit(db.intents[c.intentId].operationId, db.intents[c.intentId].requestId, c.userId,
                                db.now < was.createdAt + FRESH_LIFETIME)]
            && next.intents == db.intents[c.intentId := db.intents[c.intentId].(
                 state := Finalized, staged := Some(StagedRef(newId, newToken)), finalizedAt := Some(db.now))]
            && next.users == db.users
            && Holds(next, newId, was.generation)
  {
    hide AuditMatches, Separate, AuditsOnce, IntentShape, ProofSettled, Names;
    CompleteParts(db, digest, oldToken, newId, newToken);
    var c := db.proofs[digest].context;
    var staged := Stage(db, c.intentId, newId, newToken, c.userId, db.now + DAY).value;
    AllIssued(db);
    assert staged.sessions[newId].pending;
    StagedTwice(db.intents, c.intentId, db.intents[c.intentId], newId, newToken, db.now);
  }

  lemma StagedTwice(intents: map<Id, Intent>, id: Id, i: Intent, newId: Id, newToken: Id, now: Time)
    requires id in intents && intents[id] == i
    ensures var staged := i.(state := Staged, staged := Some(StagedRef(newId, newToken)));
            intents[id := staged][id := staged.(state := Finalized, finalizedAt := Some(now))]
            == intents[id := i.(state := Finalized, staged := Some(StagedRef(newId, newToken)),
                                finalizedAt := Some(now))]
  {
  }

  // ----- cancelling

  /**
    * Neither part of a cancellation touches a completed proof, a finalized
    * intent, an active session or the audit log.
    */
  lemma CancelUndoesNothing(db: Auth, intentId: Id, digest: Id)
    ensures var a := Abort(db, intentId).0;
            && a.proofs == db.proofs && a.audits == db.audits && a.users == db.users
            && (forall i | i in db.intents && db.intents[i].state == Finalized ::
                  i in a.intents && a.intents[i] == db.intents[i])
            && (forall s | s in db.sessions && !db.sessions[s].pending ::
                  s in a.sessions && a.sessions[s] == db.sessions[s])
    ensures var d := DropProof(db, digest);
            && d == db.(proofs := d.proofs)
            && (forall p | p in db.proofs && (p != digest || db.proofs[p].completed.Some?) ::
                  p in d.proofs && d.proofs[p] == db.proofs[p])
    ensures intentId in db.intents && db.intents[intentId].state == Finalized ==> !Abort(db, intentId).1
  {
  }

  /** The proof belongs to an intent that is gone or finished; neither id can be used again. */
  ghost predicate Spent(db: Auth, digest: Id, intentId: Id) {
    && digest in db.issued && intentId in db.issued
    && (digest in db.proofs ==> db.proofs[digest].context.intentId == intentId)
    && (intentId in db.intents ==> db.intents[intentId].state == Finalized)
  }

  lemma SpentCompletesNothing(db: Auth, digest: Id, intentId: Id, oldToken: Id, newId: Id, newToken: Id)
    requires Spent(db, digest, intentId)
    ensures Complete(db, digest, oldToken, newId, newToken) == NoRotation
  {
  }

  /** No step brings the intent back or moves the proof to another one. */
  lemma SpentStays(db: Auth, e: Event, next: Auth, digest: Id, intentId: Id)
    requires Next(db, e, next) && Spent(db, digest, intentId)
    ensures Spent(next, digest, intentId)
  {
    hide Holds, ContextIsValid, PairReady, Prepare, Complete, Cleanup;
    if e.PrepareStep? {
      SpentPrepare(db, e, next, digest, intentId);
    } else if e.CompleteStep? {
      CompleteParts(db, e.digest, e.oldToken, e.newId, e.newToken);
    } else if e.CleanupStep? {
      SpentCleanup(db, e.chosen, digest, intentId);
    }
  }

  lemma SpentPrepare(db: Auth, e: Event, next: Auth, digest: Id, intentId: Id)
    requires e.PrepareStep? && Next(db, e, next) && Spent(db, digest, intentId)
    ensures Spent(next, digest, intentId)
  {
    hide Holds;
  }

  lemma SpentCleanup(db: Auth, chosen: set<Id>, digest: Id, intentId: Id)
    requires Spent(db, digest, intentId)
    ensures Spent(Cleanup(db, chosen), digest, intentId)
  {
  }

  /** Once the intent of a proof is gone, or finished by another call, no later rotation completes the proof. */
  lemma NothingAfterAbort(h: seq<Auth>, events: seq<Event>, j: nat, k: nat, digest: Id)
    requires Run(h, events) && j <= k < |events| && digest in h[j].proofs
    requires var i := h[j].proofs[digest].context.intentId; i in h[j].intents ==> h[j].intents[i].state == Finalized
    ensures !(events[k].CompleteStep? && events[k].digest == digest)
  {
    hide Complete;
    var intentId := h[j].proofs[digest].context.intentId;
    RunInv(h, events, j);
    assert ProofSettled(h[j], digest, h[j].proofs[digest]);
    SpentRun(h, events, j, k, digest, intentId);
    assert Next(h[k], events[k], h[k + 1]);
    if events[k].CompleteStep? && events[k].digest == digest {
      SpentCompletesNothing(h[k], digest, intentId, events[k].oldToken, events[k].newId, events[k].newToken);
    }
  }

  lemma {:induction false} SpentRun(h: seq<Auth>, events: seq<Event>, j: nat, k: nat, digest: Id, intentId: Id)
    requires Run(h, events) && j <= k < |h| && Spent(h[j], digest, intentId)
    ensures Spent(h[k], digest, intentId)
    decreases k
  {
    hide Next, Spent, Initial;
    if j < k {
      SpentRun(h, events, j, k - 1, digest, intentId);
      assert Next(h[k - 1], events[k - 1], h[k]);
      SpentStays(h[k - 1], events[k - 1], h[k], digest, intentId);
    }
  }

  /**
    * After a true rollback a cancellation frees the old session: its owner can
    * prepare again at once.
    */
  lemma CancelFreesTheSession(db: Auth, context: Context, token: Id, requestId: Id, intentId: Id, operationId: Id)
    requires Inv(db)
    requires context.intentId in db.intents && Unfinished(db.intents[context.intentId])
    requires db.intents[context.intentId].oldSessionId == context.sessionId
    requires Holds(db, context.sessionId, context.generation)
             && db.users[db.sessions[context.sessionId].userId].verified
    requires db.sessions[context.sessionId].token == token
    ensures var freed := Abort(db, context.intentId);
            && freed.1
            && UnfinishedOf(freed.0, context.sessionId) == {}
            && Prepare(freed.0, context.sessionId, token, db.sessions[context.sessionId].userId, requestId, intentId,
                       operationId).PreparedIn?
  {
    hide IntentsShaped, PendingNamed, AuditsMatch, AuditsOnce, ProofsSettled;
    var freed := Abort(db, context.intentId).0;
    forall i | i in freed.intents && freed.intents[i].oldSessionId == context.sessionId
      ensures !Unfinished(freed.intents[i])
    {
      assert Separate(db.intents[i], db.intents[context.intentId]);
    }
    assert UnfinishedOf(freed, context.sessionId) == {};
    assert freed.sessions[context.sessionId] == db.sessions[context.sessionId];
  }

  // ----- a lost commit response

  /** The rows a completed rotation left. */
  datatype Durable = Durable(digest: Id, proof: Proof, intent: Intent, newId: Id, newToken: Id)

  /** The rotation is stored: its proof, its intent, its audit row, and its session unless that has ended. */
  ghost predicate Stored(db: Auth, r: Durable) {
    && r.digest in db.proofs && db.proofs[r.digest] == r.proof
    && r.proof.context.intentId in db.intents && db.intents[r.proof.context.intentId] == r.intent
    && HasAudit(db, r.intent)
    && r.newId in db.issued && r.proof.context.userId in db.issued
    && (r.newId in db.sessions ==> SessionIs(db.sessions[r.newId], r))
  }

  ghost predicate SessionIs(s: Session, r: Durable) {
    s.userId == r.proof.context.userId && s.token == r.newToken && s.generation == r.intent.generation
  }

  ghost predicate WellFormed(r: Durable) {
    && r.proof.completed.Some? && r.proof.completed.value.sessionId == r.newId
    && r.intent.state == Finalized && r.intent.staged == Some(StagedRef(r.newId, r.newToken))
    && r.intent.userId == r.proof.context.userId
  }

  /** The proof has run out, or its user is gone for good. */
  ghost predicate Over(db: Auth, r: Durable) {
    r.proof.expiresAt <= db.now || (r.proof.context.userId !in db.users && r.proof.context.userId in db.issued)
  }

  lemma StoredOneStep(db: Auth, e: Event, next: Auth, r: Durable)
    requires Inv(db) && Next(db, e, next) && WellFormed(r)
    requires Over(db, r) || Stored(db, r)
    ensures Over(next, r) || Stored(next, r)
  {
    hide Inv, Stored, Prepare, Stage, Finalize, Complete, StageProof, Cleanup, SignIn, DropIntent, SweepProofs, Over,
         WellFormed;
    if Over(db, r) {
      OverStays(db, e, next, r);
    } else {
      match e {
        case PrepareStep(sessionId, token, actorId, requestId, intentId, operationId) =>
          StoredPrepare(db, e, next, r);
        case StageStep(_, _, _, _, _) => StoredWrites(db, e, next, r);
        case FinalizeStep(_, _) => StoredWrites(db, e, next, r);
        case CompleteStep(_, _, _, _) => StoredComplete(db, e, next, r);
        case StageProofStep(_, _) => StoredSmall(db, e, next, r);
        case SweepStep => StoredSmall(db, e, next, r);
        case AbortStep(_) => StoredSmall(db, e, next, r);
        case DropProofStep(_) => StoredSmall(db, e, next, r);
        case CleanupStep(chosen) => StoredCleanup(db, chosen, r);
        case SignInStep(_, _, _, _) => StoredSmall(db, e, next, r);
        case SignOutStep(_, _) => StoredSmall(db, e, next, r);
        case RefreshStep(_) => StoredSmall(db, e, next, r);
        case ChangeUserStep(_, _, _) => StoredSmall(db, e, next, r);
        case EraseUserStep(_) => StoredErase(db, e, next, r);
        case SignUpStep(_, _, _) => StoredSmall(db, e, next, r);
        case TickStep(_) => StoredSmall(db, e, next, r);
      }
    }
  }

  lemma OverStays(db: Auth, e: Event, next: Auth, r: Durable)
    requires Next(db, e, next) && Over(db, r)
    ensures Over(next, r)
  {
    hide Holds, ContextIsValid, PairReady;
  }

  lemma DropKeepsStored(db: Auth, id: Id, r: Durable)
    requires Stored(db, r) && WellFormed(r) && id in db.intents && Unfinished(db.intents[id])
    ensures Stored(DropIntent(db, id), r)
  {
  }

  lemma StoredPrepare(db: Auth, e: Event, next: Auth, r: Durable)
    requires e.PrepareStep? && Inv(db) && Next(db, e, next) && WellFormed(r) && Stored(db, r)
    ensures Stored(next, r)
  {
    hide Holds, DropIntent, UnfinishedOf;
    var d := DropExpired(db, e.sessionId);
    if ExpiredOf(db, e.sessionId) != {} {
      ExpiredIsUnfinished(db, e.sessionId);
      DropKeepsStored(db, Least(ExpiredOf(db, e.sessionId)), r);
    }
    assert Stored(d, r);
    IntentIssued(db, r);
  }

  lemma ExpiredIsUnfinished(db: Auth, sessionId: Id)
    requires ExpiredOf(db, sessionId) != {}
    ensures Least(ExpiredOf(db, sessionId)) in db.intents && Unfinished(db.intents[Least(ExpiredOf(db, sessionId))])
  {
  }

  lemma IntentIssued(db: Auth, r: Durable)
    requires Inv(db) && Stored(db, r)
    ensures r.proof.context.intentId in db.issued && r.digest in db.issued
  {
    assert IntentShape(db, r.proof.context.intentId, db.intents[r.proof.context.intentId]);
    assert ProofSettled(db, r.digest, db.proofs[r.digest]);
  }

  lemma AuditStays(db: Auth, next: Auth, i: Intent)
    requires HasAudit(db, i) && |db.audits| <= |next.audits| && next.audits[..|db.audits|] == db.audits
    ensures HasAudit(next, i)
  {
    var k :| 0 <= k < |db.audits| && db.audits[k].operationId == i.operationId && db.audits[k].requestId == i.requestId
             && db.audits[k].userId == i.userId;
    assert next.audits[..|db.audits|][k] == next.audits[k];
  }

  lemma StoredWrites(db: Auth, e: Event, next: Auth, r: Durable)
    requires (e.StageStep? || e.FinalizeStep?) && Inv(db) && Next(db, e, next) && WellFormed(r) && Stored(db, r)
    ensures Stored(next, r)
  {
    hide Holds, Inv, HasAudit;
    AuditStays(db, next, r.intent);
  }

  lemma StoredComplete(db: Auth, e: Event, next: Auth, r: Durable)
    requires e.CompleteStep? && Inv(db) && Next(db, e, next) && WellFormed(r) && Stored(db, r)
    ensures Stored(next, r)
  {
    hide Holds, Inv, HasAudit, Complete, ContextIsValid;
    CompleteParts(db, e.digest, e.oldToken, e.newId, e.newToken);
    AuditStays(db, next, r.intent);
  }

  /** Cleanup waits for a finalized intent longer than its proof lives. */
  lemma StoredCleanup(db: Auth, chosen: set<Id>, r: Durable)
    requires Inv(db) && WellFormed(r) && Stored(db, r) && !Over(db, r)
    ensures Stored(Cleanup(db, chosen), r)
  {
    hide IntentsShaped, IntentsSeparate, PendingNamed, SessionsIssued, AuditsOnce, AuditsMatch;
    assert ProofSettled(db, r.digest, db.proofs[r.digest]);
    var next := Cleanup(db, chosen);
    assert !CleanupCandidate(db, r.intent);
    assert next.audits == db.audits && HasAudit(next, r.intent);
  }

  lemma StoredErase(db: Auth, e: Event, next: Auth, r: Durable)
    requires e.EraseUserStep? && Inv(db) && Next(db, e, next) && WellFormed(r) && Stored(db, r)
    ensures Over(next, r) || Stored(next, r)
  {
    hide Inv;
    assert next.audits == db.audits && (HasAudit(db, r.intent) ==> HasAudit(next, r.intent));
  }

  lemma StoredSmall(db: Auth, e: Event, next: Auth, r: Durable)
    requires e.StageProofStep? || e.SweepStep? || e.AbortStep? || e.DropProofStep? || e.SignInStep? || e.SignOutStep?
             || e.RefreshStep?
             || e.ChangeUserStep? || e.SignUpStep? || e.TickStep?
    requires Inv(db) && Next(db, e, next) && WellFormed(r) && Stored(db, r) && !Over(db, r)
    ensures Stored(next, r)
  {
    hide Inv, Holds, ContextIsValid;
    IntentIssued(db, r);
    assert next.audits == db.audits && (HasAudit(db, r.intent) ==> HasAudit(next, r.intent));
  }

  // ----- the caller's protocol

  datatype Reply = Answered(session: RotatedSession) | AnsweredNothing | NoReply

  /** What becomes of a commit: answered, committed without an answer, or rolled back. */
  datatype Fate = Delivered | CommitUnanswered | RolledBack

  /** The answer of the completing transaction; one that raised, was lost or rolled back gives none. */
  function ReplyOf(result: CompleteResult, fate: Fate): Reply {
    if fate != Delivered || result.RotationRaised? then NoReply
    else if result.Rotated? then Answered(result.session)
    else AnsweredNothing
  }

  datatype CallResult = Returned(session: RotatedSession) | NoSession | Unavailable

  /**
    * What the caller concludes: a usable answer is returned as it is, an empty
    * one means no session, and anything else is decided by reconciling.
    */
  function CallOutcome(reply: Reply, reconciled: Option<RotatedSession>, newId: Id): CallResult {
    match reply
    case AnsweredNothing => NoSession
    case Answered(session) =>
      if session.id == newId && session.createdAt < session.expiresAt then Returned(session)
      else Reconciled(reconciled, newId)
    case NoReply => Reconciled(reconciled, newId)
  }

  function Reconciled(reconciled: Option<RotatedSession>, newId: Id): CallResult {
    if reconciled.Some? && reconciled.value.id == newId && reconciled.value.createdAt < reconciled.value.expiresAt
    then Returned(reconciled.value) else Unavailable
  }

  /** The k-th event is the commit of the caller's own attempt. */
  ghost predicate CommittedAt(h: seq<Auth>, events: seq<Event>, c: nat, digest: Id, newId: Id, newToken: Id)
    requires Run(h, events)
  {
    && c < |events| && events[c].CompleteStep?
    && events[c].digest == digest && events[c].newId == newId && events[c].newToken == newToken
  }

  function DurableOf(db: Auth, e: Event): Durable
    requires e.CompleteStep? && Complete(db, e.digest, e.oldToken, e.newId, e.newToken).Rotated?
             && e.digest in db.proofs
    requires db.proofs[e.digest].context.intentId in db.intents
  {
    var c := db.proofs[e.digest].context;
    var i := db.intents[c.intentId];
    Durable(e.digest,
            db.proofs[e.digest].(completed := Some(Completion(e.newId, db.now)), expiresAt := db.now + FRESH_LIFETIME),
            i.(state := Finalized, staged := Some(StagedRef(e.newId, e.newToken)), finalizedAt := Some(db.now)),
            e.newId, e.newToken)
  }

  lemma CompletedIsStored(db: Auth, e: Event, next: Auth)
    requires Inv(db) && e.CompleteStep? && Next(db, e, next)
    ensures e.digest in db.proofs && db.proofs[e.digest].context.intentId in db.intents
    ensures WellFormed(DurableOf(db, e)) && Stored(next, DurableOf(db, e))
    ensures DurableOf(db, e).proof == next.proofs[e.digest]
  {
    hide IntentsShaped, IntentsSeparate, PendingNamed, AuditsOnce, AuditsMatch, ProofsSettled, Holds, Complete,
         ContextIsValid, PairReady, Stage, Finalize;
    RotationIsExact(db, e.digest, e.oldToken, e.newId, e.newToken);
    CompleteParts(db, e.digest, e.oldToken, e.newId, e.newToken);
    ContextNames(db, db.proofs[e.digest].context);
    var r := DurableOf(db, e);
    assert next.audits[|db.audits|].operationId == r.intent.operationId;
    CompleteIssues(db, e.digest, e.oldToken, e.newId, e.newToken);
  }

  lemma ContextNames(db: Auth, c: Context)
    requires ContextIsValid(db, c)
    ensures c.intentId in db.intents && db.intents[c.intentId].userId == c.userId
            && db.intents[c.intentId].generation == c.generation
    ensures c.sessionId in db.sessions && db.sessions[c.sessionId].generation == c.generation
  {
  }

  lemma CompleteIssues(db: Auth, digest: Id, oldToken: Id, newId: Id, newToken: Id)
    requires Complete(db, digest, oldToken, newId, newToken).Rotated?
    ensures Complete(db, digest, oldToken, newId, newToken).db.issued == db.issued + {newId, newToken}
    ensures digest in Complete(db, digest, oldToken, newId, newToken).db.proofs
  {
    hide Holds, ContextIsValid, PairReady;
  }

  /** From its commit on, a rotation stays stored until its proof runs out or its user is erased. */
  lemma {:induction false} StoredUntilOver(h: seq<Auth>, events: seq<Event>, c: nat, k: nat)
    requires Run(h, events) && c < k < |h| && events[c].CompleteStep?
    requires events[c].digest in h[c].proofs && h[c].proofs[events[c].digest].context.intentId in h[c].intents
    requires Complete(h[c], events[c].digest, events[c].oldToken, events[c].newId, events[c].newToken).Rotated?
    ensures WellFormed(DurableOf(h[c], events[c]))
    ensures Over(h[k], DurableOf(h[c], events[c])) || Stored(h[k], DurableOf(h[c], events[c]))
    decreases k
  {
    hide Inv, Next, Over, Stored, WellFormed, Complete, Initial;
    if k == c + 1 {
      RunInv(h, events, c);
      CompletedIsStored(h[c], events[c], h[k]);
    } else {
      StoredUntilOver(h, events, c, k - 1);
      RunInv(h, events, k - 1);
      StoredOneStep(h[k - 1], events[k - 1], h[k], DurableOf(h[c], events[c]));
    }
  }

  lemma StoredReconciles(db: Auth, r: Durable)
    requires WellFormed(r) && Stored(db, r) && db.now < r.proof.expiresAt && Holds(db, r.newId, r.intent.generation)
    ensures Reconcile(db, r.digest, r.newToken).Some?
    ensures Reconcile(db, r.digest, r.newToken).value.id == r.newId
    ensures Reconcile(db, r.digest, r.newToken).value.userId == r.proof.context.userId
  {
  }

  lemma CommitNames(h: seq<Auth>, events: seq<Event>, c: nat)
    requires Run(h, events) && c < |events| && events[c].CompleteStep?
    ensures events[c].digest in h[c].proofs && h[c].proofs[events[c].digest].context.intentId in h[c].intents
    ensures Complete(h[c], events[c].digest, events[c].oldToken, events[c].newId, events[c].newToken).Rotated?
    ensures Complete(h[c], events[c].digest, events[c].oldToken, events[c].newId, events[c].newToken).db == h[c + 1]
    ensures h[c + 1].proofs.Keys == h[c].proofs.Keys
            && h[c + 1].proofs[events[c].digest] == DurableOf(h[c], events[c]).proof
    ensures DurableOf(h[c], events[c]).intent.generation == h[c].proofs[events[c].digest].context.generation
  {
    hide Complete, ContextIsValid, Stage, Finalize, Initial;
    assert Next(h[c], events[c], h[c + 1]);
    CompleteParts(h[c], events[c].digest, events[c].oldToken, events[c].newId, events[c].newToken);
    ContextNames(h[c], h[c].proofs[events[c].digest].context);
  }

  /**
    * Reconciling finds every rotation that still holds authority: however late
    * the caller asks, while the completed proof is live and the new session
    * holds, the answer is that session.
    */
  lemma LostReplyIsFound(h: seq<Auth>, events: seq<Event>, c: nat, k: nat, digest: Id, newId: Id, newToken: Id)
    requires Run(h, events) && CommittedAt(h, events, c, digest, newId, newToken) && c < k < |h|
    requires digest in h[c + 1].proofs && h[k].now < h[c + 1].proofs[digest].expiresAt
    requires Holds(h[k], newId, h[c + 1].proofs[digest].context.generation)
    ensures Reconcile(h[k], digest, newToken).Some? && Reconcile(h[k], digest, newToken).value.id == newId
  {
    hide Inv, Next, Stored, Complete, WellFormed, Initial, Reconcile;
    CommitNames(h, events, c);
    StoredUntilOver(h, events, c, k);
    var r := DurableOf(h[c], events[c]);
    if Over(h[k], r) {
      SessionOwner(h, events, c, k);
      assert false;
    }
    StoredReconciles(h[k], r);
  }

  /** A session id is never reused, so the new session still belongs to the user of its proof. */
  lemma {:induction false} SessionOwner(h: seq<Auth>, events: seq<Event>, c: nat, k: nat)
    requires Run(h, events) && c < k < |h| && events[c].CompleteStep?
    requires events[c].digest in h[c].proofs
    ensures events[c].newId in h[k].issued
    ensures events[c].newId in h[k].sessions ==>
              h[k].sessions[events[c].newId].userId == h[c].proofs[events[c].digest].context.userId
    decreases k
  {
    hide Inv, Initial, Complete;
    assert Next(h[k - 1], events[k - 1], h[k]);
    RunInv(h, events, k - 1);
    if k == c + 1 {
      RotationIsExact(h[c], events[c].digest, events[c].oldToken, events[c].newId, events[c].newToken);
      CompleteIssues(h[c], events[c].digest, events[c].oldToken, events[c].newId, events[c].newToken);
    } else {
      SessionOwner(h, events, c, k - 1);
      OwnerStays(h[k - 1], events[k - 1], h[k], events[c].newId);
    }
  }

  lemma OwnerStays(db: Auth, e: Event, next: Auth, id: Id)
    requires Inv(db) && Next(db, e, next) && id in db.issued
    ensures id in next.issued
    ensures id in next.sessions ==> id in db.sessions && next.sessions[id].userId == db.sessions[id].userId
  {
    hide Inv, Holds, ContextIsValid, PairReady, Complete;
    if e.CompleteStep? {
      OwnerStaysComplete(db, e, id);
    } else if e.FinalizeStep? {
      FinalizeSessions(db, e.intentId, e.newToken, id);
    }
  }

  lemma FinalizeSessions(db: Auth, intentId: Id, newToken: Id, id: Id)
    requires Finalize(db, intentId, newToken).Some?
    ensures var next := Finalize(db, intentId, newToken).value;
            && next.issued == db.issued
            && (id in next.sessions ==> id in db.sessions && next.sessions[id].userId == db.sessions[id].userId)
  {
    hide Holds;
  }

  lemma OwnerStaysComplete(db: Auth, e: Event, id: Id)
    requires Inv(db) && e.CompleteStep? && id in db.issued
             && Complete(db, e.digest, e.oldToken, e.newId, e.newToken).Rotated?
    ensures var next := Complete(db, e.digest, e.oldToken, e.newId, e.newToken).db;
            && id in next.issued
            && (id in next.sessions ==> id in db.sessions && next.sessions[id].userId == db.sessions[id].userId)
  {
    hide Inv, Holds, ContextIsValid, PairReady, Complete, Stage, Finalize;
    RotationIsExact(db, e.digest, e.oldToken, e.newId, e.newToken);
    CompleteIssues(db, e.digest, e.oldToken, e.newId, e.newToken);
    CompleteParts(db, e.digest, e.oldToken, e.newId, e.newToken);
    StageIsFresh(db, e.digest, e.newId, e.newToken);
  }

  lemma StageIsFresh(db: Auth, digest: Id, newId: Id, newToken: Id)
    requires digest in db.proofs
    requires Stage(db, db.proofs[digest].context.intentId, newId, newToken, db.proofs[digest].context.userId,
                   db.now + DAY).Some?
    ensures newId !in db.issued && newToken !in db.issued
  {
    hide Holds;
  }

  /** A proof is completed only by a committed rotation. */
  lemma {:induction false} CompletedByCommit(h: seq<Auth>, events: seq<Event>, k: nat, digest: Id)
    requires Run(h, events) && k < |h| && digest in h[k].proofs && h[k].proofs[digest].completed.Some?
    ensures exists c :: 0 <= c < k && events[c].CompleteStep? && events[c].digest == digest
                        && events[c].newId == h[k].proofs[digest].completed.value.sessionId
    decreases k
  {
    hide Next, Complete;
    if k > 0 {
      assert Next(h[k - 1], events[k - 1], h[k]);
      CompletionComesFrom(h[k - 1], events[k - 1], h[k], digest);
      if digest in h[k - 1].proofs && h[k - 1].proofs[digest] == h[k].proofs[digest] {
        CompletedByCommit(h, events, k - 1, digest);
      }
    }
  }

  lemma CompletionComesFrom(db: Auth, e: Event, next: Auth, digest: Id)
    requires Next(db, e, next) && digest in next.proofs && next.proofs[digest].completed.Some?
    ensures || (digest in db.proofs && db.proofs[digest] == next.proofs[digest])
            || (e.CompleteStep? && e.digest == digest && e.newId == next.proofs[digest].completed.value.sessionId)
  {
    hide Holds, ContextIsValid, PairReady, Complete;
    if e.CompleteStep? {
      CompleteParts(db, e.digest, e.oldToken, e.newId, e.newToken);
    }
  }

  /**
    * The completing transaction of the call ran on the c-th state; unless it
    * rolled back, a rotation it made is the c-th event.
    */
  ghost predicate RanAt(h: seq<Auth>, events: seq<Event>, c: nat, digest: Id, oldToken: Id, newId: Id, newToken: Id,
                        fate: Fate)
  {
    && c < |h|
    && (fate != RolledBack && Complete(h[c], digest, oldToken, newId, newToken).Rotated? ==>
          c < |events| && events[c] == CompleteStep(digest, oldToken, newId, newToken))
  }

  /**
    * The caller gets a session only if its rotation is durable: the proof was
    * completed by a committed rotation with that session, however late the
    * caller reconciles, and no commit means no session.
    */
  lemma ReturnedIsDurable(h: seq<Auth>, events: seq<Event>, c: nat, k: nat, digest: Id, oldToken: Id, newId: Id,
                          newToken: Id, fate: Fate)
    requires Run(h, events) && RanAt(h, events, c, digest, oldToken, newId, newToken, fate) && c <= k < |h|
    ensures CallOutcome(ReplyOf(Complete(h[c], digest, oldToken, newId, newToken), fate),
                        Reconcile(h[k], digest, newToken), newId).Returned? ==>
              exists d ::
                && 0 <= d < |events| && events[d].CompleteStep?
                && events[d].digest == digest && events[d].newId == newId
  {
    hide Initial, Next, ReconcileIntent, Complete;
    var reply := ReplyOf(Complete(h[c], digest, oldToken, newId, newToken), fate);
    if CallOutcome(reply, Reconcile(h[k], digest, newToken), newId).Returned? {
      if reply.Answered? {
        assert events[c].CompleteStep? && events[c].digest == digest && events[c].newId == newId;
      } else {
        CompletedByCommit(h, events, k, digest);
      }
    }
  }

  /** A session handed out by reconciling holds authority right then, and the old session is gone. */
  lemma ReconciledHolds(h: seq<Auth>, events: seq<Event>, k: nat, digest: Id, newToken: Id)
    requires Run(h, events) && k < |h| && Reconcile(h[k], digest, newToken).Some?
    ensures digest in h[k].proofs && h[k].proofs[digest].context.intentId in h[k].intents
    ensures var i := h[k].intents[h[k].proofs[digest].context.intentId];
            && Holds(h[k], Reconcile(h[k], digest, newToken).value.id, i.generation)
            && i.oldSessionId !in h[k].sessions
            && HasAudit(h[k], i)
  {
    hide Run, Holds, IntentsSeparate, PendingNamed, AuditsOnce, AuditsMatch, ProofsSettled;
    RunInv(h, events, k);
    var id := h[k].proofs[digest].context.intentId;
    assert IntentShape(h[k], id, h[k].intents[id]);
  }
}
