/**
  * The authority tables as the re-authentication transactions change them, and
  * the caller that survives a lost commit response.
  */
module RotationStore {
  import opened Common
  import opened Rotation
  import opened RotationSafety
  import opened RotationRecovery

  class Store {
    var users: map<Id, Actor>
    var sessions: map<Id, Session>
    var intents: map<Id, Intent>
    var proofs: map<Id, Proof>
    var audits: seq<RotationAudit>
    var now: Time
    var issued: set<Id>

    function Tables(): Auth
      reads this
    {
      Auth(users, sessions, intents, proofs, audits, now, issued)
    }

    constructor (db: Auth)
      ensures Tables() == db
    {
      users, sessions, intents, proofs := db.users, db.sessions, db.intents, db.proofs;
      audits, now, issued := db.audits, db.now, db.issued;
    }

    method Rollback(saved: Auth)
      modifies this
      ensures Tables() == saved
    {
      users, sessions, intents, proofs := saved.users, saved.sessions, saved.intents, saved.proofs;
      audits, now, issued := saved.audits, saved.now, saved.issued;
    }

    /** Deletes the pending session of an unfinished intent, then the intent. */
    method DeleteIntent(intentId: Id)
      requires intentId in intents
      modifies this
      ensures Tables() == DropIntent(old(Tables()), intentId)
    {
      var i := intents[intentId];
      if i.staged.Some? {
        var staged := i.staged.value.sessionId;
        if staged in sessions && sessions[staged].userId == i.userId && sessions[staged].pending {
          sessions := sessions - {staged};
        }
      }
      intents := intents - {intentId};
    }

    /** Removes one expired unfinished intent of the session, then inserts the new intent. */
    method PrepareIntent(sessionId: Id, token: Id, actorId: Id, requestId: Id, intentId: Id, operationId: Id)
      returns (prepared: bool, contended: bool)
      modifies this
      ensures var r := Prepare(old(Tables()), sessionId, token, actorId, requestId, intentId, operationId);
              && contended == r.Contended? && prepared == r.PreparedIn?
              && Tables() == if r.Contended? then old(Tables()) else r.db
    {
      hide Holds, DropIntent;
      prepared, contended := false, false;
      if !(sessionId in sessions && sessions[sessionId].token == token && sessions[sessionId].userId == actorId
           && Holds(Tables(), sessionId, sessions[sessionId].generation) && HolderVerified(Tables(), actorId)) {
        HolderIsUser(Tables(), sessionId);
        return;
      }
      HolderIsUser(Tables(), sessionId);
      var saved := Tables();
      var expired := ExpiredOf(Tables(), sessionId);
      if expired != {} {
        DeleteIntent(Least(expired));
      }
      if UnfinishedOf(Tables(), sessionId) != {} {
        Rollback(saved);
        contended := true;
        return;
      }
      if !(sessionId in sessions && Holds(Tables(), sessionId, sessions[sessionId].generation)) { return; }
      intents := intents[intentId := NewIntent(Tables(), sessionId, requestId, operationId)];
      issued := issued + {intentId, operationId, requestId};
      prepared := true;
    }

    /** Inserts the pending session and marks the intent staged. */
    method StageSession(intentId: Id, newId: Id, newToken: Id, userId: Id, expiresAt: Time) returns (ok: bool)
      modifies this
      ensures ok == Stage(old(Tables()), intentId, newId, newToken, userId, expiresAt).Some?
      ensures Tables() == if ok then Stage(old(Tables()), intentId, newId, newToken, userId, expiresAt).value
                          else old(Tables())
    {
      hide Holds;
      if intentId !in intents { return false; }
      var i := intents[intentId];
      HolderIsUser(Tables(), i.oldSessionId);
      ok := i.state == Prepared && i.userId == userId && now < i.expiresAt
            && now + DAY - 5 * MINUTE <= expiresAt <= now + DAY + 5 * MINUTE
            && Holds(Tables(), i.oldSessionId, i.generation)
            && i.oldSessionId in sessions
            && sessions[i.oldSessionId].userId == i.userId && sessions[i.oldSessionId].token == i.oldToken
            && newId !in issued && newToken !in issued && newId != newToken;
      if ok {
        sessions := sessions[newId := Session(i.userId, newToken, true, i.generation, now, now + DAY)];
        intents := intents[intentId := i.(state := Staged, staged := Some(StagedRef(newId, newToken)))];
        issued := issued + {newId, newToken};
      }
    }

    /**
      * Activates the staged session, deletes the old one, writes the audit row,
      * finalizes; a late loss of authority undoes all of it.
      */
    method FinalizeRotation(intentId: Id, newToken: Id) returns (ok: bool)
      modifies this
      ensures ok == Finalize(old(Tables()), intentId, newToken).Some?
      ensures Tables() == if ok then Finalize(old(Tables()), intentId, newToken).value else old(Tables())
    {
      hide Holds;
      if intentId !in intents { return false; }
      var i := intents[intentId];
      if !(i.state == Staged && now < i.expiresAt && i.staged.Some? && i.staged.value.token == newToken
           && PairReady(Tables(), i, newToken)) { return false; }
      var saved := Tables();
      var newId := i.staged.value.sessionId;
      var was := sessions[i.oldSessionId];
      sessions := sessions[newId := sessions[newId].(pending := false)];
      if was.generation != i.generation {
        Rollback(saved);
        return false;
      }
      sessions := sessions - {i.oldSessionId};
      audits := audits + [RotationAudit(i.operationId, i.requestId, i.userId, now < was.createdAt + FRESH_LIFETIME)];
      var activated := Tables();
      intents := intents[intentId := i.(state := Finalized, finalizedAt := Some(now))];
      HoldsIgnoresIntents(activated, Tables(), newId, i.generation);
      if !Holds(Tables(), newId, i.generation) {
        Rollback(saved);
        return false;
      }
      ok := true;
    }

    /** Stage, finalize, confirm and mark the proof, in one transaction. */
    method CompleteRotation(digest: Id, oldToken: Id, newId: Id, newToken: Id) returns (r: CompleteResult)
      modifies this
      ensures r == Complete(old(Tables()), digest, oldToken, newId, newToken)
      ensures Tables() == if r.Rotated? then r.db else old(Tables())
    {
      hide Holds, Stage, Finalize;
      if digest !in proofs { return NoRotation; }
      var p := proofs[digest];
      if p.completed.Some? || p.expiresAt <= now || !ContextIsValid(Tables(), p.context) { return NoRotation; }
      ContextHolds(Tables(), p.context);
      if sessions[p.context.sessionId].token != oldToken { return NoRotation; }
      var saved := Tables();
      var staged := StageSession(p.context.intentId, newId, newToken, p.context.userId, now + DAY);
      if !staged { return RotationRaised; }
      StageKeepsProofs(saved, p.context.intentId, newId, newToken, p.context.userId, saved.now + DAY);
      var middle := Tables();
      var finalized := FinalizeRotation(p.context.intentId, newToken);
      if !finalized {
        Rollback(saved);
        return RotationRaised;
      }
      FinalizeKeepsProofs(middle, p.context.intentId, newToken);
      HolderIsUser(Tables(), newId);
      if !Holds(Tables(), newId, p.context.generation) {
        Rollback(saved);
        return RotationRaised;
      }
      var s := sessions[newId];
      proofs := proofs[digest := p.(completed := Some(Completion(newId, s.createdAt)),
                                    expiresAt := Min(s.createdAt + FRESH_LIFETIME, s.expiresAt))];
      r := Rotated(Tables(), RotatedSession(newId, s.createdAt, s.expiresAt, p.context.generation, p.context.userId));
    }

    /** Aborts the intent of an uncompleted proof and then drops the proof; a finished rotation is left alone. */
    method CancelProof(digest: Id) returns (cancelled: bool)
      modifies this
      ensures old(proofs).Keys !! {digest} ==> Tables() == old(Tables())
      ensures digest in old(proofs) && old(proofs)[digest].completed.Some? ==> !cancelled && Tables() == old(Tables())
      ensures digest in old(proofs) && old(proofs)[digest].completed.None? ==>
                var a := Abort(old(Tables()), old(proofs)[digest].context.intentId);
                cancelled == a.1 && Tables() == if a.1 then DropProof(a.0, digest) else a.0
    {
      if digest !in proofs { return true; }
      if proofs[digest].completed.Some? { return false; }
      var intentId := proofs[digest].context.intentId;
      if intentId in intents {
        if intents[intentId].state == Finalized { return false; }
        DeleteIntent(intentId);
      }
      if digest in proofs && proofs[digest].completed.None? {
        proofs := proofs - {digest};
      }
      cancelled := true;
    }

    /**
      * The caller's protocol. A session comes back only with the rotation stored;
      * a commit without an answer is found by reconciling; a true rollback leaves
      * the old session free for a new intent.
      */
    method CompleteCall(digest: Id, oldToken: Id, newId: Id, newToken: Id, fate: Fate) returns (r: CallResult)
      requires Inv(Tables())
      requires newId !in issued && newToken !in issued
      modifies this
      ensures r.Returned? ==> Complete(old(Tables()), digest, oldToken, newId, newToken).Rotated? && fate != RolledBack
                              && Tables() == Complete(old(Tables()), digest, oldToken, newId, newToken).db
                              && r.session.id == newId
      ensures fate != RolledBack && Complete(old(Tables()), digest, oldToken, newId, newToken).Rotated? ==> r.Returned?
      ensures fate == RolledBack && digest in old(proofs) && old(proofs)[digest].completed.None?
              && old(proofs)[digest].context.intentId in old(intents)
              && Unfinished(old(intents)[old(proofs)[digest].context.intentId]) ==>
                r.Unavailable? && old(proofs)[digest].context.intentId !in intents && digest !in proofs
    {
      hide Inv, Complete, Reconcile, Holds, DropIntent;
      var before := Tables();
      if fate != RolledBack {
        var rows := CompleteRotation(digest, oldToken, newId, newToken);
        if fate == Delivered {
          if rows.NoRotation? { return NoSession; }
          if rows.Rotated? {
            RotatedIsUsable(before, digest, oldToken, newId, newToken);
            return Returned(rows.session);
          }
        }
        if rows.Rotated? {
          CommittedReconciles(before, digest, oldToken, newId, newToken);
        } else {
          UnusedTokenIsUnknown(before, digest, newId, newToken);
        }
      } else {
        UnusedTokenIsUnknown(before, digest, newId, newToken);
      }
      var reconciled := Reconcile(Tables(), digest, newToken);
      if reconciled.Some? && reconciled.value.id == newId && reconciled.value.createdAt < reconciled.value.expiresAt {
        return Returned(reconciled.value);
      }
      DroppedIsGone(Tables(), digest);
      var cancelled := CancelProof(digest);
      r := Unavailable;
    }
  }

  predicate HolderVerified(db: Auth, actorId: Id) {
    actorId in db.users && db.users[actorId].verified
  }

  lemma HolderIsUser(db: Auth, sessionId: Id)
    ensures forall g: nat | Holds(db, sessionId, g) ::
              sessionId in db.sessions && db.sessions[sessionId].userId in db.users
  {
  }

  lemma HoldsIgnoresIntents(db: Auth, next: Auth, sessionId: Id, generation: nat)
    requires next == db.(intents := next.intents)
    ensures Holds(db, sessionId, generation) <==> Holds(next, sessionId, generation)
  {
  }

  lemma ContextHolds(db: Auth, c: Context)
    requires ContextIsValid(db, c)
    ensures c.sessionId in db.sessions
  {
  }

  lemma StageKeepsProofs(db: Auth, intentId: Id, newId: Id, newToken: Id, userId: Id, expiresAt: Time)
    requires Stage(db, intentId, newId, newToken, userId, expiresAt).Some?
    ensures Stage(db, intentId, newId, newToken, userId, expiresAt).value.proofs == db.proofs
    ensures Stage(db, intentId, newId, newToken, userId, expiresAt).value.now == db.now
  {
    hide Holds;
  }

  lemma FinalizeKeepsProofs(db: Auth, intentId: Id, newToken: Id)
    requires Finalize(db, intentId, newToken).Some?
    ensures Finalize(db, intentId, newToken).value.proofs == db.proofs
  {
    hide Holds;
  }

  lemma RotatedIsUsable(db: Auth, digest: Id, oldToken: Id, newId: Id, newToken: Id)
    requires Complete(db, digest, oldToken, newId, newToken).Rotated?
    ensures Complete(db, digest, oldToken, newId, newToken).session.id == newId
  {
    hide Holds, Stage, Finalize;
  }

  /** Right after its commit a rotation is found by its token. */
  lemma CommittedReconciles(db: Auth, digest: Id, oldToken: Id, newId: Id, newToken: Id)
    requires Inv(db) && Complete(db, digest, oldToken, newId, newToken).Rotated?
    ensures var next := Complete(db, digest, oldToken, newId, newToken).db;
            var r := Reconcile(next, digest, newToken);
            r.Some? && r.value.id == newId && r.value.createdAt < r.value.expiresAt
  {
    hide Inv, Complete, Stored, WellFormed, Holds, Stage, Finalize, ContextIsValid;
    var e := CompleteStep(digest, oldToken, newId, newToken);
    var next := Complete(db, digest, oldToken, newId, newToken).db;
    CompletedIsStored(db, e, next);
    RotationIsExact(db, digest, oldToken, newId, newToken);
    CompleteParts(db, digest, oldToken, newId, newToken);
    ContextNames(db, db.proofs[digest].context);
    StageKeepsProofs(db, db.proofs[digest].context.intentId, newId, newToken, db.proofs[digest].context.userId,
                     db.now + DAY);
    var c := db.proofs[digest].context;
    FinalizeClock(Stage(db, c.intentId, newId, newToken, c.userId, db.now + DAY).value, c.intentId, newToken);
    StoredReconciles(next, DurableOf(db, e));
    NewNotOld(db, digest, newId);
    ReconcileRow(next, digest, newToken);
  }

  lemma NewNotOld(db: Auth, digest: Id, newId: Id)
    requires digest in db.proofs && db.proofs[digest].context.sessionId in db.sessions && newId !in db.sessions
    ensures newId != db.proofs[digest].context.sessionId
  {
  }

  lemma FinalizeClock(db: Auth, intentId: Id, newToken: Id)
    requires Finalize(db, intentId, newToken).Some?
    ensures Finalize(db, intentId, newToken).value.now == db.now
  {
    hide Holds;
  }

  /** The reconciled row is the stored session. */
  lemma ReconcileRow(db: Auth, digest: Id, newToken: Id)
    requires Reconcile(db, digest, newToken).Some?
    ensures var r := Reconcile(db, digest, newToken).value;
            r.id in db.sessions && r.createdAt == db.sessions[r.id].createdAt
            && r.expiresAt == db.sessions[r.id].expiresAt
  {
    hide HasAudit;
  }

  /** A token never handed out is in no rotation. */
  lemma UnusedTokenIsUnknown(db: Auth, digest: Id, newId: Id, newToken: Id)
    requires Inv(db) && newId !in db.issued
    ensures var r := Reconcile(db, digest, newToken); r.Some? ==> r.value.id != newId
  {
    hide IntentsShaped, IntentsSeparate, PendingNamed, AuditsOnce, AuditsMatch, ProofsSettled, Holds, HasAudit;
    AllIssued(db);
    if Reconcile(db, digest, newToken).Some? {
      ReconcileRow(db, digest, newToken);
    }
  }

  lemma DroppedIsGone(db: Auth, digest: Id)
    ensures forall i | i in db.intents :: i !in DropIntent(db, i).intents && DropIntent(db, i).proofs == db.proofs
    ensures digest in db.proofs && db.proofs[digest].completed.None? ==> digest !in DropProof(db, digest).proofs
  {
  }
}
