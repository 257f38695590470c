/** The erasure queue as the worker transactions change it, and the erasure batch over it. */
module LeaseStore {
  import opened Common
  import opened Lease
  import opened LeaseBatch

  lemma ClaimedRows(db: Queue, chosen: map<Id, Id>, leaseSeconds: nat)
    ensures var after := Claim(db, chosen, leaseSeconds);
            && after == db.(requests := after.requests, issued := db.issued + chosen.Values)
            && after.requests.Keys == db.requests.Keys
            && forall r | r in db.requests ::
                 after.requests[r] == if r in chosen && Claimable(db, db.requests[r])
                 then db.requests[r].(leaseToken := Some(chosen[r]),
                                      leaseExpiresAt := Some(db.now + 1000 * leaseSeconds))
                 else db.requests[r]
  {
  }

  /** Whether a row may be claimed does not depend on the other rows. */
  lemma ClaimableOnRow(db: Queue, requests: map<Id, Request>, row: Request)
    ensures Claimable(db.(requests := requests), row) == Claimable(db, row)
  {
  }

  class Store {
    var requests: map<Id, Request>
    var users: map<Id, AccountState>
    var erased: set<Id>
    ghost var calls: seq<Dispatch>
    var now: Time
    ghost var issued: set<Id>

    ghost function Tables(): Queue
      reads this
    {
      Queue(requests, users, erased, calls, now, issued)
    }

    predicate MayClaim(row: Request)
      reads this
      ensures MayClaim(row) <==> Claimable(Tables(), row)
    {
      && !row.deleted && row.userId.Some? && row.userId.value in users && users[row.userId.value] == DeletionPending
      && (exists p | p in row.providers :: row.providers[p] != Completed)
      && row.activeProvider.None?
      && (row.leaseExpiresAt.None? || (row.leaseToken.Some? && row.leaseExpiresAt.value <= now))
    }

    /** Claims the chosen requests one by one, each under its own token. */
    method ClaimCleanups(chosen: map<Id, Id>, leaseSeconds: nat)
      modifies this
      ensures Tables() == Claim(old(Tables()), chosen, leaseSeconds)
    {
      hide Claim, Claimable, MayClaim;
      ghost var before := Tables();
      ClaimedRows(before, chosen, leaseSeconds);
      ghost var claimed := Claim(before, chosen, leaseSeconds).requests;
      var left := requests.Keys * chosen.Keys;
      while left != {}
        invariant left <= requests.Keys * chosen.Keys
        invariant Tables() == before.(requests := requests)
        invariant requests.Keys == before.requests.Keys
        invariant forall r | r in requests :: requests[r] ==
                    if r in left || r !in chosen then before.requests[r] else claimed[r]
      {
        var r :| r in left;
        var row := requests[r];
        ClaimableOnRow(before, requests, row);
        if MayClaim(row) {
          requests := requests[r := row.(leaseToken := Some(chosen[r]),
                                         leaseExpiresAt := Some(now + 1000 * leaseSeconds))];
        }
        left := left - {r};
      }
      issued := issued + chosen.Values;
      assert requests == claimed;
    }

    predicate Held(requestId: Id, token: Id)
      reads this
      ensures Held(requestId, token) <==> LeaseHeld(Tables(), requestId, token)
    {
      && requestId in requests && !requests[requestId].deleted && requests[requestId].leaseToken == Some(token)
      && requests[requestId].leaseExpiresAt.Some? && now < requests[requestId].leaseExpiresAt.value
    }

    /** Marks a provider active for the holder of the lease; false leaves the row alone. */
    method BeginCleanup(requestId: Id, provider: Id, token: Id) returns (begun: bool)
      modifies this
      ensures begun <==> MayBegin(old(Tables()), requestId, provider, token)
      ensures Tables() == if begun then Begin(old(Tables()), requestId, provider, token) else old(Tables())
    {
      if !Held(requestId, token) || requests[requestId].activeProvider.Some? { return false; }
      var row := requests[requestId];
      if provider !in row.providers || row.providers[provider] == Completed { return false; }
      requests := requests[requestId := row.(activeProvider := Some(provider))];
      calls := calls + [Dispatch(requestId, provider, token, Outstanding)];
      begun := true;
    }

    /** Records the end of the active call for the holder of the lease. */
    method RecordCleanup(requestId: Id, provider: Id, token: Id, report: Report) returns (recorded: bool)
      modifies this
      ensures recorded <==> MayRecord(old(Tables()), requestId, provider, token)
      ensures Tables() == if recorded then Record(old(Tables()), requestId, provider, token, report) else old(Tables())
    {
      if !Held(requestId, token) || requests[requestId].activeProvider != Some(provider) { return false; }
      var row := requests[requestId];
      if report != ReportUnavailable && provider in row.providers {
        row := row.(providers := row.providers[provider := if report == ReportCompleted then Completed else Failed]);
      }
      if report != ReportFailed {
        row := row.(activeProvider := None);
      }
      requests := requests[requestId := row];
      calls := Settle(calls, requestId, OutcomeOf(report));
      recorded := true;
    }

    /** Erases the user of a request whose providers are all done and marks it DELETED. */
    method CompleteRequest(requestId: Id) returns (deleted: bool)
      modifies this
      ensures (Tables(), deleted) == CompleteErasure(old(Tables()), requestId)
    {
      if requestId !in requests || !AllCompleted(requests[requestId]) { return false; }
      if requests[requestId].deleted { return true; }
      var userId := requests[requestId].userId;
      if userId.None? || userId.value !in users || users[userId.value] != DeletionPending { return false; }
      users, erased := users - {userId.value}, erased + {userId.value};
      requests := map r | r in requests ::
        if requests[r].userId == Some(userId.value) then requests[r].(userId := None) else requests[r];
      requests := requests[requestId := requests[requestId].(deleted := true)];
      deleted := true;
    }

    /**
      * The erasure batch over a list read before: the three lists keep the list
      * order, and the batch is full when the list is.
      */
    method RunBatch(listed: seq<Listed>, fates: seq<Fate>, batchSize: nat)
      returns (completed: seq<Id>, pending: seq<Id>, failed: seq<Id>, limitReached: bool)
      requires |fates| == |listed|
      modifies this
      ensures Tables() == Batch(old(Tables()), listed, fates).0
      ensures completed == Pick(listed, Batch(old(Tables()), listed, fates).1, Done)
      ensures pending == Pick(listed, Batch(old(Tables()), listed, fates).1, Waiting)
      ensures failed == Pick(listed, Batch(old(Tables()), listed, fates).1, Broken)
      ensures limitReached <==> |listed| >= batchSize
    {
      hide CompleteErasure, AllDone, Batch, Pick;
      ghost var before := Tables();
      completed, pending, failed, limitReached := [], [], [], |listed| >= batchSize;
      NothingListed(before);
      for i := 0 to |listed|
        invariant Tables() == Batch(before, listed[..i], fates[..i]).0
        invariant completed == Pick(listed[..i], Batch(before, listed[..i], fates[..i]).1, Done)
        invariant pending == Pick(listed[..i], Batch(before, listed[..i], fates[..i]).1, Waiting)
        invariant failed == Pick(listed[..i], Batch(before, listed[..i], fates[..i]).1, Broken)
      {
        BatchNext(before, listed, fates, i, Done);
        BatchNext(before, listed, fates, i, Waiting);
        BatchNext(before, listed, fates, i, Broken);
        var entry := listed[i];
        if !AllDone(entry.providers) {
          pending := pending + [entry.id];
        } else {
          var deleted := entry.deleted;
          if !deleted && fates[i] != Rejected(false) {
            deleted := CompleteRequest(entry.id);
            deleted := deleted && fates[i].Answered?;
          }
          if deleted {
            completed := completed + [entry.id];
          } else {
            failed := failed + [entry.id];
          }
        }
      }
      assert listed[..|listed|] == listed && fates[..|fates|] == fates;
    }
  }
}
