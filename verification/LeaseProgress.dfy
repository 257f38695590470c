/**
  * How far a deletion request can get: exactly which requests a claim leases, that
  * the holder of a lease can take the request to its end, and which requests can
  * never be finished.
  */
module LeaseProgress {
  import opened Common
  import opened Lease
  import opened LeaseSafety

  // ----- what a claim changes

  /** Nothing is being called for the request, and nobody holds it. */
  ghost predicate Free(db: Queue, r: Request) {
    && r.activeProvider.None?
    && match r.leaseExpiresAt
       case None => true
       case Some(expires) => r.leaseToken.Some? && expires <= db.now
  }

  /** The user of the request still waits to be deleted. */
  ghost predicate Waiting(db: Queue, r: Request) {
    && !r.deleted
    && r.userId.Some? && r.userId.value in db.users && db.users[r.userId.value] == DeletionPending
  }

  /** The providers that are not done. */
  function Left(r: Request): set<Id> {
    set p | p in r.providers && (r.providers[p] == Pending || r.providers[p] == Failed)
  }

  /** A claim leases exactly the chosen requests that wait, have work left and are free, and changes nothing else. */
  lemma ClaimChangesExactly(db: Queue, chosen: map<Id, Id>, leaseSeconds: nat)
    ensures var next := Claim(db, chosen, leaseSeconds);
            && next == db.(requests := next.requests, issued := db.issued + chosen.Values)
            && next.requests.Keys == db.requests.Keys
            && forall r | r in db.requests ::
                 var row := db.requests[r];
                 if r in chosen && Waiting(db, row) && Left(row) != {} && Free(db, row)
                 then next.requests[r] == row.(leaseToken := Some(chosen[r]),
                                               leaseExpiresAt := Some(db.now + 1000 * leaseSeconds))
                 else next.requests[r] == row
  {
    forall r | r in db.requests
      ensures Claimable(db, db.requests[r]) <==>
                Waiting(db, db.requests[r]) && Left(db.requests[r]) != {} && Free(db, db.requests[r])
    {
      LeftIsWork(db.requests[r]);
    }
  }

  lemma LeftIsWork(r: Request)
    ensures Left(r) != {} <==> exists p | p in r.providers :: r.providers[p] != Completed
    ensures AllCompleted(r) <==> r.providers != map[] && Left(r) == {}
  {
    if Left(r) != {} {
      var p :| p in Left(r);
      assert r.providers[p] != Completed;
    }
    forall p | p in r.providers && r.providers[p] != Completed ensures p in Left(r) {
    }
  }

  // ----- paths

  /** The steps lead from the first state to the last. */
  ghost predicate Path(h: seq<Queue>, events: seq<Event>) {
    && |h| == |events| + 1
    && forall k | 0 <= k < |events| :: Next(h[k], events[k], h[k + 1])
  }

  lemma PathThen(db: Queue, e: Event, h: seq<Queue>, events: seq<Event>)
    requires Path(h, events) && Next(db, e, h[0])
    ensures Path([db] + h, [e] + events)
  {
    hide Next;
  }

  /** The token holds an unexpired lease of the open request. */
  ghost predicate LiveLease(db: Queue, r: Id, token: Id) {
    && r in db.requests && !db.requests[r].deleted
    && db.requests[r].leaseToken == Some(token)
    && db.requests[r].leaseExpiresAt.Some? && db.now < db.requests[r].leaseExpiresAt.value
  }

  ghost predicate HeldBy(db: Queue, r: Id, token: Id) {
    LiveLease(db, r, token) && Waiting(db, db.requests[r])
  }

  /** Only the request changes, and one call may be added or settled. */
  ghost predicate OnlyRequest(db: Queue, next: Queue, r: Id, row: Request) {
    && next == db.(requests := next.requests, calls := next.calls)
    && next.requests.Keys == db.requests.Keys && r in db.requests && next.requests[r] == row
    && forall s | s in db.requests && s != r :: next.requests[s] == db.requests[s]
  }

  /** A call begins exactly for the holder of a live lease, with no call open, at a provider with work left. */
  lemma BeginsExactly(db: Queue, r: Id, p: Id, token: Id)
    ensures MayBegin(db, r, p, token) <==>
              LiveLease(db, r, token) && db.requests[r].activeProvider.None? && p in Left(db.requests[r])
    ensures MayBegin(db, r, p, token) ==>
              && OnlyRequest(db, Begin(db, r, p, token), r, db.requests[r].(activeProvider := Some(p)))
              && Begin(db, r, p, token).calls == db.calls + [Dispatch(r, p, token, Outstanding)]
  {
  }

  /**
    * A report is recorded exactly for the holder of a live lease whose open call it
    * is about. Completed marks the provider and ends the call, unavailable ends it,
    * and failed marks the provider and leaves the call open.
    */
  lemma RecordsExactly(db: Queue, r: Id, p: Id, token: Id, report: Report)
    requires Inv(db)
    ensures MayRecord(db, r, p, token) <==> LiveLease(db, r, token) && db.requests[r].activeProvider == Some(p)
    ensures MayRecord(db, r, p, token) ==>
              var row := db.requests[r];
              && p in row.providers
              && OnlyRequest(db, Record(db, r, p, token, report), r,
                             match report
                             case ReportCompleted =>
                               row.(providers := row.providers[p := Completed], activeProvider := None)
                             case ReportFailed => row.(providers := row.providers[p := Failed])
                             case ReportUnavailable => row.(activeProvider := None))
  {
    hide CallsMatch, ConfirmedOnce;
    if r in db.requests {
      assert RequestOk(db, r, db.requests[r]);
    }
  }

  /**
    * An active user's request lists the linked providers, none of them called yet;
    * nobody else can submit one.
    */
  lemma SubmitsExactly(db: Queue, r: Id, user: Id, linked: set<Id>)
    requires r !in db.issued
    ensures var next := Submit(db, r, user, linked);
            if !(user in db.users && db.users[user] == ActiveUser) then next.None?
            else
              && next.Some?
              && next.value == db.(requests := next.value.requests, users := db.users[user := DeletionPending],
                                   issued := db.issued + {r})
              && next.value.requests.Keys == db.requests.Keys + {r}
              && (forall s | s in db.requests && s != r :: next.value.requests[s] == db.requests[s])
              && Waiting(next.value, next.value.requests[r]) && Free(next.value, next.value.requests[r])
              && next.value.requests[r].userId == Some(user) && next.value.requests[r].providers.Keys == linked
              && Left(next.value.requests[r]) == linked
              && forall p | p in linked :: next.value.requests[r].providers[p] == Pending
  {
  }

  /**
    * Completing says yes exactly for a closed request and for one that waits with
    * providers and none of them left; the latter is closed and its user erased.
    */
  lemma CompletesExactly(db: Queue, r: Id)
    requires Inv(db)
    ensures var (next, done) := CompleteErasure(db, r);
            var ready := r in db.requests && Waiting(db, db.requests[r]) && db.requests[r].providers != map[]
                         && Left(db.requests[r]) == {};
            && (done <==> ready || (r in db.requests && db.requests[r].deleted))
            && (!ready ==> next == db)
            && (ready ==>
                  var user := db.requests[r].userId.value;
                  && Finished(next, r, user)
                  && next == db.(users := db.users - {user}, erased := db.erased + {user}, requests := next.requests)
                  && next.requests.Keys == db.requests.Keys
                  && forall s | s in db.requests ::
                       next.requests[s] ==
                       db.requests[s].(userId := if db.requests[s].userId == Some(user) then None
                                                 else db.requests[s].userId,
                                       deleted := if s == r then true else db.requests[s].deleted))
  {
    hide CallsMatch, ConfirmedOnce;
    if r in db.requests {
      LeftIsWork(db.requests[r]);
      assert RequestOk(db, r, db.requests[r]);
    }
  }

  /** The request is closed and its user is gone. */
  ghost predicate Finished(db: Queue, r: Id, user: Id) {
    r in db.requests && db.requests[r].deleted && user !in db.users && user in db.erased
  }

  /** The holder calls a provider that is not done. */
  lemma HolderBegins(db: Queue, r: Id, token: Id, p: Id) returns (next: Queue)
    requires HeldBy(db, r, token) && p in Left(db.requests[r]) && db.requests[r].activeProvider.None?
    ensures Next(db, BeginStep(r, p, token), next)
    ensures HeldBy(next, r, token) && next.requests[r] == db.requests[r].(activeProvider := Some(p))
    ensures next.now == db.now
  {
    next := Begin(db, r, p, token);
  }

  /** The holder records that the call was confirmed. */
  lemma HolderRecords(db: Queue, r: Id, token: Id, p: Id) returns (next: Queue)
    requires HeldBy(db, r, token) && db.requests[r].activeProvider == Some(p) && p in db.requests[r].providers
    ensures Next(db, RecordStep(r, p, token, ReportCompleted), next)
    ensures HeldBy(next, r, token) && next.requests[r].userId == db.requests[r].userId
    ensures next.requests[r].activeProvider.None? && next.requests[r].providers.Keys == db.requests[r].providers.Keys
    ensures Left(next.requests[r]) == Left(db.requests[r]) - {p}
  {
    next := Record(db, r, p, token, ReportCompleted);
  }

  /** With every provider done the request is completed and its user erased. */
  lemma LastStep(db: Queue, r: Id) returns (next: Queue)
    requires r in db.requests && Waiting(db, db.requests[r])
    requires Left(db.requests[r]) == {} && db.requests[r].providers != map[]
    ensures Next(db, LeaseSafety.Event.CompleteStep(r), next) && Finished(next, r, db.requests[r].userId.value)
  {
    LeftIsWork(db.requests[r]);
    next := CompleteErasure(db, r).0;
  }

  /** The holder of a free request works through its providers, one call and one record each, and completes it. */
  lemma {:induction false} HolderFinishes(db: Queue, r: Id, token: Id) returns (h: seq<Queue>, events: seq<Event>)
    requires HeldBy(db, r, token) && db.requests[r].activeProvider.None? && db.requests[r].providers != map[]
    ensures Path(h, events) && h[0] == db && Finished(h[|events|], r, db.requests[r].userId.value)
    ensures |events| == 2 * |Left(db.requests[r])| + 1
    decreases |Left(db.requests[r])|
  {
    hide Next;
    if Left(db.requests[r]) == {} {
      var last := LastStep(db, r);
      h, events := [db, last], [LeaseSafety.Event.CompleteStep(r)];
    } else {
      var p :| p in Left(db.requests[r]);
      var begun := HolderBegins(db, r, token, p);
      var recorded := HolderRecords(begun, r, token, p);
      assert Left(begun.requests[r]) == Left(db.requests[r]);
      assert recorded.requests[r].providers != map[] by {
        assert p in recorded.requests[r].providers.Keys;
      }
      var h1, events1 := HolderFinishes(recorded, r, token);
      PathThen(begun, RecordStep(r, p, token, ReportCompleted), h1, events1);
      PathThen(db, BeginStep(r, p, token), [begun] + h1, [RecordStep(r, p, token, ReportCompleted)] + events1);
      h := [db] + ([begun] + h1);
      events := [BeginStep(r, p, token)] + ([RecordStep(r, p, token, ReportCompleted)] + events1);
    }
  }

  /** A free request with work left is claimed and then taken to its end. */
  lemma FreeFinishes(db: Queue, r: Id, token: Id) returns (h: seq<Queue>, events: seq<Event>)
    requires r in db.requests && Waiting(db, db.requests[r]) && Left(db.requests[r]) != {} && Free(db, db.requests[r])
    requires token !in db.issued
    ensures Path(h, events) && h[0] == db && Finished(h[|events|], r, db.requests[r].userId.value)
    ensures |events| == 2 * |Left(db.requests[r])| + 2
  {
    var chosen := map[r := token];
    ClaimChangesExactly(db, chosen, 60);
    var next := Claim(db, chosen, 60);
    LeftIsWork(db.requests[r]);
    assert next.requests[r].providers != map[] by {
      var p :| p in Left(db.requests[r]);
      assert p in next.requests[r].providers.Keys;
    }
    assert Left(next.requests[r]) == Left(db.requests[r]);
    hide Claim, Path;
    var h1, events1 := HolderFinishes(next, r, token);
    PathThen(db, ClaimStep(chosen, 60), h1, events1);
    h, events := [db] + h1, [ClaimStep(chosen, 60)] + events1;
  }

  /** A request just submitted for a user with linked providers can be taken to its end. */
  lemma SubmittedFinishes(db: Queue, r: Id, user: Id, linked: set<Id>, token: Id)
    returns (h: seq<Queue>, events: seq<Event>)
    requires r !in db.issued && user in db.users && db.users[user] == ActiveUser && linked != {}
    requires token !in db.issued && token != r
    ensures Path(h, events) && h[0] == db && |events| > 0 && events[0] == SubmitStep(r, user, linked)
    ensures Finished(h[|events|], r, user)
  {
    var next := Submit(db, r, user, linked).value;
    var p :| p in linked;
    assert p in Left(next.requests[r]);
    var h1, events1 := FreeFinishes(next, r, token);
    PathThen(db, SubmitStep(r, user, linked), h1, events1);
    h, events := [db] + h1, [SubmitStep(r, user, linked)] + events1;
  }

  /** A call still open under a live lease is recorded, and the holder goes on. */
  lemma HeldFinishes(db: Queue, r: Id, token: Id) returns (h: seq<Queue>, events: seq<Event>)
    requires HeldBy(db, r, token) && Left(db.requests[r]) != {}
    requires db.requests[r].activeProvider.Some? ==> db.requests[r].activeProvider.value in Left(db.requests[r])
    ensures Path(h, events) && h[0] == db && Finished(h[|events|], r, db.requests[r].userId.value)
  {
    hide Next, Path, Finished;
    var some :| some in Left(db.requests[r]);
    assert some in db.requests[r].providers.Keys;
    if db.requests[r].activeProvider.None? {
      h, events := HolderFinishes(db, r, token);
    } else {
      var p := db.requests[r].activeProvider.value;
      var recorded := HolderRecords(db, r, token, p);
      assert p in recorded.requests[r].providers.Keys;
      var h1, events1 := HolderFinishes(recorded, r, token);
      PathThen(db, RecordStep(r, p, token, ReportCompleted), h1, events1);
      h, events := [db] + h1, [RecordStep(r, p, token, ReportCompleted)] + events1;
    }
  }

  // ----- which requests can be finished

  /** Some steps lead from the state to one in which the request is closed and the user gone. */
  ghost predicate Finishable(db: Queue, r: Id, user: Id) {
    exists h: seq<Queue>, events: seq<Event> :: Path(h, events) && h[0] == db && Finished(h[|events|], r, user)
  }

  lemma {:induction false} QuarantineOnPath(h: seq<Queue>, events: seq<Event>, k: nat, r: Id)
    requires Path(h, events) && k < |h| && Inv(h[0])
    requires r in h[0].requests && Quarantined(h[0], h[0].requests[r]) && !AllCompleted(h[0].requests[r])
    ensures Inv(h[k]) && r in h[k].requests && Quarantined(h[k], h[k].requests[r])
    ensures h[k].requests[r] == h[0].requests[r].(userId := h[k].requests[r].userId)
    decreases k
  {
    hide Inv, Next, Quarantined;
    if k > 0 {
      QuarantineOnPath(h, events, k - 1, r);
      StepKeeps(h[k - 1], events[k - 1], h[k]);
      QuarantineStep(h[k - 1], events[k - 1], h[k], r);
    }
  }

  /**
    * A waiting request with work left can be finished exactly when it is not in
    * quarantine: a lease that lost its token, or one that ran out during a call, is
    * never picked up again; every other one has a way to the end.
    */
  lemma FinishableExactly(db: Queue, r: Id, token: Id)
    requires Inv(db) && r in db.requests && Waiting(db, db.requests[r]) && Left(db.requests[r]) != {}
    requires token !in db.issued
    ensures Finishable(db, r, db.requests[r].userId.value) <==> !Quarantined(db, db.requests[r])
  {
    hide Next;
    var row := db.requests[r];
    LeftIsWork(row);
    ActiveIsLeft(db, r);
    if Quarantined(db, row) {
      forall h: seq<Queue>, events: seq<Event> | Path(h, events) && h[0] == db
        ensures !Finished(h[|events|], r, row.userId.value)
      {
        QuarantineOnPath(h, events, |events|, r);
      }
    } else if Free(db, row) {
      var h, events := FreeFinishes(db, r, token);
    } else {
      var h, events := HeldFinishes(db, r, row.leaseToken.value);
    }
  }

  lemma ActiveIsLeft(db: Queue, r: Id)
    requires Inv(db) && r in db.requests
    ensures var row := db.requests[r];
            row.activeProvider.Some? ==>
              row.activeProvider.value in Left(row) && row.leaseToken.Some? && row.leaseExpiresAt.Some?
  {
    hide CallsMatch, ConfirmedOnce;
    assert RequestOk(db, r, db.requests[r]);
  }
}
