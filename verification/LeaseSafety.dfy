/** What every interleaving of workers, crashes, expiring leases and erasures keeps of the cleanup protocol. */
module LeaseSafety {
  import opened Common
  import opened Lease

  datatype Event =
    | ClaimStep(chosen: map<Id, Id>, leaseSeconds: nat)
    | BeginStep(requestId: Id, provider: Id, token: Id)
    | RecordStep(requestId: Id, provider: Id, token: Id, report: Report)
    | CompleteStep(requestId: Id)
    | SubmitStep(requestId: Id, user: Id, linked: set<Id>)
    | SignUpStep(user: Id)
    | TickStep(now: Time)

  /** Each claimed request gets a token of its own, never handed out before. */
  predicate FreshTokens(db: Queue, chosen: map<Id, Id>) {
    && (forall r | r in chosen :: chosen[r] !in db.issued)
    && (forall r, s | r in chosen && s in chosen && r != s :: chosen[r] != chosen[s])
  }

  ghost predicate Next(db: Queue, e: Event, next: Queue) {
    match e
    case ClaimStep(chosen, leaseSeconds) =>
      FreshTokens(db, chosen) && 30 <= leaseSeconds <= 3600 && next == Claim(db, chosen, leaseSeconds)
    case BeginStep(requestId, provider, token) =>
      MayBegin(db, requestId, provider, token) && next == Begin(db, requestId, provider, token)
    case RecordStep(requestId, provider, token, report) =>
      MayRecord(db, requestId, provider, token) && next == Record(db, requestId, provider, token, report)
    case CompleteStep(requestId) => next == CompleteErasure(db, requestId).0
    case SubmitStep(requestId, user, linked) => Submit(db, requestId, user, linked) == Some(next)
    case SignUpStep(user) =>
      user !in db.users && user !in db.erased && next == db.(users := db.users[user := ActiveUser])
    case TickStep(now) => db.now <= now && next == db.(now := now)
  }

  // ----- the invariant

  /** The calls of one request that are not settled. */
  ghost predicate IsUnsettled(calls: seq<Dispatch>, i: int, requestId: Id) {
    0 <= i < |calls| && calls[i].requestId == requestId && Unsettled(calls[i])
  }

  /**
    * The active provider is exactly the provider of the one unsettled call, which
    * was begun under the current lease; with none active nothing is unsettled.
    */
  ghost predicate CallsMatch(calls: seq<Dispatch>, requestId: Id, r: Request) {
    && (forall i | IsUnsettled(calls, i, requestId) ::
          r.activeProvider == Some(calls[i].provider) && r.leaseToken == Some(calls[i].token))
    && (forall i, j | IsUnsettled(calls, i, requestId) && IsUnsettled(calls, j, requestId) :: i == j)
    && (r.activeProvider.Some? ==> exists i :: IsUnsettled(calls, i, requestId))
  }

  /** A provider was confirmed by exactly one call once it is COMPLETED, and by none before. */
  ghost predicate ConfirmedOnce(calls: seq<Dispatch>, requestId: Id, r: Request) {
    && (forall i | 0 <= i < |calls| && calls[i].requestId == requestId && calls[i].outcome == Confirmed ::
          calls[i].provider in r.providers && r.providers[calls[i].provider] == Completed)
    && (forall p | p in r.providers && r.providers[p] == Completed ::
          exists i :: 0 <= i < |calls| && calls[i] == Dispatch(requestId, p, calls[i].token, Confirmed))
    && (forall i, j | 0 <= i < j < |calls| && calls[i].requestId == requestId && calls[j].requestId == requestId
                      && calls[i].outcome == Confirmed && calls[j].outcome == Confirmed ::
          calls[i].provider != calls[j].provider)
  }

  ghost predicate RequestOk(db: Queue, requestId: Id, r: Request) {
    && requestId in db.issued
    && (r.activeProvider.Some? ==>
          && r.activeProvider.value in r.providers && r.providers[r.activeProvider.value] != Completed
          && r.leaseToken.Some? && r.leaseExpiresAt.Some?)
    && (r.deleted ==> AllCompleted(r) && r.userId.None?)
    && CallsMatch(db.calls, requestId, r)
    && ConfirmedOnce(db.calls, requestId, r)
  }

  ghost predicate RequestsOk(db: Queue) {
    forall r {:trigger RequestOk(db, r, db.requests[r])} | r in db.requests :: RequestOk(db, r, db.requests[r])
  }

  ghost predicate Inv(db: Queue) {
    && RequestsOk(db)
    && (forall i | 0 <= i < |db.calls| :: db.calls[i].requestId in db.requests)
    && db.users.Keys !! db.erased
  }

  // ----- one step

  lemma ClaimKeeps(db: Queue, chosen: map<Id, Id>, leaseSeconds: nat)
    requires Inv(db)
    ensures Inv(Claim(db, chosen, leaseSeconds))
  {
    hide ConfirmedOnce;
    var next := Claim(db, chosen, leaseSeconds);
    forall r | r in next.requests ensures RequestOk(next, r, next.requests[r]) {
      assert RequestOk(db, r, db.requests[r]);
      ConfirmedFrame(db.calls, r, db.requests[r], next.requests[r]);
    }
  }

  lemma ConfirmedFrame(calls: seq<Dispatch>, requestId: Id, r: Request, next: Request)
    requires ConfirmedOnce(calls, requestId, r) && next.providers == r.providers
    ensures ConfirmedOnce(calls, requestId, next)
  {
  }

  lemma BeginKeeps(db: Queue, requestId: Id, provider: Id, token: Id)
    requires Inv(db) && MayBegin(db, requestId, provider, token)
    ensures Inv(Begin(db, requestId, provider, token))
  {
    hide CallsMatch, ConfirmedOnce;
    var next := Begin(db, requestId, provider, token);
    forall r | r in next.requests ensures RequestOk(next, r, next.requests[r]) {
      assert RequestOk(db, r, db.requests[r]);
      BeginCalls(db.calls, r, db.requests[r], requestId, provider, token);
    }
  }

  lemma BeginCalls(calls: seq<Dispatch>, r: Id, row: Request, requestId: Id, provider: Id, token: Id)
    requires CallsMatch(calls, r, row) && ConfirmedOnce(calls, r, row)
    requires r == requestId ==> row.activeProvider.None? && row.leaseToken == Some(token)
    ensures var after := calls + [Dispatch(requestId, provider, token, Outstanding)];
            var next := if r == requestId then row.(activeProvider := Some(provider)) else row;
            CallsMatch(after, r, next) && ConfirmedOnce(after, r, next)
  {
    var after := calls + [Dispatch(requestId, provider, token, Outstanding)];
    var next := if r == requestId then row.(activeProvider := Some(provider)) else row;
    forall i | IsUnsettled(after, i, r) ensures (i == |calls| && r == requestId) || IsUnsettled(calls, i, r) {
    }
    if r == requestId {
      assert IsUnsettled(after, |calls|, r);
      assert forall i :: !IsUnsettled(calls, i, r);
    } else if row.activeProvider.Some? {
      var i :| IsUnsettled(calls, i, r);
      assert IsUnsettled(after, i, r);
    }
    assert CallsMatch(after, r, next);
    forall p | p in next.providers && next.providers[p] == Completed
      ensures exists i :: 0 <= i < |after| && after[i] == Dispatch(r, p, after[i].token, Confirmed)
    {
      var i :| 0 <= i < |calls| && calls[i] == Dispatch(r, p, calls[i].token, Confirmed);
      assert after[i] == calls[i];
    }
  }

  lemma RecordKeeps(db: Queue, requestId: Id, provider: Id, token: Id, report: Report)
    requires Inv(db) && MayRecord(db, requestId, provider, token)
    ensures Inv(Record(db, requestId, provider, token, report))
  {
    hide CallsMatch, ConfirmedOnce;
    var next := Record(db, requestId, provider, token, report);
    forall r | r in next.requests ensures RequestOk(next, r, next.requests[r]) {
      assert RequestOk(db, r, db.requests[r]);
      if r == requestId {
        RecordOwnCalls(db.calls, r, db.requests[r], provider, report);
      } else {
        RecordOtherCalls(db.calls, r, db.requests[r], requestId, OutcomeOf(report));
      }
    }
  }

  lemma RecordOtherCalls(calls: seq<Dispatch>, r: Id, row: Request, requestId: Id, outcome: Outcome)
    requires CallsMatch(calls, r, row) && ConfirmedOnce(calls, r, row) && r != requestId
    ensures CallsMatch(Settle(calls, requestId, outcome), r, row)
            && ConfirmedOnce(Settle(calls, requestId, outcome), r, row)
  {
    var after := Settle(calls, requestId, outcome);
    assert forall i :: IsUnsettled(after, i, r) <==> IsUnsettled(calls, i, r);
    forall p | p in row.providers && row.providers[p] == Completed
      ensures exists i :: 0 <= i < |after| && after[i] == Dispatch(r, p, after[i].token, Confirmed)
    {
      var i :| 0 <= i < |calls| && calls[i] == Dispatch(r, p, calls[i].token, Confirmed);
      assert after[i] == calls[i];
    }
  }

  lemma RecordOwnCalls(calls: seq<Dispatch>, r: Id, row: Request, provider: Id, report: Report)
    requires CallsMatch(calls, r, row) && ConfirmedOnce(calls, r, row)
    requires row.activeProvider == Some(provider) && provider in row.providers && row.providers[provider] != Completed
    ensures CallsMatch(Settle(calls, r, OutcomeOf(report)), r, RecordedRow(row, provider, report))
    ensures ConfirmedOnce(Settle(calls, r, OutcomeOf(report)), r, RecordedRow(row, provider, report))
  {
    RecordOwnMatch(calls, r, row, provider, report);
    RecordOwnConfirmed(calls, r, row, provider, report);
  }

  lemma RecordOwnMatch(calls: seq<Dispatch>, r: Id, row: Request, provider: Id, report: Report)
    requires CallsMatch(calls, r, row) && row.activeProvider == Some(provider)
    ensures CallsMatch(Settle(calls, r, OutcomeOf(report)), r, RecordedRow(row, provider, report))
  {
    var after := Settle(calls, r, OutcomeOf(report));
    var one :| IsUnsettled(calls, one, r);
    if report == ReportFailed {
      assert IsUnsettled(after, one, r);
      assert forall i :: IsUnsettled(after, i, r) <==> IsUnsettled(calls, i, r);
    } else {
      assert forall i :: !IsUnsettled(after, i, r);
    }
  }

  lemma RecordOwnConfirmed(calls: seq<Dispatch>, r: Id, row: Request, provider: Id, report: Report)
    requires CallsMatch(calls, r, row) && ConfirmedOnce(calls, r, row)
    requires row.activeProvider == Some(provider) && provider in row.providers && row.providers[provider] != Completed
    ensures ConfirmedOnce(Settle(calls, r, OutcomeOf(report)), r, RecordedRow(row, provider, report))
  {
    var after := Settle(calls, r, OutcomeOf(report));
    var next := RecordedRow(row, provider, report);
    var one :| IsUnsettled(calls, one, r);
    forall i | 0 <= i < |after| && after[i].requestId == r && after[i].outcome == Confirmed
      ensures after[i].provider in next.providers && next.providers[after[i].provider] == Completed
      ensures i != one ==> calls[i] == after[i] && after[i].provider != provider
    {
      assert i != one ==> !IsUnsettled(calls, i, r);
      assert calls[i].provider == after[i].provider;
    }
    forall p | p in next.providers && next.providers[p] == Completed
      ensures exists i :: 0 <= i < |after| && after[i] == Dispatch(r, p, after[i].token, Confirmed)
    {
      if p == provider {
        assert after[one] == Dispatch(r, p, after[one].token, Confirmed);
      } else {
        var i :| 0 <= i < |calls| && calls[i] == Dispatch(r, p, calls[i].token, Confirmed);
        assert after[i] == calls[i];
      }
    }
    forall i, j | 0 <= i < j < |after| && after[i].requestId == r && after[j].requestId == r
                  && after[i].outcome == Confirmed && after[j].outcome == Confirmed
      ensures after[i].provider != after[j].provider
    {
      assert after[one].provider == provider;
    }
  }

  /** No erasure with a call outstanding: every provider is COMPLETED, and the active one never is. */
  lemma NoEraseWhileOutstanding(db: Queue, requestId: Id)
    requires Inv(db) && MayErase(db, requestId)
    ensures db.requests[requestId].activeProvider.None?
    ensures forall i :: !IsUnsettled(db.calls, i, requestId)
  {
    assert RequestOk(db, requestId, db.requests[requestId]);
  }

  lemma CompleteKeeps(db: Queue, requestId: Id)
    requires Inv(db)
    ensures Inv(CompleteErasure(db, requestId).0)
  {
    hide CallsMatch, ConfirmedOnce;
    if MayErase(db, requestId) {
      var next := Erase(db, requestId);
      forall r | r in next.requests ensures RequestOk(next, r, next.requests[r]) {
        assert RequestOk(db, r, db.requests[r]);
        ConfirmedFrame(db.calls, r, db.requests[r], next.requests[r]);
        MatchFrame(db.calls, r, db.requests[r], next.requests[r]);
      }
    }
  }

  lemma MatchFrame(calls: seq<Dispatch>, requestId: Id, r: Request, next: Request)
    requires CallsMatch(calls, requestId, r) && next.activeProvider == r.activeProvider
             && next.leaseToken == r.leaseToken
    ensures CallsMatch(calls, requestId, next)
  {
  }

  lemma SubmitKeeps(db: Queue, requestId: Id, user: Id, linked: set<Id>)
    requires Inv(db) && Submit(db, requestId, user, linked).Some?
    ensures Inv(Submit(db, requestId, user, linked).value)
  {
    var next := Submit(db, requestId, user, linked).value;
    forall r | r in db.requests ensures r in db.issued {
      assert RequestOk(db, r, db.requests[r]);
    }
    forall r | r in next.requests ensures RequestOk(next, r, next.requests[r]) {
      assert r != requestId ==> RequestOk(db, r, db.requests[r]);
    }
  }

  lemma QuietKeeps(db: Queue, next: Queue)
    requires Inv(db) && next == db.(now := next.now, users := next.users) && next.users.Keys !! next.erased
    ensures Inv(next)
  {
    hide CallsMatch, ConfirmedOnce;
    forall r | r in next.requests ensures RequestOk(next, r, next.requests[r]) {
      assert RequestOk(db, r, db.requests[r]);
    }
  }

  lemma StepKeeps(db: Queue, e: Event, next: Queue)
    requires Inv(db) && Next(db, e, next)
    ensures Inv(next)
  {
    hide RequestsOk, Claim, Begin, Record, CompleteErasure, Submit;
    match e {
      case ClaimStep(chosen, leaseSeconds) => ClaimKeeps(db, chosen, leaseSeconds);
      case BeginStep(requestId, provider, token) => BeginKeeps(db, requestId, provider, token);
      case RecordStep(requestId, provider, token, report) => RecordKeeps(db, requestId, provider, token, report);
      case CompleteStep(requestId) => CompleteKeeps(db, requestId);
      case SubmitStep(requestId, user, linked) => SubmitKeeps(db, requestId, user, linked);
      case SignUpStep(user) => QuietKeeps(db, next);
      case TickStep(now) => QuietKeeps(db, next);
    }
  }

  // ----- two consecutive states

  /** What no step takes back: a completed provider, a deletion, an erased user, a settled call. */
  ghost predicate Keeps(db: Queue, next: Queue) {
    && db.now <= next.now
    && db.erased <= next.erased
    && |db.calls| <= |next.calls|
    && (forall i | 0 <= i < |db.calls| :: CallKept(db.calls[i], next.calls[i]))
    && (forall r | r in db.requests :: r in next.requests && RowKept(db.requests[r], next.requests[r]))
  }

  ghost predicate CallKept(d: Dispatch, next: Dispatch) {
    && next == d.(outcome := next.outcome)
    && (!Unsettled(d) ==> next == d)
  }

  ghost predicate RowKept(r: Request, next: Request) {
    && next.providers.Keys == r.providers.Keys
    && (forall p | p in r.providers && r.providers[p] == Completed :: next.providers[p] == Completed)
    && (r.deleted ==> next == r)
  }

  lemma StepKeepsHistory(db: Queue, e: Event, next: Queue)
    requires Inv(db) && Next(db, e, next)
    ensures Keeps(db, next)
  {
    hide CallsMatch, ConfirmedOnce;
    forall r | r in db.requests ensures RequestOk(db, r, db.requests[r]) {
    }
  }

  /**
    * While a call is unsettled nobody but the holder of its lease, and only before
    * the lease runs out, can change its request; in particular no claim can.
    */
  lemma OutstandingFencesOthers(db: Queue, e: Event, next: Queue, requestId: Id)
    requires Inv(db) && Next(db, e, next) && requestId in db.requests && db.requests[requestId].activeProvider.Some?
    ensures requestId in next.requests
    ensures next.requests[requestId].leaseToken == db.requests[requestId].leaseToken
    ensures next.requests[requestId] == db.requests[requestId]
         || (e.RecordStep? && e.requestId == requestId && Some(e.token) == db.requests[requestId].leaseToken
             && Some(e.provider) == db.requests[requestId].activeProvider
             && db.requests[requestId].leaseExpiresAt.Some? && db.now < db.requests[requestId].leaseExpiresAt.value)
         || (e.CompleteStep? && next.requests[requestId] == db.requests[requestId].(userId := None))
  {
    hide CallsMatch, ConfirmedOnce;
    assert RequestOk(db, requestId, db.requests[requestId]);
  }

  // ----- runs

  /** Before the first step no call was begun; requests of an older version may carry a lease without a token. */
  ghost predicate Initial(db: Queue) {
    && db.calls == [] && db.users.Keys !! db.erased
    && forall r | r in db.requests ::
         && r in db.issued && !db.requests[r].deleted && db.requests[r].activeProvider.None?
         && forall p | p in db.requests[r].providers :: db.requests[r].providers[p] != Completed
  }

  ghost predicate Run(h: seq<Queue>, events: seq<Event>) {
    && |h| == |events| + 1
    && Initial(h[0])
    && forall k | 0 <= k < |events| :: Next(h[k], events[k], h[k + 1])
  }

  lemma {:induction false} RunInv(h: seq<Queue>, events: seq<Event>, k: nat)
    requires Run(h, events) && k < |h|
    ensures Inv(h[k])
    decreases k
  {
    hide Inv, Next;
    if k == 0 {
      InitialInv(h[0]);
    } else {
      RunInv(h, events, k - 1);
      StepKeeps(h[k - 1], events[k - 1], h[k]);
    }
  }

  lemma InitialInv(db: Queue)
    requires Initial(db)
    ensures Inv(db)
  {
  }

  /**
    * In every state: one unsettled call at most for each request, under the
    * current lease; one confirmed call for each completed provider.
    */
  lemma OneCallOutstanding(h: seq<Queue>, events: seq<Event>, k: nat, requestId: Id)
    requires Run(h, events) && k < |h| && requestId in h[k].requests
    ensures CallsMatch(h[k].calls, requestId, h[k].requests[requestId])
    ensures ConfirmedOnce(h[k].calls, requestId, h[k].requests[requestId])
  {
    hide Run, CallsMatch, ConfirmedOnce;
    RunInv(h, events, k);
    assert RequestOk(h[k], requestId, h[k].requests[requestId]);
  }

  /** What happened stays: completed providers, deletions, erased users and settled calls. */
  lemma {:induction false} RunKeepsHistory(h: seq<Queue>, events: seq<Event>, i: nat, k: nat)
    requires Run(h, events) && i <= k < |h|
    ensures Keeps(h[i], h[k])
    decreases k
  {
    hide Inv, Next, Initial;
    if i < k {
      RunKeepsHistory(h, events, i, k - 1);
      RunInv(h, events, k - 1);
      StepKeepsHistory(h[k - 1], events[k - 1], h[k]);
      KeepsTwo(h[i], h[k - 1], h[k]);
    }
  }

  lemma KeepsTwo(a: Queue, b: Queue, c: Queue)
    requires Keeps(a, b) && Keeps(b, c)
    ensures Keeps(a, c)
  {
    forall i | 0 <= i < |a.calls| ensures CallKept(a.calls[i], c.calls[i]) {
      assert CallKept(a.calls[i], b.calls[i]) && CallKept(b.calls[i], c.calls[i]);
    }
    forall r | r in a.requests ensures r in c.requests && RowKept(a.requests[r], c.requests[r]) {
      assert RowKept(a.requests[r], b.requests[r]) && RowKept(b.requests[r], c.requests[r]);
    }
  }

  /** A request becomes DELETED only by completing it, with its user erased and every provider completed. */
  lemma DeletionStep(db: Queue, e: Event, next: Queue, r: Id)
    requires Inv(db) && Next(db, e, next) && r in next.requests && next.requests[r].deleted
    requires r in db.requests ==> !db.requests[r].deleted
    ensures e.CompleteStep? && e.requestId == r && r in db.requests
    ensures AllCompleted(db.requests[r])
    ensures db.requests[r].userId.Some? && db.requests[r].userId.value in next.erased
  {
    hide CallsMatch, ConfirmedOnce, RequestOk;
  }

  /**
    * Behind every deleted request of a run stands the step that completed it:
    * every provider of its non-empty list was done before, and its user is erased
    * from then on and no user again.
    */
  lemma {:induction false} DeletionErases(h: seq<Queue>, events: seq<Event>, k: nat, r: Id) returns (c: nat)
    requires Run(h, events) && k < |h| && r in h[k].requests && h[k].requests[r].deleted
    ensures c < k && events[c].CompleteStep? && events[c].requestId == r
    ensures r in h[c].requests && !h[c].requests[r].deleted && AllCompleted(h[c].requests[r])
    ensures h[c].requests[r].userId.Some?
    ensures h[c].requests[r].userId.value in h[k].erased && h[c].requests[r].userId.value !in h[k].users
    decreases k
  {
    hide Inv, Next, AllCompleted;
    if k == 0 {
      assert false;
    } else {
      assert Next(h[k - 1], events[k - 1], h[k]);
      RunInv(h, events, k - 1);
      RunInv(h, events, k);
      if r in h[k - 1].requests && h[k - 1].requests[r].deleted {
        c := DeletionErases(h, events, k - 1, r);
        RunKeepsHistory(h, events, k - 1, k);
      } else {
        c := k - 1;
        DeletionStep(h[k - 1], events[k - 1], h[k], r);
      }
      ErasedIsNoUser(h[k]);
    }
  }

  lemma ErasedIsNoUser(db: Queue)
    requires Inv(db)
    ensures db.erased !! db.users.Keys
  {
  }

  /** An abandoned call, or a lease without a token, can never be picked up again. */
  ghost predicate Quarantined(db: Queue, r: Request) {
    && r.leaseExpiresAt.Some?
    && (r.leaseToken.None? || (r.activeProvider.Some? && r.leaseExpiresAt.value <= db.now))
  }

  lemma QuarantineStep(db: Queue, e: Event, next: Queue, requestId: Id)
    requires Inv(db) && Next(db, e, next) && requestId in db.requests && Quarantined(db, db.requests[requestId])
    requires !AllCompleted(db.requests[requestId])
    ensures requestId in next.requests && Quarantined(next, next.requests[requestId])
    ensures next.requests[requestId] == db.requests[requestId].(userId := next.requests[requestId].userId)
  {
    hide CallsMatch, ConfirmedOnce;
    assert RequestOk(db, requestId, db.requests[requestId]);
  }

  /**
    * Once quarantined a request keeps its lease, its providers and its open
    * status in every later state: no call is repeated, no user erased for it.
    */
  lemma {:induction false} QuarantineIsForever(h: seq<Queue>, events: seq<Event>, i: nat, k: nat, requestId: Id)
    requires Run(h, events) && i <= k < |h|
    requires requestId in h[i].requests && Quarantined(h[i], h[i].requests[requestId])
             && !AllCompleted(h[i].requests[requestId])
    ensures requestId in h[k].requests && Quarantined(h[k], h[k].requests[requestId])
    ensures h[k].requests[requestId] == h[i].requests[requestId].(userId := h[k].requests[requestId].userId)
    decreases k
  {
    hide Inv, Next, Initial;
    if i < k {
      QuarantineIsForever(h, events, i, k - 1, requestId);
      RunInv(h, events, k - 1);
      QuarantineStep(h[k - 1], events[k - 1], h[k], requestId);
    }
  }
}
