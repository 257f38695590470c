/**
  * Provider cleanup before account erasure. A worker claims a request with a
  * lease token, begins one provider call at a time, and records how the call
  * ended. The calls themselves are kept as a log, because what they did at the
  * provider cannot be read back.
  */
module Lease {
  import opened Common

  datatype CleanupStatus = Pending | Completed | Failed

  datatype AccountState = ActiveUser | DeletionPending

  /** A DELETED request has completedAt set. */
  datatype Request = Request(
    userId: Option<Id>,
    deleted: bool,
    providers: map<Id, CleanupStatus>,
    leaseToken: Option<Id>,
    leaseExpiresAt: Option<Time>,
    activeProvider: Option<Id>)

  /** How a provider call ended, as far as the worker knows. */
  datatype Outcome = Outstanding | Confirmed | NotSent | Doubtful

  /** One provider call, under the lease it was begun with. */
  datatype Dispatch = Dispatch(requestId: Id, provider: Id, token: Id, outcome: Outcome)

  datatype Queue = Queue(
    requests: map<Id, Request>,
    users: map<Id, AccountState>,
    erased: set<Id>,
    calls: seq<Dispatch>,
    now: Time,
    issued: set<Id>)

  datatype Report = ReportCompleted | ReportFailed | ReportUnavailable

  predicate AllDone(providers: map<Id, CleanupStatus>) {
    providers != map[] && forall p | p in providers :: providers[p] == Completed
  }

  predicate AllCompleted(r: Request) {
    AllDone(r.providers)
  }

  predicate UserPending(db: Queue, u: Option<Id>) {
    u.Some? && u.value in db.users && db.users[u.value] == DeletionPending
  }

  /**
    * A claim takes requests with work left, no call in flight and no live lease;
    * a lease without a token is quarantined.
    */
  predicate Claimable(db: Queue, r: Request) {
    && !r.deleted
    && UserPending(db, r.userId)
    && (exists p | p in r.providers :: r.providers[p] != Completed)
    && r.activeProvider.None?
    && (r.leaseExpiresAt.None? || (r.leaseToken.Some? && r.leaseExpiresAt.value <= db.now))
  }

  /** Claims the chosen requests, each with its own fresh token. */
  function Claim(db: Queue, chosen: map<Id, Id>, leaseSeconds: nat): Queue {
    db.(requests := map r | r in db.requests ::
          if r in chosen && Claimable(db, db.requests[r])
          then db.requests[r].(leaseToken := Some(chosen[r]), leaseExpiresAt := Some(db.now + 1000 * leaseSeconds))
          else db.requests[r],
        issued := db.issued + chosen.Values)
  }

  predicate LeaseHeld(db: Queue, requestId: Id, token: Id) {
    && requestId in db.requests
    && !db.requests[requestId].deleted
    && db.requests[requestId].leaseToken == Some(token)
    && db.requests[requestId].leaseExpiresAt.Some?
    && db.now < db.requests[requestId].leaseExpiresAt.value
  }

  predicate MayBegin(db: Queue, requestId: Id, provider: Id, token: Id) {
    && LeaseHeld(db, requestId, token)
    && db.requests[requestId].activeProvider.None?
    && provider in db.requests[requestId].providers
    && db.requests[requestId].providers[provider] != Completed
  }

  /** Marks the provider active; the worker may then call it. */
  function Begin(db: Queue, requestId: Id, provider: Id, token: Id): Queue
    requires MayBegin(db, requestId, provider, token)
  {
    db.(requests := db.requests[requestId := db.requests[requestId].(activeProvider := Some(provider))],
        calls := db.calls + [Dispatch(requestId, provider, token, Outstanding)])
  }

  predicate MayRecord(db: Queue, requestId: Id, provider: Id, token: Id) {
    LeaseHeld(db, requestId, token) && db.requests[requestId].activeProvider == Some(provider)
  }

  predicate Unsettled(d: Dispatch) {
    d.outcome == Outstanding || d.outcome == Doubtful
  }

  function OutcomeOf(report: Report): Outcome {
    match report
    case ReportCompleted => Confirmed
    case ReportFailed => Doubtful
    case ReportUnavailable => NotSent
  }

  /** Writes the report on the unsettled calls of the request. */
  function Settle(calls: seq<Dispatch>, requestId: Id, outcome: Outcome): (r: seq<Dispatch>)
    ensures |r| == |calls|
    ensures forall i | 0 <= i < |r| ::
              r[i] == if calls[i].requestId == requestId && Unsettled(calls[i]) then calls[i].(outcome := outcome)
                      else calls[i]
  {
    seq(|calls|, i requires 0 <= i < |calls| =>
      if calls[i].requestId == requestId && Unsettled(calls[i]) then calls[i].(outcome := outcome) else calls[i])
  }

  /** FAILED keeps the provider active: the call may have been processed. UNAVAILABLE means nothing was sent. */
  function RecordedRow(r: Request, provider: Id, report: Report): Request {
    match report
    case ReportUnavailable => r.(activeProvider := None)
    case ReportCompleted => r.(providers := Marked(r.providers, provider, Completed), activeProvider := None)
    case ReportFailed => r.(providers := Marked(r.providers, provider, Failed))
  }

  function Marked(providers: map<Id, CleanupStatus>, provider: Id, status: CleanupStatus): map<Id, CleanupStatus> {
    if provider in providers then providers[provider := status] else providers
  }

  function Record(db: Queue, requestId: Id, provider: Id, token: Id, report: Report): Queue
    requires MayRecord(db, requestId, provider, token)
  {
    db.(requests := db.requests[requestId := RecordedRow(db.requests[requestId], provider, report)],
        calls := Settle(db.calls, requestId, OutcomeOf(report)))
  }

  /** The erasure of a request whose providers are all done; its user must still await deletion. */
  predicate MayErase(db: Queue, requestId: Id) {
    && requestId in db.requests
    && AllCompleted(db.requests[requestId])
    && !db.requests[requestId].deleted
    && UserPending(db, db.requests[requestId].userId)
  }

  /** Deleting a user clears the reference of its requests. */
  function WithoutUser(db: Queue, user: Id): Queue {
    db.(users := db.users - {user},
        erased := db.erased + {user},
        requests := map r | r in db.requests ::
          if db.requests[r].userId == Some(user) then db.requests[r].(userId := None) else db.requests[r])
  }

  function Erase(db: Queue, requestId: Id): Queue
    requires MayErase(db, requestId)
  {
    var d := WithoutUser(db, db.requests[requestId].userId.value);
    d.(requests := d.requests[requestId := d.requests[requestId].(deleted := true)])
  }

  /** Completing: true once the request is DELETED. */
  function CompleteErasure(db: Queue, requestId: Id): (Queue, bool) {
    if requestId !in db.requests || !AllCompleted(db.requests[requestId]) then (db, false)
    else if db.requests[requestId].deleted then (db, true)
    else if MayErase(db, requestId) then (Erase(db, requestId), true)
    else (db, false)
  }

  /** A request lists the distinct linked providers of an active user, all PENDING, without a lease. */
  function Submit(db: Queue, requestId: Id, user: Id, linked: set<Id>): Option<Queue> {
    if requestId in db.issued || user !in db.users || db.users[user] != ActiveUser then None
    else
      var providers := map p | p in linked :: Pending;
      Some(db.(requests := db.requests[requestId := Request(Some(user), false, providers, None, None, None)],
               users := db.users[user := DeletionPending],
               issued := db.issued + {requestId}))
  }
}
