/**
  * The bounded email dispatcher. At most `concurrency` deliveries run at once,
  * at most `capacity` messages are running or queued, and a drain waits until
  * nothing is left. A message is known by the number of the enqueue call that
  * brought it. Whether the port throws at once on a message is an arbitrary
  * predicate; how and when a running delivery ends is an event.
  */
module EmailDispatcher {
  type Ticket = nat

  datatype Reason = Aborted | DeliveryFailed | QueueFull

  datatype Report = Report(ticket: Ticket, reason: Reason)

  datatype Limits = Limits(capacity: nat, concurrency: nat)

  /** The dispatcher's variables, with the history of its messages and drains. */
  datatype State = State(
    queue: seq<Ticket>,
    running: set<Ticket>,
    aborted: bool,
    accepting: bool,
    waiting: set<nat>,
    next: Ticket,
    accepted: seq<Ticket>,
    sent: seq<Ticket>,
    settled: set<Ticket>,
    rejected: set<Ticket>,
    reports: seq<Report>,
    drains: nat,
    resolved: set<nat>
  ) {
    predicate Idle() {
      running == {} && queue == []
    }
  }

  const START := State([], {}, false, true, {}, 0, [], [], {}, {}, [], 0, {})

  function ResolveWhenIdle(s: State): State {
    if s.Idle() then s.(resolved := s.resolved + s.waiting, waiting := {}) else s
  }

  predicate CanSend(s: State, limits: Limits) {
    !s.aborted && |s.running| < limits.concurrency && |s.queue| > 0
  }

  /** Takes the first message off the queue and hands it to the port. */
  function Send(s: State, throws: Ticket -> bool): State
    requires |s.queue| > 0
  {
    var t := s.queue[0];
    var shifted := s.(queue := s.queue[1..], sent := s.sent + [t]);
    if throws(t) then shifted.(settled := s.settled + {t}, reports := s.reports + [Report(t, DeliveryFailed)])
    else shifted.(running := s.running + {t})
  }

  function Pump(s: State, limits: Limits, throws: Ticket -> bool): State
    decreases |s.queue|
  {
    if CanSend(s, limits) then Pump(Send(s, throws), limits, throws) else ResolveWhenIdle(s)
  }

  lemma PumpSends(s: State, limits: Limits, throws: Ticket -> bool)
    requires CanSend(s, limits)
    ensures Pump(s, limits, throws) == Pump(Send(s, throws), limits, throws)
  {
  }

  lemma PumpRests(s: State, limits: Limits, throws: Ticket -> bool)
    requires !CanSend(s, limits)
    ensures Pump(s, limits, throws) == ResolveWhenIdle(s)
  {
  }

  function Push(s: State): State {
    s.(next := s.next + 1, queue := s.queue + [s.next], accepted := s.accepted + [s.next])
  }

  function TurnAway(s: State, reason: Reason): State {
    s.(next := s.next + 1, rejected := s.rejected + {s.next}, reports := s.reports + [Report(s.next, reason)])
  }

  function Enqueue(s: State, limits: Limits, throws: Ticket -> bool): State {
    if !s.accepting then TurnAway(s, Aborted)
    else if |s.running| + |s.queue| >= limits.capacity then TurnAway(s, QueueFull)
    else Pump(Push(s), limits, throws)
  }

  /** A delivery fails: the report is written while the delivery still counts as running. */
  function Fail(s: State, t: Ticket): State {
    s.(reports := s.reports + [Report(t, DeliveryFailed)])
  }

  function Free(s: State, t: Ticket): State {
    s.(running := s.running - {t}, settled := s.settled + {t})
  }

  /** A delivery is over. */
  function Release(s: State, t: Ticket, limits: Limits, throws: Ticket -> bool): State {
    ResolveWhenIdle(Pump(Free(s, t), limits, throws))
  }

  function AbortReports(queue: seq<Ticket>): (reports: seq<Report>)
    ensures |reports| == |queue|
  {
    seq(|queue|, i requires 0 <= i < |queue| => Report(queue[i], Aborted))
  }

  function Dropped(s: State): State {
    s.(accepting := false, aborted := true, queue := [],
       rejected := s.rejected + (set t | t in s.queue), reports := s.reports + AbortReports(s.queue))
  }

  function Abort(s: State): State {
    ResolveWhenIdle(Dropped(s))
  }

  function Drain(s: State): State {
    var asked := s.(accepting := false, drains := s.drains + 1);
    if s.Idle() then asked.(resolved := s.resolved + {s.drains}) else asked.(waiting := s.waiting + {s.drains})
  }

  // ----- events

  datatype Event =
    | Arrives
    | Fails(ticket: Ticket)
    | Ends(ticket: Ticket)
    | Aborts
    | Drains

  predicate Reported(s: State, t: Ticket) {
    exists i | 0 <= i < |s.reports| :: s.reports[i].ticket == t
  }

  /** Only a running delivery can end, and it fails at most once. */
  predicate Enabled(s: State, e: Event) {
    match e
    case Fails(t) => t in s.running && !Reported(s, t)
    case Ends(t) => t in s.running
    case _ => true
  }

  function Apply(s: State, e: Event, limits: Limits, throws: Ticket -> bool): State {
    match e
    case Arrives => Enqueue(s, limits, throws)
    case Fails(t) => Fail(s, t)
    case Ends(t) => Release(s, t, limits, throws)
    case Aborts => Abort(s)
    case Drains => Drain(s)
  }

  ghost predicate Run(states: seq<State>, events: seq<Event>, limits: Limits, throws: Ticket -> bool) {
    && |states| == |events| + 1
    && forall i | 0 <= i < |events| ::
         Enabled(states[i], events[i]) && states[i + 1] == Apply(states[i], events[i], limits, throws)
  }

  // ----- what every state keeps

  /** In how many places a message is. */
  function Places(s: State, t: Ticket): nat {
    (if t in s.queue then 1 else 0) + (if t in s.running then 1 else 0)
    + (if t in s.settled then 1 else 0) + (if t in s.rejected then 1 else 0)
  }

  /** Every message that came is in exactly one place, and no other message is anywhere. */
  ghost predicate Conserved(s: State) {
    && (forall t: Ticket {:trigger Places(s, t)} :: Places(s, t) == if t < s.next then 1 else 0)
    && (forall i, j | 0 <= i < j < |s.queue| :: s.queue[i] < s.queue[j])
  }

  predicate WithinLimits(s: State, limits: Limits) {
    |s.running| <= limits.concurrency && |s.running| + |s.queue| <= limits.capacity
  }

  /** Sends start in the order of arrival; unless aborted, what was accepted was sent or is queued. */
  ghost predicate InOrder(s: State) {
    && s.sent <= s.accepted
    && (!s.aborted ==> s.accepted == s.sent + s.queue)
    && (forall i, j | 0 <= i < j < |s.accepted| :: s.accepted[i] < s.accepted[j])
    && (forall i | 0 <= i < |s.accepted| :: s.accepted[i] < s.next)
    && (forall t | t in s.sent :: t in s.running || t in s.settled)
    && (forall t | t in s.running || t in s.settled :: t in s.sent)
  }

  predicate RightReport(s: State, r: Report) {
    match r.reason
    case DeliveryFailed => r.ticket in s.running || r.ticket in s.settled
    case _ => r.ticket in s.rejected
  }

  /** A message is reported at most once, a rejected one exactly once, with the right reason. */
  ghost predicate ReportedOnce(s: State) {
    && (forall i | 0 <= i < |s.reports| :: RightReport(s, s.reports[i]))
    && (forall i, j | 0 <= i < j < |s.reports| :: s.reports[i].ticket != s.reports[j].ticket)
    && (forall t | t in s.rejected :: Reported(s, t))
  }

  /** Every drain either waits or has resolved; a resolved one leaves nothing behind. */
  ghost predicate DrainsKept(s: State) {
    && (forall d: nat :: d < s.drains <==> d in s.waiting || d in s.resolved)
    && s.waiting !! s.resolved
    && (s.drains > 0 || s.aborted ==> !s.accepting)
    && (s.resolved != {} ==> s.Idle())
    && (s.aborted ==> s.queue == [])
  }

  /** A waiting message means that every slot is busy, a waiting drain that work is left. */
  predicate Saturated(s: State, limits: Limits) {
    && (s.queue != [] ==> |s.running| == limits.concurrency)
    && (s.waiting != {} ==> !s.Idle())
  }

  ghost predicate Core(s: State, limits: Limits) {
    Conserved(s) && WithinLimits(s, limits) && InOrder(s) && ReportedOnce(s) && DrainsKept(s)
  }

  ghost predicate Good(s: State, limits: Limits) {
    Core(s, limits) && Saturated(s, limits)
  }

  /**
    * Reports stay single when each new one is for a message without a report, and
    * every newly rejected message has one.
    */
  lemma ReportsKept(s: State, s': State, more: seq<Report>)
    requires ReportedOnce(s) && s'.reports == s.reports + more
    requires s'.running + s'.settled >= s.running + s.settled && s'.rejected >= s.rejected
    requires forall i | 0 <= i < |more| :: RightReport(s', more[i]) && !Reported(s, more[i].ticket)
    requires forall i, j | 0 <= i < j < |more| :: more[i].ticket != more[j].ticket
    requires forall t | t in s'.rejected && t !in s.rejected :: exists i | 0 <= i < |more| :: more[i].ticket == t
    ensures ReportedOnce(s')
  {
    var n := |s.reports|;
    forall i | 0 <= i < |s'.reports| ensures RightReport(s', s'.reports[i]) {
      if i < n {
        assert RightReport(s, s.reports[i]);
      } else {
        assert s'.reports[i] == more[i - n];
      }
    }
    forall i, j | 0 <= i < j < |s'.reports| ensures s'.reports[i].ticket != s'.reports[j].ticket {
      if j >= n {
        assert s'.reports[j] == more[j - n] && !Reported(s, more[j - n].ticket);
        if i >= n {
          assert s'.reports[i] == more[i - n];
        }
      }
    }
    forall t | t in s'.rejected ensures Reported(s', t) {
      if t in s.rejected {
        assert Reported(s, t);
        var i :| 0 <= i < n && s.reports[i].ticket == t;
        assert s'.reports[i].ticket == t;
      } else {
        var i :| 0 <= i < |more| && more[i].ticket == t;
        assert s'.reports[n + i].ticket == t;
      }
    }
  }

  lemma OnePlace(s: State, t: Ticket)
    requires Conserved(s)
    ensures Places(s, t) == if t < s.next then 1 else 0
  {
  }

  /** A message that has no place yet, or waits in the queue, has no report. */
  lemma Unreported(s: State, t: Ticket)
    requires Conserved(s) && ReportedOnce(s) && (t in s.queue || t >= s.next)
    ensures !Reported(s, t)
  {
    OnePlace(s, t);
    assert forall i | 0 <= i < |s.reports| :: RightReport(s, s.reports[i]);
  }

  lemma SendConserves(s: State, throws: Ticket -> bool)
    requires Conserved(s) && |s.queue| > 0
    ensures Conserved(Send(s, throws))
  {
    var t, s' := s.queue[0], Send(s, throws);
    assert s.queue == [t] + s'.queue;
    OnePlace(s, t);
    forall u: Ticket ensures Places(s', u) == if u < s'.next then 1 else 0 {
      OnePlace(s, u);
      assert u in s.queue <==> u == t || u in s'.queue;
    }
  }

  lemma SendKeepsOrder(s: State, throws: Ticket -> bool)
    requires InOrder(s) && |s.queue| > 0 && !s.aborted
    ensures InOrder(Send(s, throws))
  {
    var t, s' := s.queue[0], Send(s, throws);
    assert s.queue == [t] + s'.queue;
    assert s'.accepted == s'.sent + s'.queue;
  }

  lemma SendReports(s: State, throws: Ticket -> bool)
    requires Conserved(s) && ReportedOnce(s) && |s.queue| > 0
    ensures ReportedOnce(Send(s, throws))
  {
    var t := s.queue[0];
    Unreported(s, t);
    hide Conserved, ReportedOnce, Reported;
    ReportsKept(s, Send(s, throws), if throws(t) then [Report(t, DeliveryFailed)] else []);
  }

  lemma SendStaysWithin(s: State, limits: Limits, throws: Ticket -> bool)
    requires WithinLimits(s, limits) && CanSend(s, limits)
    ensures WithinLimits(Send(s, throws), limits)
  {
  }

  lemma HeadIsWaiting(s: State)
    requires Conserved(s) && |s.queue| > 0
    ensures s.queue[0] !in s.running
  {
    OnePlace(s, s.queue[0]);
  }

  lemma SendKeeps(s: State, limits: Limits, throws: Ticket -> bool)
    requires Core(s, limits) && CanSend(s, limits)
    ensures Core(Send(s, throws), limits)
    ensures s.queue[0] !in s.running
  {
    hide Conserved, InOrder, ReportedOnce, WithinLimits, Reported;
    SendConserves(s, throws);
    SendKeepsOrder(s, throws);
    SendReports(s, throws);
    SendStaysWithin(s, limits, throws);
    HeadIsWaiting(s);
  }

  lemma {:induction false} PumpKeeps(s: State, limits: Limits, throws: Ticket -> bool)
    requires Core(s, limits)
    ensures Good(Pump(s, limits, throws), limits)
    decreases |s.queue|
  {
    if CanSend(s, limits) {
      SendKeeps(s, limits, throws);
      PumpKeeps(Send(s, throws), limits, throws);
    } else {
      ResolveKeeps(s, limits);
    }
  }

  lemma ResolveKeeps(s: State, limits: Limits)
    requires Core(s, limits) && !CanSend(s, limits)
    ensures Good(ResolveWhenIdle(s), limits)
  {
    hide Conserved, ReportedOnce, Reported, InOrder;
    var s' := ResolveWhenIdle(s);
    SamePlaces(s, s');
    SameOrder(s, s');
    ReportsKept(s, s', []);
  }

  lemma SameOrder(s: State, s': State)
    requires InOrder(s)
    requires s'.queue == s.queue && s'.running == s.running && s'.settled == s.settled && s'.next == s.next
    requires s'.sent == s.sent && s'.accepted == s.accepted && s'.aborted == s.aborted
    ensures InOrder(s')
  {
  }

  /** Moving no message keeps conservation. */
  lemma SamePlaces(s: State, s': State)
    requires Conserved(s)
    requires s'.queue == s.queue && s'.running == s.running && s'.settled == s.settled && s'.rejected == s.rejected
             && s'.next == s.next
    ensures Conserved(s')
  {
    forall u: Ticket ensures Places(s', u) == if u < s'.next then 1 else 0 {
      OnePlace(s, u);
    }
  }

  lemma TurnAwayConserves(s: State, reason: Reason)
    requires Conserved(s)
    ensures Conserved(TurnAway(s, reason))
  {
    var s' := TurnAway(s, reason);
    forall u: Ticket ensures Places(s', u) == if u < s'.next then 1 else 0 {
      OnePlace(s, u);
    }
  }

  lemma TurnAwayReports(s: State, reason: Reason)
    requires Conserved(s) && ReportedOnce(s) && !reason.DeliveryFailed?
    ensures ReportedOnce(TurnAway(s, reason))
  {
    Unreported(s, s.next);
    hide Conserved, ReportedOnce, Reported;
    var more := [Report(s.next, reason)];
    assert more[0].ticket == s.next;
    ReportsKept(s, TurnAway(s, reason), more);
  }

  /** A full or closed dispatcher turns the message away. */
  lemma TurnAwayKeeps(s: State, limits: Limits, reason: Reason)
    requires Good(s, limits) && !reason.DeliveryFailed?
    ensures Good(TurnAway(s, reason), limits)
  {
    hide Conserved, ReportedOnce, Reported;
    TurnAwayConserves(s, reason);
    TurnAwayReports(s, reason);
  }

  lemma PushConserves(s: State)
    requires Conserved(s)
    ensures Conserved(Push(s))
  {
    var s' := Push(s);
    forall u: Ticket ensures Places(s', u) == if u < s'.next then 1 else 0 {
      OnePlace(s, u);
    }
    forall i | 0 <= i < |s.queue| ensures s.queue[i] < s.next {
      OnePlace(s, s.queue[i]);
    }
  }

  lemma PushKeeps(s: State, limits: Limits)
    requires Good(s, limits) && s.accepting && |s.running| + |s.queue| < limits.capacity
    ensures Core(Push(s), limits)
  {
    hide Conserved, ReportedOnce, Reported, InOrder, Saturated;
    PushConserves(s);
    PushKeepsOrder(s);
    PushKeepsReports(s);
  }

  lemma PushKeepsOrder(s: State)
    requires InOrder(s) && !s.aborted
    ensures InOrder(Push(s))
  {
    var s' := Push(s);
    assert s'.accepted == s'.sent + s'.queue;
  }

  lemma PushKeepsReports(s: State)
    requires ReportedOnce(s)
    ensures ReportedOnce(Push(s))
  {
    hide ReportedOnce, Reported;
    ReportsKept(s, Push(s), []);
  }

  lemma EnqueueKeeps(s: State, limits: Limits, throws: Ticket -> bool)
    requires Good(s, limits)
    ensures Good(Enqueue(s, limits, throws), limits)
  {
    hide Core, Saturated;
    if !s.accepting {
      TurnAwayKeeps(s, limits, Aborted);
    } else if |s.running| + |s.queue| >= limits.capacity {
      TurnAwayKeeps(s, limits, QueueFull);
    } else {
      PushKeeps(s, limits);
      PumpKeeps(Push(s), limits, throws);
    }
  }

  lemma FailKeeps(s: State, t: Ticket, limits: Limits)
    requires Good(s, limits) && t in s.running && !Reported(s, t)
    ensures Good(Fail(s, t), limits)
  {
    hide Conserved, ReportedOnce, Reported;
    var s' := Fail(s, t);
    SamePlaces(s, s');
    ReportsKept(s, s', [Report(t, DeliveryFailed)]);
  }

  lemma FreeConserves(s: State, t: Ticket)
    requires Conserved(s) && t in s.running
    ensures Conserved(Free(s, t))
  {
    var s' := Free(s, t);
    forall u: Ticket ensures Places(s', u) == if u < s'.next then 1 else 0 {
      OnePlace(s, u);
    }
  }

  lemma FreeKeeps(s: State, t: Ticket, limits: Limits)
    requires Good(s, limits) && t in s.running
    ensures Core(Free(s, t), limits) && |Free(s, t).running| == |s.running| - 1
  {
    hide Conserved, ReportedOnce, Reported;
    var s' := Free(s, t);
    FreeConserves(s, t);
    ReportsKept(s, s', []);
  }

  lemma ReleaseKeeps(s: State, t: Ticket, limits: Limits, throws: Ticket -> bool)
    requires Good(s, limits) && t in s.running
    ensures Good(Release(s, t, limits, throws), limits)
  {
    hide Core, Saturated;
    FreeKeeps(s, t, limits);
    PumpKeeps(Free(s, t), limits, throws);
    PumpStops(Free(s, t), limits, throws);
    ResolveKeeps(Pump(Free(s, t), limits, throws), limits);
  }

  lemma {:induction false} PumpStops(s: State, limits: Limits, throws: Ticket -> bool)
    ensures !CanSend(Pump(s, limits, throws), limits)
    decreases |s.queue|
  {
    if CanSend(s, limits) {
      PumpStops(Send(s, throws), limits, throws);
    }
  }

  lemma DropConserves(s: State)
    requires Conserved(s)
    ensures Conserved(Dropped(s))
  {
    var s' := Dropped(s);
    forall u: Ticket ensures Places(s', u) == if u < s'.next then 1 else 0 {
      OnePlace(s, u);
    }
  }

  lemma DropReports(s: State)
    requires Conserved(s) && ReportedOnce(s)
    ensures ReportedOnce(Dropped(s))
  {
    var more := AbortReports(s.queue);
    forall i | 0 <= i < |more| ensures RightReport(Dropped(s), more[i]) && !Reported(s, more[i].ticket) {
      assert more[i].ticket == s.queue[i];
      Unreported(s, s.queue[i]);
    }
    forall t | t in s.queue ensures exists i | 0 <= i < |more| :: more[i].ticket == t {
      var i :| 0 <= i < |s.queue| && s.queue[i] == t;
      assert more[i].ticket == t;
    }
    ReportsKept(s, Dropped(s), more);
  }

  lemma AbortKeeps(s: State, limits: Limits)
    requires Good(s, limits)
    ensures Good(Abort(s), limits)
  {
    DropConserves(s);
    DropReports(s);
    assert Core(Dropped(s), limits) by {
      hide Conserved, ReportedOnce;
    }
    ResolveKeeps(Dropped(s), limits);
  }

  lemma DrainKeeps(s: State, limits: Limits)
    requires Good(s, limits)
    ensures Good(Drain(s), limits)
  {
    SamePlaces(s, Drain(s));
    assert ReportedOnce(Drain(s)) by {
      hide Conserved, InOrder, DrainsKept;
      ReportsKept(s, Drain(s), []);
    }
    DrainAsked(s);
    hide Conserved, ReportedOnce, DrainsKept, Reported;
  }

  lemma DrainAsked(s: State)
    requires DrainsKept(s) && (s.waiting != {} ==> !s.Idle())
    ensures DrainsKept(Drain(s))
  {
    assert s.drains !in s.waiting && s.drains !in s.resolved;
  }

  lemma StepKeeps(s: State, e: Event, limits: Limits, throws: Ticket -> bool)
    requires Good(s, limits) && Enabled(s, e)
    ensures Good(Apply(s, e, limits, throws), limits)
  {
    hide Good;
    match e
    case Arrives => EnqueueKeeps(s, limits, throws);
    case Fails(t) => FailKeeps(s, t, limits);
    case Ends(t) => ReleaseKeeps(s, t, limits, throws);
    case Aborts => AbortKeeps(s, limits);
    case Drains => DrainKeeps(s, limits);
  }

  /** Conservation, the limits, arrival order, single reports and busy slots hold in every state of every run. */
  lemma {:induction false} EveryStateIsGood(states: seq<State>, events: seq<Event>, limits: Limits,
                                            throws: Ticket -> bool, i: nat)
    requires Run(states, events, limits, throws) && states[0] == START && i < |states|
    ensures Good(states[i], limits)
    decreases i
  {
    if i == 0 {
      forall u: Ticket ensures Places(START, u) == 0 {
      }
    } else {
      EveryStateIsGood(states, events, limits, throws, i - 1);
      StepKeeps(states[i - 1], events[i - 1], limits, throws);
    }
  }

  /** From the moment a drain resolves nothing runs and nothing is ever sent again. */
  lemma {:induction false} NothingAfterDrain(
    states: seq<State>, events: seq<Event>, limits: Limits, throws: Ticket -> bool, i: nat, j: nat)
    requires Run(states, events, limits, throws) && states[0] == START
    requires i <= j < |states| && states[i].resolved != {}
    ensures states[j].Idle() && states[j].sent == states[i].sent && states[j].settled == states[i].settled
    ensures states[j].resolved >= states[i].resolved && states[j].waiting == {}
    decreases j
  {
    EveryStateIsGood(states, events, limits, throws, j);
    if i < j {
      NothingAfterDrain(states, events, limits, throws, i, j - 1);
      EveryStateIsGood(states, events, limits, throws, j - 1);
    }
  }

  lemma AbortIsFinal(s: State, e: Event, limits: Limits, throws: Ticket -> bool)
    requires s.aborted && !s.accepting && s.queue == [] && Enabled(s, e)
    ensures var s' := Apply(s, e, limits, throws);
            s'.aborted && !s'.accepting && s'.queue == [] && s'.sent == s.sent && s'.running <= s.running
  {
  }

  /** After an abort nothing more is sent, and what still runs is all that is left. */
  lemma {:induction false} NothingSentAfterAbort(
    states: seq<State>, events: seq<Event>, limits: Limits, throws: Ticket -> bool, i: nat, j: nat)
    requires Run(states, events, limits, throws) && states[0] == START
    requires i <= j < |states| && states[i].aborted
    ensures states[j].aborted && !states[j].accepting && states[j].queue == [] && states[j].sent == states[i].sent
    ensures states[j].running <= states[i].running
    decreases j
  {
    if i == j {
      EveryStateIsGood(states, events, limits, throws, j);
      hide Conserved, ReportedOnce, InOrder;
    } else {
      hide Apply, Enabled;
      NothingSentAfterAbort(states, events, limits, throws, i, j - 1);
      AbortIsFinal(states[j - 1], events[j - 1], limits, throws);
    }
  }

  /** A slot that becomes free goes to the message that has waited longest. */
  lemma FreedSlotGoesToOldest(s: State, t: Ticket, limits: Limits, throws: Ticket -> bool)
    requires Good(s, limits) && t in s.running && !s.aborted && s.queue != []
    ensures s.sent + [s.queue[0]] <= Release(s, t, limits, throws).sent
  {
    FreeKeeps(s, t, limits);
    PumpOnlySends(Send(Free(s, t), throws), limits, throws);
  }

  lemma {:induction false} PumpOnlySends(s: State, limits: Limits, throws: Ticket -> bool)
    ensures s.sent <= Pump(s, limits, throws).sent
    decreases |s.queue|
  {
    if CanSend(s, limits) {
      PumpOnlySends(Send(s, throws), limits, throws);
    }
  }

  lemma {:induction false} PumpRejectsNothing(s: State, limits: Limits, throws: Ticket -> bool)
    ensures Pump(s, limits, throws).rejected == s.rejected && Pump(s, limits, throws).accepted == s.accepted
    decreases |s.queue|
  {
    if CanSend(s, limits) {
      PumpRejectsNothing(Send(s, throws), limits, throws);
    }
  }

  /**
    * A new message is turned away exactly when the dispatcher is closed or full;
    * the report says which, and nothing else changes.
    */
  lemma TurnedAwayExactly(s: State, limits: Limits, throws: Ticket -> bool)
    requires Good(s, limits)
    ensures var after := Enqueue(s, limits, throws);
            && (s.next in after.rejected <==> !s.accepting || |s.running| + |s.queue| >= limits.capacity)
            && (s.next in after.rejected ==>
                  after == s.(next := s.next + 1, rejected := s.rejected + {s.next},
                              reports := s.reports + [Report(s.next, if s.accepting then QueueFull else Aborted)]))
            && (s.next !in after.rejected ==> after.accepted == s.accepted + [s.next])
  {
    OnePlace(s, s.next);
    hide Good, Pump;
    PumpRejectsNothing(Push(s), limits, throws);
  }

  /** An abort reports exactly the queued messages, in their order, and leaves running deliveries alone. */
  lemma AbortDropsQueue(s: State)
    ensures var after := Abort(s);
            && |after.reports| == |s.reports| + |s.queue|
            && (forall i | 0 <= i < |s.reports| :: after.reports[i] == s.reports[i])
            && (forall i | 0 <= i < |s.queue| :: after.reports[|s.reports| + i] == Report(s.queue[i], Aborted))
            && (forall t | t in s.queue :: t in after.rejected)
            && after.running == s.running && after.queue == [] && !after.accepting
  {
  }

  // ----- the dispatcher object

  class Dispatcher {
    const limits: Limits
    const throws: Ticket -> bool
    var queue: seq<Ticket>
    var activeCount: nat
    var aborted: bool
    var accepting: bool
    var drainResolvers: set<nat>
    ghost var history: State

    ghost predicate Valid()
      reads this
    {
      && Good(history, limits)
      && Matches()
    }

    /** The variables are those of the history. */
    ghost predicate Matches()
      reads this
    {
      && queue == history.queue && activeCount == |history.running|
      && aborted == history.aborted && accepting == history.accepting && drainResolvers == history.waiting
    }

    /** Both limits have to be positive. */
    static method Create(capacity: int, concurrency: int, throws: Ticket -> bool) returns (made: Dispatcher?)
      ensures made == null <==> capacity < 1 || concurrency < 1
      ensures made != null ==>
                fresh(made) && made.Valid() && made.history == START && made.limits == Limits(capacity, concurrency)
    {
      if capacity < 1 || concurrency < 1 { return null; }
      made := new Dispatcher(Limits(capacity, concurrency), throws);
    }

    constructor (limits: Limits, throws: Ticket -> bool)
      ensures Valid() && history == START && this.limits == limits && this.throws == throws
    {
      this.limits, this.throws := limits, throws;
      queue, activeCount, aborted, accepting, drainResolvers := [], 0, false, true, {};
      history := START;
      new;
      EveryStateIsGood([START], [], limits, throws, 0);
    }

    method ResolveDrainsWhenIdle()
      requires Matches()
      modifies this
      ensures Matches() && history == ResolveWhenIdle(old(history))
    {
      if activeCount > 0 || |queue| > 0 { return; }
      drainResolvers := {};
      history := ResolveWhenIdle(history);
    }

    method PumpQueue()
      requires Matches() && Core(history, limits)
      modifies this
      ensures Matches() && history == Pump(old(history), limits, throws)
    {
      hide Core, Pump, ResolveWhenIdle;
      while !aborted && activeCount < limits.concurrency && |queue| > 0
        invariant Matches() && Core(history, limits)
        invariant Pump(history, limits, throws) == Pump(old(history), limits, throws)
        decreases |queue|
      {
        var message := queue[0];
        queue := queue[1..];
        activeCount := activeCount + 1;
        SendKeeps(history, limits, throws);
        PumpSends(history, limits, throws);
        if throws(message) {
          activeCount := activeCount - 1;
        }
        history := Send(history, throws);
      }
      PumpRests(history, limits, throws);
      ResolveDrainsWhenIdle();
    }

    /** Queues a message, unless the dispatcher is closed or full. */
    method EnqueueMessage(message: Ticket)
      requires Valid() && message == history.next
      modifies this
      ensures Valid() && history == Enqueue(old(history), limits, throws)
    {
      hide Good, Core, Saturated, Pump;
      EnqueueKeeps(history, limits, throws);
      if !accepting || activeCount + |queue| >= limits.capacity {
        history := Enqueue(history, limits, throws);
        return;
      }
      PushKeeps(history, limits);
      queue := queue + [message];
      history := Push(history);
      PumpQueue();
    }

    /** A delivery is over, whether it failed or not: its slot is free again. */
    method DeliveryEnded(message: Ticket)
      requires Valid() && message in history.running
      modifies this
      ensures Valid() && history == Release(old(history), message, limits, throws)
    {
      hide Good, Core, Saturated, Pump;
      ReleaseKeeps(history, message, limits, throws);
      FreeKeeps(history, message, limits);
      activeCount := activeCount - 1;
      history := Free(history, message);
      PumpQueue();
      ResolveDrainsWhenIdle();
    }

    /** Closes the dispatcher and drops what is queued. */
    method AbortDeliveries()
      requires Valid()
      modifies this
      ensures Valid() && history == Abort(old(history))
    {
      AbortKeeps(history, limits);
      accepting, aborted, queue := false, true, [];
      history := Dropped(history);
      ResolveDrainsWhenIdle();
    }

    /** Closes the dispatcher; done tells that nothing is left to wait for. */
    method DrainDeliveries(waiter: nat) returns (done: bool)
      requires Valid() && waiter == history.drains
      modifies this
      ensures Valid() && history == Drain(old(history))
      ensures done <==> old(history).Idle()
    {
      hide Good, Core, Saturated;
      DrainKeeps(history, limits);
      accepting := false;
      done := activeCount == 0 && |queue| == 0;
      if !done { drainResolvers := drainResolvers + {waiter}; }
      history := Drain(history);
    }
  }
}
