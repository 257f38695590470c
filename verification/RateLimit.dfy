/**
  * The fixed window limiter. A key's window starts with its first call and ends
  * one window length later; every call is counted, and a call is admitted while
  * the count is within the limit.
  */
module RateLimit {
  import opened Common

  datatype Window = Window(start: Time, count: nat)

  datatype Policy = Policy(limit: nat, length: nat)

  /** The window after one more call. */
  function Hit(w: Option<Window>, now: Time, length: nat): Window {
    if w.None? || now >= w.value.start + length then Window(now, 1)
    else Window(w.value.start, w.value.count + 1)
  }

  function Lookup(windows: map<Id, Window>, key: Id): Option<Window> {
    if key in windows then Some(windows[key]) else None
  }

  /** Counts every key once. */
  function Consume(windows: map<Id, Window>, keys: set<Id>, now: Time, length: nat): map<Id, Window> {
    map k | k in windows.Keys + keys ::
      if k in keys then Hit(Lookup(windows, k), now, length) else windows[k]
  }

  /** The last call of the window is one too many. */
  predicate OverLimit(w: Window, limit: nat) {
    w.count > limit
  }

  predicate Exceeded(windows: map<Id, Window>, key: Id, limit: nat) {
    key in windows && OverLimit(windows[key], limit)
  }

  datatype Answer = Admitted | Limited(retryAfterSeconds: nat) | Invalid

  /** Whole seconds, rounded up. */
  function CeilSeconds(milliseconds: int): int {
    if milliseconds <= 0 then -((-milliseconds) / 1000) else (milliseconds + 999) / 1000
  }

  /** The least number of seconds that is not less than the given time. */
  lemma CeilIsLeast(milliseconds: int)
    ensures 1000 * CeilSeconds(milliseconds) >= milliseconds
    ensures 1000 * (CeilSeconds(milliseconds) - 1) < milliseconds
  {
  }

  /** After r seconds every exceeded window has ended. */
  ghost predicate EndsAll(windows: map<Id, Window>, keys: set<Id>, policy: Policy, now: Time, r: int) {
    forall k | k in keys && Exceeded(windows, k, policy.limit) :: windows[k].start + policy.length <= now + 1000 * r
  }

  class Store {
    var windows: map<Id, Window>

    /**
      * Counts every key, and answers with the least whole number of seconds, at
      * least one, after which every exceeded window has ended.
      */
    method ConsumeKeys(keys: set<Id>, policy: Policy, now: Time) returns (answer: Answer)
      modifies this
      ensures windows == Consume(old(windows), keys, now, policy.length)
      ensures answer.Invalid? <==> exists k | k in keys :: windows[k].start < 0 || now < windows[k].start
      ensures answer.Admitted? <==> !answer.Invalid? && forall k | k in keys :: !Exceeded(windows, k, policy.limit)
      ensures answer.Limited? ==>
                && answer.retryAfterSeconds >= 1
                && EndsAll(windows, keys, policy, now, answer.retryAfterSeconds)
                && forall r: int | 1 <= r < answer.retryAfterSeconds :: !EndsAll(windows, keys, policy, now, r)
    {
      var before := windows;
      var left := keys;
      while left != {}
        invariant left <= keys
        invariant windows == Consume(before, keys - left, now, policy.length)
      {
        var k :| k in left;
        assert Lookup(windows, k) == Lookup(before, k);
        windows := windows[k := Hit(Lookup(windows, k), now, policy.length)];
        assert keys - (left - {k}) == (keys - left) + {k};
        left := left - {k};
      }
      assert keys - left == keys;
      if exists k | k in keys :: windows[k].start < 0 || now < windows[k].start { return Invalid; }
      var retry := 0;
      var seen: set<Id> := {};
      left := keys;
      while left != {}
        invariant left <= keys && seen == keys - left
        invariant windows == Consume(before, keys, now, policy.length)
        invariant retry >= 0
        invariant retry == 0 <==> forall k | k in seen :: !Exceeded(windows, k, policy.limit)
        invariant forall k | k in seen && Exceeded(windows, k, policy.limit) ::
                    windows[k].start + policy.length <= now + 1000 * retry
        invariant retry > 1 ==> exists k | k in seen && Exceeded(windows, k, policy.limit) ::
                                  windows[k].start + policy.length > now + 1000 * (retry - 1)
      {
        var k :| k in left;
        if Exceeded(windows, k, policy.limit) {
          var remaining := windows[k].start + policy.length - now;
          CeilIsLeast(remaining);
          var seconds := if CeilSeconds(remaining) > 1 then CeilSeconds(remaining) else 1;
          if seconds > retry { retry := seconds; }
        }
        seen := seen + {k};
        left := left - {k};
      }
      assert seen == keys;
      if retry == 0 { return Admitted; }
      answer := Limited(retry);
      if retry > 1 {
        var k :| k in keys && Exceeded(windows, k, policy.limit)
                 && windows[k].start + policy.length > now + 1000 * (retry - 1);
        forall r: int | 1 <= r < retry ensures !EndsAll(windows, keys, policy, now, r) {
          assert windows[k].start + policy.length > now + 1000 * r;
        }
      }
    }
  }

  // ----- the calls of one key

  predicate Nondecreasing(times: seq<Time>) {
    forall i, j | 0 <= i <= j < |times| :: times[i] <= times[j]
  }

  /** The window after the i-th call of a key. */
  function WindowAt(times: seq<Time>, i: nat, length: nat): Window
    requires i < |times|
  {
    Hit(if i == 0 then None else Some(WindowAt(times, i - 1, length)), times[i], length)
  }

  /** Windows start with a call and never before the clock; a later window starts one length later or is the same. */
  lemma {:induction false} WindowFacts(times: seq<Time>, i: nat, j: nat, length: nat)
    requires Nondecreasing(times) && i <= j < |times| && length > 0
    ensures var a, b := WindowAt(times, i, length), WindowAt(times, j, length);
            && a.start <= times[i] < a.start + length && a.count >= 1
            && (a.count == 1 <==> a.start == times[i] && (i == 0 || WindowAt(times, i - 1, length).start != a.start))
            && (if a.start == b.start then b.count == a.count + (j - i)
                else b.start >= a.start + length && b.start >= times[i])
    decreases j, i
  {
    if i > 0 {
      WindowFacts(times, i - 1, i - 1, length);
    }
    if i < j {
      WindowFacts(times, i, j - 1, length);
      WindowFacts(times, j - 1, j - 1, length);
    }
  }

  function AdmittedIn(times: seq<Time>, from: Time, policy: Policy): set<nat> {
    set i: nat | i < |times| && from <= times[i] < from + policy.length
            && !OverLimit(WindowAt(times, i, policy.length), policy.limit)
  }

  /** Numbers that are pairwise different and lie in a range are no more than the range. */
  lemma {:induction false} Bounded(indices: set<nat>, f: nat -> int, low: int, high: int)
    requires forall i | i in indices :: low <= f(i) <= high
    requires forall i, j | i in indices && j in indices && i != j :: f(i) != f(j)
    requires low <= high + 1
    ensures |indices| <= high - low + 1
    decreases high - low
  {
    if low == high + 1 {
      assert indices == {};
    } else if i :| i in indices && f(i) == high {
      Bounded(indices - {i}, f, low, high - 1);
    } else {
      Bounded(indices, f, low, high - 1);
    }
  }

  function CountOf(times: seq<Time>, i: nat, length: nat): int {
    if i < |times| then WindowAt(times, i, length).count else 0
  }

  /** Calls of one window have different counts. */
  lemma OneWindow(times: seq<Time>, indices: set<nat>, length: nat, low: int, high: int)
    requires Nondecreasing(times) && length > 0 && low <= high + 1
    requires forall i | i in indices :: i < |times| && low <= WindowAt(times, i, length).count <= high
    requires forall i, j | i in indices && j in indices ::
               WindowAt(times, i, length).start == WindowAt(times, j, length).start
    ensures |indices| <= high - low + 1
  {
    var f: nat -> int := (i: nat) => CountOf(times, i, length);
    forall i, j | i in indices && j in indices && i != j ensures f(i) != f(j) {
      if i < j {
        WindowFacts(times, i, j, length);
      } else {
        WindowFacts(times, j, i, length);
      }
    }
    Bounded(indices, f, low, high);
  }

  /**
    * In any half-open interval of one window length a key has at most
    * 2 * limit - 1 admitted calls: the window that began before the interval
    * spent its first call there.
    */
  lemma AtMostTwiceLessOne(times: seq<Time>, from: Time, policy: Policy)
    requires Nondecreasing(times) && policy.length > 0 && policy.limit >= 1
    ensures |AdmittedIn(times, from, policy)| <= 2 * policy.limit - 1
  {
    var all := AdmittedIn(times, from, policy);
    var earlier := set i | i in all && WindowAt(times, i, policy.length).start < from;
    var later := set i | i in all && WindowAt(times, i, policy.length).start >= from;
    forall i, j | i in earlier && j in earlier
      ensures WindowAt(times, i, policy.length).start == WindowAt(times, j, policy.length).start
    {
      if i <= j { WindowFacts(times, i, j, policy.length); } else { WindowFacts(times, j, i, policy.length); }
    }
    forall i, j | i in later && j in later
      ensures WindowAt(times, i, policy.length).start == WindowAt(times, j, policy.length).start
    {
      if i <= j {
        WindowFacts(times, i, j, policy.length);
        WindowFacts(times, j, j, policy.length);
      } else {
        WindowFacts(times, j, i, policy.length);
        WindowFacts(times, i, i, policy.length);
      }
    }
    forall i | i in all ensures WindowAt(times, i, policy.length).count >= 1
      ensures i in earlier ==> WindowAt(times, i, policy.length).count >= 2
    {
      WindowFacts(times, i, i, policy.length);
    }
    OneWindow(times, earlier, policy.length, 2, policy.limit);
    OneWindow(times, later, policy.length, 1, policy.limit);
    assert all == earlier + later;
  }

  /** One call, then a burst just before the window ends and another just after. */
  function Bursts(policy: Policy): (times: seq<Time>)
    requires policy.limit >= 1 && policy.length >= 2
    ensures |times| == 2 * policy.limit
  {
    seq(2 * policy.limit, (i: nat) =>
      if i == 0 then 0 else if i < policy.limit then policy.length - 1 else policy.length)
  }

  lemma {:induction false} BurstWindows(policy: Policy, i: nat)
    requires policy.limit >= 1 && policy.length >= 2 && i < 2 * policy.limit
    ensures WindowAt(Bursts(policy), i, policy.length)
         == if i < policy.limit then Window(0, i + 1) else Window(policy.length, i - policy.limit + 1)
    decreases i
  {
    if i > 0 {
      BurstWindows(policy, i - 1);
    }
  }

  /** The numbers from low, below high. */
  function Range(low: nat, high: nat): (numbers: set<nat>)
    requires low <= high
    ensures forall i: nat :: i in numbers <==> low <= i < high
    ensures |numbers| == high - low
    decreases high
  {
    if low == high then {} else Range(low, high - 1) + {high - 1}
  }

  /** The bound is met, for every limit and every length of two or more. */
  lemma BoundIsTight(policy: Policy)
    requires policy.limit >= 1 && policy.length >= 2
    ensures Nondecreasing(Bursts(policy))
    ensures |AdmittedIn(Bursts(policy), policy.length - 1, policy)| == 2 * policy.limit - 1
  {
    var times := Bursts(policy);
    var all := AdmittedIn(times, policy.length - 1, policy);
    forall i: nat | i < |times| ensures i in all <==> 1 <= i {
      BurstWindows(policy, i);
    }
    assert all == Range(1, 2 * policy.limit);
  }

  // ----- all calls of the store

  datatype Call = Call(keys: set<Id>, now: Time)

  function RunCalls(calls: seq<Call>, length: nat): map<Id, Window> {
    if |calls| == 0 then map[]
    else Consume(RunCalls(calls[..|calls| - 1], length), calls[|calls| - 1].keys, calls[|calls| - 1].now, length)
  }

  /** The times of the calls that name the key. */
  function TimesOf(calls: seq<Call>, key: Id): seq<Time> {
    if |calls| == 0 then []
    else
      var before := TimesOf(calls[..|calls| - 1], key);
      if key in calls[|calls| - 1].keys then before + [calls[|calls| - 1].now] else before
  }

  lemma {:induction false} WindowPrefix(times: seq<Time>, more: Time, i: nat, length: nat)
    requires i < |times|
    ensures WindowAt(times + [more], i, length) == WindowAt(times, i, length)
    decreases i
  {
    if i > 0 {
      WindowPrefix(times, more, i - 1, length);
    }
  }

  /** The stored window of a key is the window of its own calls, whatever other keys were counted with it. */
  lemma {:induction false} StoreFollowsCalls(calls: seq<Call>, key: Id, length: nat)
    ensures var times := TimesOf(calls, key);
            Lookup(RunCalls(calls, length), key) == if |times| == 0 then None
                                                    else Some(WindowAt(times, |times| - 1, length))
    decreases |calls|
  {
    if |calls| > 0 {
      var n := |calls| - 1;
      StoreFollowsCalls(calls[..n], key, length);
      var before := TimesOf(calls[..n], key);
      if key in calls[n].keys && |before| > 0 {
        WindowPrefix(before, calls[n].now, |before| - 1, length);
      }
    }
  }
}
