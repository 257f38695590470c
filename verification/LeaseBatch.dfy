/**
  * The erasure batch. It lists requests once and then goes through that list;
  * a request is pending by the rows of the list, and completing the others
  * reads the rows of the moment. A call that rejects counts as failed, whether
  * or not its transaction committed.
  */
module LeaseBatch {
  import opened Common
  import opened Lease

  /** A request as the list query returned it. */
  datatype Listed = Listed(id: Id, deleted: bool, providers: map<Id, CleanupStatus>)

  /** What became of the completing call of an entry. */
  datatype Fate = Answered | Rejected(committed: bool)

  datatype Verdict = Done | Waiting | Broken

  function Settled(db: Queue, entry: Listed, fate: Fate): (Queue, Verdict) {
    if !AllDone(entry.providers) then (db, Waiting)
    else if entry.deleted then (db, Done)
    else
      var (next, deleted) := CompleteErasure(db, entry.id);
      match fate
      case Answered => (next, if deleted then Done else Broken)
      case Rejected(committed) => (if committed then next else db, Broken)
  }

  /** The database after the batch and the verdict on every entry. */
  function Batch(db: Queue, listed: seq<Listed>, fates: seq<Fate>): (r: (Queue, seq<Verdict>))
    requires |fates| == |listed|
    ensures |r.1| == |listed|
    decreases |listed|
  {
    if |listed| == 0 then (db, [])
    else
      var n := |listed| - 1;
      var (before, verdicts) := Batch(db, listed[..n], fates[..n]);
      var (after, verdict) := Settled(before, listed[n], fates[n]);
      (after, verdicts + [verdict])
  }

  /** The ids with one verdict, in list order. */
  function Pick(listed: seq<Listed>, verdicts: seq<Verdict>, verdict: Verdict): seq<Id>
    requires |verdicts| == |listed|
    decreases |listed|
  {
    if |listed| == 0 then []
    else
      var n := |listed| - 1;
      Pick(listed[..n], verdicts[..n], verdict) + if verdicts[n] == verdict then [listed[n].id] else []
  }

  lemma NothingListed(db: Queue)
    ensures Batch(db, [], []) == (db, []) && forall verdict :: Pick([], [], verdict) == []
  {
  }

  lemma BatchNext(db: Queue, listed: seq<Listed>, fates: seq<Fate>, i: nat, verdict: Verdict)
    requires i < |listed| == |fates|
    ensures var (before, verdicts) := Batch(db, listed[..i], fates[..i]);
            var (after, last) := Settled(before, listed[i], fates[i]);
            && Batch(db, listed[..i + 1], fates[..i + 1]) == (after, verdicts + [last])
            && Pick(listed[..i + 1], verdicts + [last], verdict)
            == Pick(listed[..i], verdicts, verdict) + (if last == verdict then [listed[i].id] else [])
  {
    hide Settled;
    assert listed[..i + 1][..i] == listed[..i] && fates[..i + 1][..i] == fates[..i];
    var (before, verdicts) := Batch(db, listed[..i], fates[..i]);
    var (after, last) := Settled(before, listed[i], fates[i]);
    assert (verdicts + [last])[..i] == verdicts;
  }

  /** The three lists hold exactly the listed ids, each entry in the list of its verdict. */
  lemma {:induction false} PickSorts(listed: seq<Listed>, verdicts: seq<Verdict>)
    requires |verdicts| == |listed|
    ensures |Pick(listed, verdicts, Done)| + |Pick(listed, verdicts, Waiting)| + |Pick(listed, verdicts, Broken)|
            == |listed|
    decreases |listed|
  {
    if |listed| == 0 {
    } else {
      PickSorts(listed[..|listed| - 1], verdicts[..|listed| - 1]);
    }
  }

  lemma {:induction false} PickHas(listed: seq<Listed>, verdicts: seq<Verdict>, verdict: Verdict, id: Id)
    requires |verdicts| == |listed|
    ensures id in Pick(listed, verdicts, verdict) <==>
            exists i :: 0 <= i < |listed| && verdicts[i] == verdict && listed[i].id == id
    decreases |listed|
  {
    if |listed| == 0 {
    } else {
      var n := |listed| - 1;
      PickHas(listed[..n], verdicts[..n], verdict, id);
      forall i | 0 <= i < n ensures listed[i] == listed[..n][i] && verdicts[i] == verdicts[..n][i] {}
    }
  }

  /** Completing a request touches the deletion mark of that request only, and no provider status. */
  lemma CompletionTouchesOne(db: Queue, requestId: Id)
    ensures var (next, deleted) := CompleteErasure(db, requestId);
            && next.requests.Keys == db.requests.Keys
            && (forall r | r in db.requests :: next.requests[r].providers == db.requests[r].providers)
            && (forall r | r in db.requests && r != requestId :: next.requests[r].deleted == db.requests[r].deleted)
            && (forall r | r in db.requests && db.requests[r].deleted :: next.requests[r].deleted)
            && (requestId in db.requests && next.requests[requestId].deleted && !db.requests[requestId].deleted ==>
                  AllCompleted(db.requests[requestId]))
            && (deleted <==>
                  requestId in db.requests && next.requests[requestId].deleted && AllCompleted(db.requests[requestId]))
  {
  }

  /** The entry asked for the deletion of the request, and the call that asked was answered or committed. */
  ghost predicate Asked(entry: Listed, fate: Fate, verdict: Verdict, r: Id) {
    && entry.id == r && AllDone(entry.providers) && !entry.deleted
    && (verdict == Done || fate == Rejected(true))
  }

  ghost predicate AskedIn(listed: seq<Listed>, fates: seq<Fate>, verdicts: seq<Verdict>, r: Id)
    requires |fates| == |verdicts| == |listed|
  {
    exists i :: 0 <= i < |listed| && Asked(listed[i], fates[i], verdicts[i], r)
  }

  /** One entry changes at most its own request, and deletes it only when asked. */
  lemma SettledTouchesOne(db: Queue, entry: Listed, fate: Fate)
    ensures var (next, verdict) := Settled(db, entry, fate);
            && (verdict == Waiting <==> !AllDone(entry.providers))
            && next.requests.Keys == db.requests.Keys
            && (forall r | r in db.requests :: next.requests[r].providers == db.requests[r].providers)
            && (forall r | r in db.requests && db.requests[r].deleted :: next.requests[r].deleted)
            && (verdict == Done && !entry.deleted ==>
                  entry.id in next.requests && next.requests[entry.id].deleted && AllCompleted(next.requests[entry.id]))
            && (forall r | r in db.requests && next.requests[r].deleted && !db.requests[r].deleted ::
                  Asked(entry, fate, verdict, r) && AllCompleted(db.requests[r]))
  {
    hide CompleteErasure, AllDone;
    CompletionTouchesOne(db, entry.id);
  }

  lemma {:induction false} BatchFrame(db: Queue, listed: seq<Listed>, fates: seq<Fate>)
    requires |fates| == |listed|
    ensures var after := Batch(db, listed, fates).0;
            && after.requests.Keys == db.requests.Keys
            && (forall r | r in db.requests :: after.requests[r].providers == db.requests[r].providers)
            && (forall r | r in db.requests && db.requests[r].deleted :: after.requests[r].deleted)
    decreases |listed|
  {
    hide Settled;
    if |listed| == 0 {
    } else {
      var n := |listed| - 1;
      BatchFrame(db, listed[..n], fates[..n]);
      SettledTouchesOne(Batch(db, listed[..n], fates[..n]).0, listed[n], fates[n]);
    }
  }

  /**
    * An entry waits exactly when its listed providers are not all done; an
    * entry that is done and was not listed as deleted leaves a deleted request
    * with all providers done; and a request is deleted only when an entry asked.
    */
  lemma {:induction false} BatchVerdicts(db: Queue, listed: seq<Listed>, fates: seq<Fate>)
    requires |fates| == |listed|
    ensures var (after, verdicts) := Batch(db, listed, fates);
            && after.requests.Keys == db.requests.Keys
            && (forall i | 0 <= i < |listed| :: verdicts[i] == Waiting <==> !AllDone(listed[i].providers))
            && (forall i | 0 <= i < |listed| && verdicts[i] == Done && !listed[i].deleted ::
                  listed[i].id in after.requests && after.requests[listed[i].id].deleted
                  && AllCompleted(after.requests[listed[i].id]))
            && (forall r | r in db.requests && after.requests[r].deleted && !db.requests[r].deleted ::
                  AskedIn(listed, fates, verdicts, r) && AllCompleted(db.requests[r]))
    decreases |listed|
  {
    hide Settled, AllDone;
    BatchFrame(db, listed, fates);
    if |listed| == 0 {
    } else {
      var n := |listed| - 1;
      BatchFrame(db, listed[..n], fates[..n]);
      BatchVerdicts(db, listed[..n], fates[..n]);
      var (before, verdicts) := Batch(db, listed[..n], fates[..n]);
      SettledTouchesOne(before, listed[n], fates[n]);
      var (after, all) := Batch(db, listed, fates);
      forall r | r in db.requests && after.requests[r].deleted && !db.requests[r].deleted
        ensures AskedIn(listed, fates, all, r) && AllCompleted(db.requests[r])
      {
        if before.requests[r].deleted {
          AskedMore(listed, fates, all, r);
        } else {
          assert Asked(listed[n], fates[n], all[n], r);
        }
      }
    }
  }

  lemma AskedMore(listed: seq<Listed>, fates: seq<Fate>, verdicts: seq<Verdict>, r: Id)
    requires |fates| == |verdicts| == |listed| > 0
    requires var n := |listed| - 1; AskedIn(listed[..n], fates[..n], verdicts[..n], r)
    ensures AskedIn(listed, fates, verdicts, r)
  {
    var n := |listed| - 1;
    var i :| 0 <= i < n && Asked(listed[..n][i], fates[..n][i], verdicts[..n][i], r);
    assert Asked(listed[i], fates[i], verdicts[i], r);
  }
}
