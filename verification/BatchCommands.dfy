/**
  * Approving and publishing many versions. Each item is a command of its own, so
  * the batch is not atomic. A failure that is not an item's own result ends the
  * batch with an error as long as nothing has succeeded, and becomes a result
  * after that.
  */
module BatchCommands {
  import opened Common
  import opened Dispositions

  /** One command of the batch: what the repository answered, and what the database did. */
  datatype Call =
    | Committed(rowVersion: nat)
    | Failed(told: Told, committed: bool)

  /** What is read before a publication. */
  datatype Target = ReadFails(told: Told) | Missing | Unapproved | ReadyToPublish

  datatype ItemResult = Done(rowVersion: nat) | NotFound | Conflict | WrongState | FailedItem

  datatype Item = Item(versionId: Id, result: ItemResult)

  datatype BatchReply = Answered(count: nat, items: seq<Item>) | Raised(told: Told)

  /** What an item comes to, before the batch decides about failures. */
  datatype Step = Result(result: ItemResult, committed: bool) | Failure(told: Told, committed: bool)

  function ItemCode(code: Code): Option<ItemResult> {
    match code
    case ResourceNotFound => Some(NotFound)
    case VersionConflict => Some(Conflict)
    case InvalidStateTransition => Some(WrongState)
    case _ => None
  }

  function FailedStep(told: Told, committed: bool): Step {
    if ItemCode(told.code).Some? then Result(ItemCode(told.code).value, committed) else Failure(told, committed)
  }

  function ApprovalStep(call: Call): Step {
    match call
    case Committed(v) => Result(Done(v), true)
    case Failed(told, committed) => FailedStep(told, committed)
  }

  function PublicationStep(target: Target, call: Call): Step {
    match target
    case ReadFails(told) => FailedStep(told, false)
    case Missing => Result(NotFound, false)
    case Unapproved => Result(WrongState, false)
    case ReadyToPublish => ApprovalStep(call)
  }

  predicate Succeeds(s: Step) {
    s.Result? && s.result.Done?
  }

  /** The first failure, with no success before it. */
  predicate RaisesAt(steps: seq<Step>, k: nat) {
    k < |steps| && steps[k].Failure? && forall j | 0 <= j < k :: steps[j].Result? && !steps[j].result.Done?
  }

  function Shown(versionId: Id, s: Step): Item {
    Item(versionId, if s.Failure? then FailedItem else s.result)
  }

  function CountDone(items: seq<Item>): (count: nat)
    ensures count <= |items|
  {
    if |items| == 0 then 0
    else CountDone(items[..|items| - 1]) + if items[|items| - 1].result.Done? then 1 else 0
  }

  /** The reply, and how many commands were given. */
  ghost predicate Replies(versionIds: seq<Id>, steps: seq<Step>, reply: BatchReply, made: nat) {
    && |steps| == |versionIds|
    && match reply
       case Raised(told) => made >= 1 && RaisesAt(steps, made - 1) && told == steps[made - 1].told
       case Answered(count, items) =>
         && made == |steps| == |items|
         && (forall k | 0 <= k < |steps| :: !RaisesAt(steps, k))
         && (forall i | 0 <= i < |items| :: items[i] == Shown(versionIds[i], steps[i]))
         && count == CountDone(items)
  }

  method CountItems(items: seq<Item>) returns (count: nat)
    ensures count == CountDone(items)
  {
    count := 0;
    for i := 0 to |items|
      invariant count == CountDone(items[..i])
    {
      assert items[..i + 1][..i] == items[..i];
      if items[i].result.Done? { count := count + 1; }
    }
    assert items[..|items|] == items;
  }

  /** Approves the versions one by one. */
  method ApproveBatch(versionIds: seq<Id>, calls: seq<Call>) returns (reply: BatchReply, made: nat)
    requires |calls| == |versionIds|
    ensures Replies(versionIds, seq(|calls|, i requires 0 <= i < |calls| => ApprovalStep(calls[i])), reply, made)
  {
    ghost var steps := seq(|calls|, i requires 0 <= i < |calls| => ApprovalStep(calls[i]));
    var items: seq<Item> := [];
    made := 0;
    while made < |calls|
      invariant made == |items| <= |calls|
      invariant forall i | 0 <= i < made :: items[i] == Shown(versionIds[i], steps[i])
      invariant forall k | 0 <= k < made :: !RaisesAt(steps, k)
    {
      var step := ApprovalStep(calls[made]);
      var anyApproved := exists i | 0 <= i < |items| :: items[i].result.Done?;
      made := made + 1;
      if step.Failure? && !anyApproved {
        assert QuietBefore(steps, made - 1) by {
          NoRaiseIsQuiet(steps, made - 1);
        }
        return Raised(step.told), made;
      }
      items := items + [Shown(versionIds[made - 1], step)];
    }
    var count := CountItems(items);
    reply := Answered(count, items);
  }

  predicate QuietBefore(steps: seq<Step>, k: nat)
    requires k <= |steps|
  {
    forall j | 0 <= j < k :: steps[j].Result? && !steps[j].result.Done?
  }

  /** Where nothing has succeeded and nothing was raised, nothing failed. */
  lemma {:induction false} NoRaiseIsQuiet(steps: seq<Step>, k: nat)
    requires k <= |steps|
    requires forall i | 0 <= i < k :: !RaisesAt(steps, i) && !Succeeds(steps[i])
    ensures QuietBefore(steps, k)
  {
    if k > 0 {
      NoRaiseIsQuiet(steps, k - 1);
      assert !RaisesAt(steps, k - 1);
    }
  }

  /** Reads and publishes the versions one by one. */
  method PublishBatch(versionIds: seq<Id>, targets: seq<Target>, calls: seq<Call>)
    returns (reply: BatchReply, made: nat)
    requires |targets| == |calls| == |versionIds|
    ensures Replies(versionIds, seq(|calls|, i requires 0 <= i < |calls| => PublicationStep(targets[i], calls[i])),
                    reply, made)
  {
    ghost var steps := seq(|calls|, i requires 0 <= i < |calls| => PublicationStep(targets[i], calls[i]));
    var items: seq<Item> := [];
    made := 0;
    while made < |calls|
      invariant made == |items| <= |calls|
      invariant forall i | 0 <= i < made :: items[i] == Shown(versionIds[i], steps[i])
      invariant forall k | 0 <= k < made :: !RaisesAt(steps, k)
    {
      var step := PublicationStep(targets[made], calls[made]);
      var anyPublished := exists i | 0 <= i < |items| :: items[i].result.Done?;
      made := made + 1;
      if step.Failure? && !anyPublished {
        assert QuietBefore(steps, made - 1) by {
          NoRaiseIsQuiet(steps, made - 1);
        }
        return Raised(step.told), made;
      }
      items := items + [Shown(versionIds[made - 1], step)];
    }
    var count := CountItems(items);
    reply := Answered(count, items);
  }

  // ----- no commit is hidden by an error

  /** What the commands' own soundness gives: a success is a commit, and only an unknown outcome can hide one. */
  predicate Honest(s: Step) {
    match s
    case Result(r, committed) => r.Done? <==> committed
    case Failure(told, committed) => committed ==> told.disposition.CommitUnknown?
  }

  function CallOf(reply: Reply, rowVersion: nat, a: Attempt): Call {
    match reply
    case Returned => Committed(rowVersion)
    case Threw(told) => Failed(told, a.committed)
  }

  /** The steps of commands that answer as the repository does are honest. */
  lemma StepsAreHonest(c: Command, a: Attempt, probe: Probe, seen: PostCheck, rowVersion: nat, target: Target)
    requires Possible(a) && (a.failure.Some? ==> !CompletionUnknown(a.failure.value))
    ensures Honest(ApprovalStep(CallOf(CommandReply(c, a, probe, seen), rowVersion, a)))
    ensures Honest(PublicationStep(target, CallOf(CommandReply(c, a, probe, seen), rowVersion, a)))
  {
    CommandIsSound(c, a, probe, seen);
  }

  /** A possible attempt with this failure after which the step of an approval is not honest. */
  ghost predicate CanMisreport(c: Command, f: Failure, probe: Probe, seen: PostCheck, rowVersion: nat) {
    exists a | Possible(a) && a.failure == Some(f) ::
      !Honest(ApprovalStep(CallOf(CommandReply(c, a, probe, seen), rowVersion, a)))
  }

  /** The same for a publication, which calls nothing unless its target is ready. */
  ghost predicate CanMisreportPublication(c: Command, f: Failure, probe: Probe, seen: PostCheck, rowVersion: nat,
                                          target: Target)
  {
    exists a | Possible(a) && a.failure == Some(f) ::
      !Honest(PublicationStep(target, CallOf(CommandReply(c, a, probe, seen), rowVersion, a)))
  }

  lemma RollbackMisreports(reply: Reply, rowVersion: nat, a: Attempt)
    requires StatesRollback(reply) && a.committed
    ensures !Honest(ApprovalStep(CallOf(reply, rowVersion, a)))
  {
  }

  lemma ApprovalMisreports(c: Command, f: Failure, probe: Probe, seen: PostCheck, rowVersion: nat)
    ensures CanMisreport(c, f, probe, seen, rowVersion) <==> CompletionUnknown(f)
  {
    hide Possible, CommandReply, CompletionUnknown, StatesRollback, Honest, ApprovalStep, PublicationStep, CallOf;
    if CompletionUnknown(f) {
      var a := Attempt(true, Some(f), true);
      UnknownMisleads(c, f, probe, seen);
      RollbackMisreports(CommandReply(c, a, probe, seen), rowVersion, a);
      assert CanMisreport(c, f, probe, seen, rowVersion);
    } else if CanMisreport(c, f, probe, seen, rowVersion) {
      var a :| Possible(a) && a.failure == Some(f)
               && !Honest(ApprovalStep(CallOf(CommandReply(c, a, probe, seen), rowVersion, a)));
      StepsAreHonest(c, a, probe, seen, rowVersion, ReadyToPublish);
    }
  }

  /** What the call came to shows in a publication exactly as in an approval, once its target is ready. */
  lemma PublicationIsApproval(target: Target, call: Call)
    ensures if target.ReadyToPublish? then PublicationStep(target, call) == ApprovalStep(call)
            else Honest(PublicationStep(target, call))
  {
  }

  lemma PublicationMisreports(c: Command, f: Failure, probe: Probe, seen: PostCheck, rowVersion: nat, target: Target)
    requires CanMisreportPublication(c, f, probe, seen, rowVersion, target)
    ensures target.ReadyToPublish? && CanMisreport(c, f, probe, seen, rowVersion)
  {
    hide Possible, CommandReply, Honest, ApprovalStep, PublicationStep, CallOf;
    var a :| Possible(a) && a.failure == Some(f)
             && !Honest(PublicationStep(target, CallOf(CommandReply(c, a, probe, seen), rowVersion, a)));
    PublicationIsApproval(target, CallOf(CommandReply(c, a, probe, seen), rowVersion, a));
  }

  lemma ReadyMisreports(c: Command, f: Failure, probe: Probe, seen: PostCheck, rowVersion: nat)
    requires CanMisreport(c, f, probe, seen, rowVersion)
    ensures CanMisreportPublication(c, f, probe, seen, rowVersion, ReadyToPublish)
  {
    hide Possible, CommandReply, Honest, ApprovalStep, PublicationStep, CallOf;
    var a :| Possible(a) && a.failure == Some(f)
             && !Honest(ApprovalStep(CallOf(CommandReply(c, a, probe, seen), rowVersion, a)));
    PublicationIsApproval(ReadyToPublish, CallOf(CommandReply(c, a, probe, seen), rowVersion, a));
  }

  /** A commit that is told as a rollback, and nothing else, makes a step dishonest. */
  lemma MisreportsExactly(c: Command, f: Failure, probe: Probe, seen: PostCheck, rowVersion: nat, target: Target)
    ensures CanMisreport(c, f, probe, seen, rowVersion) <==> CompletionUnknown(f)
    ensures CanMisreportPublication(c, f, probe, seen, rowVersion, target) <==>
              target.ReadyToPublish? && CompletionUnknown(f)
  {
    hide CanMisreport, CanMisreportPublication, CompletionUnknown;
    ApprovalMisreports(c, f, probe, seen, rowVersion);
    if target.ReadyToPublish? && CompletionUnknown(f) {
      ReadyMisreports(c, f, probe, seen, rowVersion);
    }
    if CanMisreportPublication(c, f, probe, seen, rowVersion, target) {
      PublicationMisreports(c, f, probe, seen, rowVersion, target);
    }
  }

  function CountCommitted(steps: seq<Step>): nat {
    if |steps| == 0 then 0
    else CountCommitted(steps[..|steps| - 1]) + if steps[|steps| - 1].committed then 1 else 0
  }

  /** Commits that an answer shows as failures. */
  function CountHidden(steps: seq<Step>): nat {
    if |steps| == 0 then 0
    else
      CountHidden(steps[..|steps| - 1])
      + if steps[|steps| - 1].Failure? && steps[|steps| - 1].committed then 1 else 0
  }

  lemma {:induction false} CountsAgree(versionIds: seq<Id>, steps: seq<Step>, items: seq<Item>)
    requires |items| == |steps| == |versionIds|
    requires forall i | 0 <= i < |steps| :: Honest(steps[i]) && items[i] == Shown(versionIds[i], steps[i])
    ensures CountDone(items) + CountHidden(steps) == CountCommitted(steps)
    decreases |steps|
  {
    if |steps| > 0 {
      var n := |steps| - 1;
      CountsAgree(versionIds[..n], steps[..n], items[..n]);
    }
  }

  /**
    * A batch that raises anything but an unknown outcome committed nothing; one
    * that answers shows every item in request order, never shows a commit as
    * not found, in conflict or in the wrong state, and counts its commits up to
    * those whose outcome the repository did not know.
    */
  lemma BatchHidesNoCommit(versionIds: seq<Id>, steps: seq<Step>, reply: BatchReply, made: nat)
    requires Replies(versionIds, steps, reply, made)
    requires forall i | 0 <= i < |steps| :: Honest(steps[i])
    ensures made <= |steps|
    ensures reply.Raised? && !reply.told.disposition.CommitUnknown? ==> CountCommitted(steps[..made]) == 0
    ensures reply.Raised? ==> CountCommitted(steps[..made]) <= 1
    ensures reply.Answered? ==>
              && |reply.items| == |versionIds|
              && (forall i | 0 <= i < |reply.items| ::
                   && reply.items[i].versionId == versionIds[i]
                   && (reply.items[i].result.Done? ==> steps[i].committed)
                   && (steps[i].committed ==> reply.items[i].result.Done? || reply.items[i].result.FailedItem?))
              && reply.count + CountHidden(steps) == CountCommitted(steps)
  {
    match reply
    case Raised(told) =>
      NoCommitBefore(steps, made - 1);
      assert steps[..made][..made - 1] == steps[..made - 1];
    case Answered(count, items) =>
      CountsAgree(versionIds, steps, items);
  }

  lemma {:induction false} NoCommitBefore(steps: seq<Step>, k: nat)
    requires k <= |steps| && QuietBefore(steps, k)
    requires forall i | 0 <= i < |steps| :: Honest(steps[i])
    ensures CountCommitted(steps[..k]) == 0
  {
    if k > 0 {
      NoCommitBefore(steps, k - 1);
      assert steps[..k][..k - 1] == steps[..k - 1];
    }
  }

  /** Commits are hidden exactly where a failed item committed. */
  lemma {:induction false} HiddenSomewhere(steps: seq<Step>)
    ensures CountHidden(steps) > 0 <==> exists i | 0 <= i < |steps| :: steps[i].Failure? && steps[i].committed
    decreases |steps|
  {
    if |steps| > 0 {
      var n := |steps| - 1;
      HiddenSomewhere(steps[..n]);
      assert forall i | 0 <= i < n :: steps[..n][i] == steps[i];
    }
  }

  // ----- when the count can be low

  /** What the batch is told about an item; whether the command committed is not part of it. */
  datatype Answer = Shows(result: ItemResult) | Tells(told: Told)

  function AnswerOf(s: Step): Answer {
    match s
    case Result(r, _) => Shows(r)
    case Failure(told, _) => Tells(told)
  }

  /** A step with this answer that commits whenever an honest one can. */
  function Committing(a: Answer): Step {
    match a
    case Shows(r) => Result(r, r.Done?)
    case Tells(told) => Failure(told, told.disposition.CommitUnknown?)
  }

  function CommittingSteps(answers: seq<Answer>): (steps: seq<Step>)
    ensures |steps| == |answers|
  {
    seq(|answers|, i requires 0 <= i < |answers| => Committing(answers[i]))
  }

  /** The batch answers: no failure comes before the first success. */
  ghost predicate Answering(answers: seq<Answer>) {
    forall k | 0 <= k < |answers| :: !RaisesAt(CommittingSteps(answers), k)
  }

  /** Some item after a success was told that its outcome is unknown. */
  ghost predicate UnknownAfterSuccess(answers: seq<Answer>) {
    exists j, i | 0 <= j < i < |answers| ::
      answers[j].Shows? && answers[j].result.Done? && answers[i].Tells? && answers[i].told.disposition.CommitUnknown?
  }

  ghost predicate HonestRun(steps: seq<Step>, answers: seq<Answer>) {
    && |steps| == |answers|
    && forall i | 0 <= i < |steps| :: Honest(steps[i]) && AnswerOf(steps[i]) == answers[i]
  }

  /** Honest commands with these answers for which the batch counts fewer than it committed. */
  ghost predicate CanCountLow(versionIds: seq<Id>, answers: seq<Answer>) {
    exists steps, reply, made ::
      HonestRun(steps, answers) && Replies(versionIds, steps, reply, made) && reply.Answered?
      && reply.count < CountCommitted(steps)
  }

  /** Raising depends on the answers alone. */
  lemma RaisesByAnswers(steps: seq<Step>, other: seq<Step>, k: nat)
    requires |steps| == |other| && forall i | 0 <= i < |steps| :: AnswerOf(steps[i]) == AnswerOf(other[i])
    ensures RaisesAt(steps, k) <==> RaisesAt(other, k)
  {
    assert forall i | 0 <= i < |steps| :: AnswerOf(steps[i]) == AnswerOf(other[i]);
  }

  lemma LowNeedsUnknown(versionIds: seq<Id>, answers: seq<Answer>, steps: seq<Step>, reply: BatchReply, made: nat)
    requires HonestRun(steps, answers) && Replies(versionIds, steps, reply, made)
    requires reply.Answered? && reply.count < CountCommitted(steps)
    ensures Answering(answers) && UnknownAfterSuccess(answers)
  {
    BatchHidesNoCommit(versionIds, steps, reply, made);
    HiddenSomewhere(steps);
    var i :| 0 <= i < |steps| && steps[i].Failure? && steps[i].committed;
    assert Honest(steps[i]) && AnswerOf(steps[i]) == answers[i];
    assert !RaisesAt(steps, i);
    if forall j | 0 <= j < i :: !Succeeds(steps[j]) {
      NoRaiseIsQuiet(steps, i);
    } else {
      var j :| 0 <= j < i && Succeeds(steps[j]);
      assert AnswerOf(steps[j]) == answers[j];
    }
    forall k | 0 <= k < |answers| ensures !RaisesAt(CommittingSteps(answers), k) {
      RaisesByAnswers(steps, CommittingSteps(answers), k);
    }
  }

  lemma UnknownMakesLow(versionIds: seq<Id>, answers: seq<Answer>)
    requires |versionIds| == |answers| && Answering(answers) && UnknownAfterSuccess(answers)
    ensures CanCountLow(versionIds, answers)
  {
    var steps := CommittingSteps(answers);
    var items := seq(|steps|, i requires 0 <= i < |steps| => Shown(versionIds[i], steps[i]));
    var reply := Answered(CountDone(items), items);
    assert HonestRun(steps, answers) && Replies(versionIds, steps, reply, |steps|);
    BatchHidesNoCommit(versionIds, steps, reply, |steps|);
    HiddenSomewhere(steps);
    var j, i :| 0 <= j < i < |answers| && answers[j].Shows? && answers[j].result.Done?
                && answers[i].Tells? && answers[i].told.disposition.CommitUnknown?;
    assert steps[i].Failure? && steps[i].committed;
  }

  /**
    * From what the batch was told: its count can be below the number of commits
    * exactly when it answers and some item after a success had an unknown outcome.
    */
  lemma CountsLowExactly(versionIds: seq<Id>, answers: seq<Answer>)
    requires |versionIds| == |answers|
    ensures CanCountLow(versionIds, answers) <==> Answering(answers) && UnknownAfterSuccess(answers)
  {
    if CanCountLow(versionIds, answers) {
      var steps, reply, made :|
        HonestRun(steps, answers) && Replies(versionIds, steps, reply, made) && reply.Answered?
        && reply.count < CountCommitted(steps);
      LowNeedsUnknown(versionIds, answers, steps, reply, made);
    }
    if Answering(answers) && UnknownAfterSuccess(answers) {
      UnknownMakesLow(versionIds, answers);
    }
  }

  /** An approval that answers, and one whose commit answer was lost although it committed. */
  function LostCommit(c: Command, probe: Probe, seen: PostCheck, rowVersion: nat): seq<Step> {
    var done, lost := Attempt(true, None, true), Attempt(true, Some(Other), true);
    [ApprovalStep(CallOf(CommandReply(c, done, probe, seen), rowVersion, done)),
     ApprovalStep(CallOf(CommandReply(c, lost, probe, seen), rowVersion, lost))]
  }

  /** After a first success a commit whose answer is lost is shown as failed and not counted. */
  lemma CountCanBeLow(c: Command, probe: Probe, seen: PostCheck, first: Id, second: Id, rowVersion: nat)
    ensures Possible(Attempt(true, None, true)) && Possible(Attempt(true, Some(Other), true))
    ensures Replies([first, second], LostCommit(c, probe, seen, rowVersion),
                    Answered(1, [Item(first, Done(rowVersion)), Item(second, FailedItem)]), 2)
    ensures CountCommitted(LostCommit(c, probe, seen, rowVersion)) == 2
  {
    var steps := LostCommit(c, probe, seen, rowVersion);
    assert steps == [Result(Done(rowVersion), true), Failure(Told(ServiceUnavailable, CommitUnknown), true)];
    var items := [Item(first, Done(rowVersion)), Item(second, FailedItem)];
    assert items[..1] == [items[0]] && steps[..1] == [steps[0]];
    assert CountDone([items[0]]) == 1 && CountCommitted([steps[0]]) == 1;
    assert !RaisesAt(steps, 1) by { assert steps[0].result.Done?; }
  }
}
