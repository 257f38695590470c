/**
  * An export whose commit outcome is unknown is looked up in the audit log: the
  * answer is given only when exactly the audit row of this export is there.
  */
module ExportOutcome {
  import opened Common
  import opened Dispositions

  datatype AuditRow = AuditRow(
    operationId: Id,
    isExport: bool,
    onExportRequest: bool,
    targetId: Id,
    actorId: Id,
    requestId: Id,
    environment: string,
    changedFields: seq<string>,
    metadata: string,
    contentDigest: string,
    occurredAt: Time)

  const SELECTION := ["EXPORT_SELECTION"]

  /** The row an export writes for its own operation. */
  predicate IsExportRow(r: AuditRow) {
    r.isExport && r.onExportRequest && r.targetId == r.operationId && r.changedFields == SELECTION
  }

  /** The export rows of an operation, in log order. */
  function RowsOf(log: seq<AuditRow>, operation: Id): seq<AuditRow> {
    if |log| == 0 then []
    else
      var rest := RowsOf(log[1..], operation);
      if log[0].operationId == operation && log[0].isExport && log[0].onExportRequest then [log[0]] + rest else rest
  }

  predicate Reconciled(log: seq<AuditRow>, expected: AuditRow) {
    var rows := RowsOf(log, expected.operationId);
    && |rows| == 1
    && rows[0].targetId == expected.operationId
    && rows[0].actorId == expected.actorId
    && rows[0].requestId == expected.requestId
    && rows[0].environment == expected.environment
    && rows[0].contentDigest == expected.contentDigest
    && rows[0].occurredAt == expected.occurredAt
    && rows[0].changedFields == SELECTION
    && rows[0].metadata == expected.metadata
  }

  /** The answer of an export; the look-up may fail. */
  function ExportReply(a: Attempt, probe: Probe, lookup: Option<seq<AuditRow>>, expected: AuditRow): Reply {
    match a.failure
    case None => Returned
    case Some(f) =>
      var authority := ClassifyAuthority(f, true, probe);
      var mapped := MapWorkflow(Export, f);
      if authority.Some? then Threw(authority.value)
      else if !a.completed && mapped.disposition.CommitUnknown? then Threw(Definite(ServiceUnavailable))
      else if a.completed && mapped.disposition.CommitUnknown? && lookup.Some? && Reconciled(lookup.value, expected)
        then Returned
      else Threw(mapped)
  }

  predicate Elsewhere(log: seq<AuditRow>, operation: Id) {
    forall i | 0 <= i < |log| :: log[i].operationId != operation
  }

  /**
    * The log at the look-up: rows of other operations, since the operation's
    * number is new, and the export's own row once its commit is visible.
    */
  ghost predicate LogShows(log: seq<AuditRow>, expected: AuditRow, visible: bool) {
    exists before, after ::
      && Elsewhere(before, expected.operationId) && Elsewhere(after, expected.operationId)
      && log == before + (if visible then [expected] else []) + after
  }

  lemma {:induction false} RowsElsewhere(log: seq<AuditRow>, operation: Id)
    requires Elsewhere(log, operation)
    ensures RowsOf(log, operation) == []
    decreases |log|
  {
    if |log| > 0 {
      RowsElsewhere(log[1..], operation);
    }
  }

  lemma {:induction false} RowsAfter(before: seq<AuditRow>, log: seq<AuditRow>, operation: Id)
    requires Elsewhere(before, operation)
    ensures RowsOf(before + log, operation) == RowsOf(log, operation)
    decreases |before|
  {
    if |before| == 0 {
      assert before + log == log;
    } else {
      assert (before + log)[1..] == before[1..] + log;
      RowsAfter(before[1..], log, operation);
    }
  }

  /** The look-up finds the export exactly when its commit is visible. */
  lemma ReconcileFindsCommit(log: seq<AuditRow>, expected: AuditRow, visible: bool)
    requires IsExportRow(expected) && LogShows(log, expected, visible)
    ensures Reconciled(log, expected) <==> visible
  {
    var before, after :| Elsewhere(before, expected.operationId) && Elsewhere(after, expected.operationId)
                         && log == before + (if visible then [expected] else []) + after;
    var rest := (if visible then [expected] else []) + after;
    assert log == before + rest;
    RowsAfter(before, rest, expected.operationId);
    RowsElsewhere(after, expected.operationId);
    if visible {
      assert rest[0] == expected && rest[1..] == after;
      assert RowsOf(rest, expected.operationId) == [expected];
    } else {
      assert rest == after;
    }
  }

  /**
    * An export that answers has committed, a stated rollback is one, and an
    * unknown outcome stays only when the look-up failed or found no row. When
    * the look-up succeeds after the outcome is settled, answering and having
    * committed are the same.
    */
  lemma ExportIsSound(a: Attempt, probe: Probe, lookup: Option<seq<AuditRow>>, expected: AuditRow, visible: bool)
    requires Possible(a) && (a.failure.Some? ==> !WorkflowCompletionUnknown(a.failure.value))
    requires IsExportRow(expected) && (visible ==> a.committed)
    requires lookup.Some? ==> LogShows(lookup.value, expected, visible)
    ensures Sound(a, ExportReply(a, probe, lookup, expected))
    ensures lookup.Some? && (a.committed ==> visible) ==>
              (ExportReply(a, probe, lookup, expected).Returned? <==> a.committed)
  {
    if lookup.Some? {
      ReconcileFindsCommit(lookup.value, expected, visible);
    }
    if a.failure.Some? {
      var f := a.failure.value;
      if ClassifyAuthority(f, true, probe).Some? {
        AuthorityIsRolledBack(a, f, true, probe);
      } else {
        MapWorkflowIsSound(Export, a, f);
      }
    }
  }

  /** A possible export with this failure that committed although a rollback is stated. */
  ghost predicate CanMisleadExport(f: Failure, probe: Probe, lookup: Option<seq<AuditRow>>, expected: AuditRow) {
    exists a | Possible(a) && a.failure == Some(f) && a.committed ::
      StatesRollback(ExportReply(a, probe, lookup, expected))
  }

  /** The look-up does not help there: it is tried only for an outcome that is said to be unknown. */
  lemma ExportMisleadsExactly(f: Failure, probe: Probe, lookup: Option<seq<AuditRow>>, expected: AuditRow,
                              visible: bool)
    requires IsExportRow(expected) && (lookup.Some? ==> LogShows(lookup.value, expected, visible))
    ensures CanMisleadExport(f, probe, lookup, expected) <==> WorkflowCompletionUnknown(f)
  {
    hide Possible, WorkflowCompletionUnknown, StatesRollback, Sound, LogShows, IsExportRow, ExportReply;
    if WorkflowCompletionUnknown(f) {
      UnknownMisleadsExport(f, probe, lookup, expected);
      assert CanMisleadExport(f, probe, lookup, expected);
    } else if CanMisleadExport(f, probe, lookup, expected) {
      var a :| Possible(a) && a.failure == Some(f) && a.committed
               && StatesRollback(ExportReply(a, probe, lookup, expected));
      ExportIsSound(a, probe, lookup, expected, visible);
      SoundRollback(a, ExportReply(a, probe, lookup, expected));
    }
  }

  lemma UnknownMisleadsExport(f: Failure, probe: Probe, lookup: Option<seq<AuditRow>>, expected: AuditRow)
    requires WorkflowCompletionUnknown(f)
    ensures var a := Attempt(true, Some(f), true);
            Possible(a) && StatesRollback(ExportReply(a, probe, lookup, expected))
  {
    hide Reconciled, Says, WorkflowState, DefiniteState, MayFollowCommit;
    OnlyUnknownCompletion("40003");
  }
}
