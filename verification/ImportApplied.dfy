/** What an applied import leaves in the tables. */
module ImportApplied {
  import opened Common
  import opened ContentTables
  import opened ContentArm
  import opened ContentCommands

  /** The rows are those there were and, under its own keys, one version for each of the first k items. */
  ghost predicate Holds(db: Db, next: Db, items: seq<ImportItem>, k: nat)
    requires k <= |items|
  {
    && (forall v | v in next.versions ::
          (v in db.versions && next.versions[v] == db.versions[v])
          || (exists i | 0 <= i < k :: v == items[i].versionId))
    && (forall i | 0 <= i < k ::
          && items[i].versionId in next.versions
          && next.versions[items[i].versionId].content == items[i].content
          && next.versions[items[i].versionId].questionId == items[i].questionId)
  }

  lemma {:induction false} InsertedHold(db: Db, actor: Id, items: seq<ImportItem>, k: nat)
    requires k <= |items| && FreshKeys(db, items) && DistinctKeys(items)
    ensures Holds(db, InsertItems(db, actor, items[..k]), items, k)
    decreases k
  {
    if k > 0 {
      InsertedHold(db, actor, items, k - 1);
      assert items[..k][..k - 1] == items[..k - 1];
    }
  }

  /**
    * After an import is applied, each item's content stands in exactly one
    * version of the whole store, the one that was made for it.
    */
  lemma AppliedOnce(db: Db, actor: Id, items: seq<ImportItem>, validSeen: bool, next: Db, i: nat, v: Id)
    requires CommitImport(db, actor, items, validSeen) == Ok(next)
    requires i < |items| && v in next.versions
    ensures items[i].versionId in next.versions && next.versions[items[i].versionId].questionId == items[i].questionId
    ensures FingerprintOf(next.versions[v].content) == FingerprintOf(items[i].content) <==> v == items[i].versionId
  {
    hide Arm, FingerprintOf, InsertItems, Complete;
    InsertedHold(db, actor, items, |items|);
    assert items[..|items|] == items;
    assert next.versions == InsertItems(db, actor, items).versions;
    if v !in db.versions {
      var j :| 0 <= j < |items| && v == items[j].versionId;
      if i < j {
        assert FingerprintOf(items[i].content) != FingerprintOf(items[j].content);
      } else if j < i {
        assert FingerprintOf(items[j].content) != FingerprintOf(items[i].content);
      }
    }
  }
}
