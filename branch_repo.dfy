/**
 * BranchRepo.UpsertMany: all rows as one `INSERT ... ON CONFLICT (branch_id) DO UPDATE` with
 * no WHERE, so a stored branch is overwritten unconditionally.
 */
module BranchRepo {
  import opened Wrappers
  import opened Clock
  import opened Records
  import opened Upserts
  import opened Store

  /**
   * The conflict behaviour of the branches table for a call made at `now`: every listed
   * column takes the incoming value, updated_at becomes now, created_at stays, and branch_id
   * is the conflict key.
   */
  function BranchPolicy(now: Time): Policy<string, Branch, BranchRow> {
    Policy(
      Overwrite,
      (b: Branch) => b.branchId,
      (b: Branch) => None,
      (r: BranchRow) => None,
      (b: Branch) => BranchRow(b, now, now),
      (r: BranchRow, b: Branch) => BranchRow(b, r.createdAt, now))
  }

  /** UpsertMany: an empty batch is a no-op; otherwise one statement writes all the rows. */
  method UpsertMany(db: Db, rows: seq<Branch>, now: Time) returns (err: Outcome)
    modifies db`branches, db`round
    ensures rows == [] ==> err.Pass? && db.branches == old(db.branches) && db.round == old(db.round)
    ensures rows != [] ==>
      var run := Send(BranchPolicy(now), old(db.branches), rows, old(db.round), db.faulty);
      db.branches == run.table && db.round == run.round && err == run.outcome
  {
    if |rows| == 0 {
      return Pass;
    }
    var ok := db.RoundTrip();
    if !ok {
      return Fail(ConnectionFault);
    }
    var res := Execute(BranchPolicy(now), db.branches, rows, {});
    if res.Err? {
      return Fail(res.msg);
    }
    db.branches := res.value;
    return Pass;
  }

  /**
   * One statement whose branch ids are distinct: an absent branch is inserted with
   * created_at = updated_at = now; a stored branch takes every listed column from the row
   * whatever its contents, keeps its created_at and gets updated_at = now; branches the
   * statement does not address are untouched.
   */
  lemma BranchStatement(table: map<string, BranchRow>, rows: seq<Branch>, now: Time)
    requires DistinctKeys(BranchPolicy(now), rows)
    ensures Execute(BranchPolicy(now), table, rows, {}).Ok?
    ensures var t := Execute(BranchPolicy(now), table, rows, {}).value;
      t.Keys == table.Keys + (set i | 0 <= i < |rows| :: rows[i].branchId) &&
      (forall id :: id in table && id !in Keys(BranchPolicy(now), rows) ==> t[id] == table[id]) &&
      (forall i :: 0 <= i < |rows| ==>
        var id := rows[i].branchId;
        t[id].branch == rows[i] && t[id].updatedAt == now &&
        t[id].createdAt == (if id in table then table[id].createdAt else now))
  {
    var p := BranchPolicy(now);
    ExecuteDistinct(p, table, rows, {});
    assert Keys(p, rows) == set i | 0 <= i < |rows| :: rows[i].branchId;
  }

  /** Two rows of one statement with the same new branch_id: Postgres refuses the statement. */
  lemma BranchRepeatedId(table: map<string, BranchRow>, rows: seq<Branch>, now: Time, i: nat, j: nat)
    requires i < j < |rows| && rows[i].branchId == rows[j].branchId && rows[i].branchId !in table
    ensures Execute(BranchPolicy(now), table, rows, {}).Err?
  {
    ExecuteRejectsRepeatedNewKey(BranchPolicy(now), table, rows, {}, i, j);
  }

  /** Writing the same distinct rows again, in a later call, changes no stored branch field and no created_at. */
  lemma BranchReapply(table: map<string, BranchRow>, rows: seq<Branch>, now: Time, later: Time)
    requires DistinctKeys(BranchPolicy(now), rows)
    ensures Execute(BranchPolicy(now), table, rows, {}).Ok?
    ensures var t := Execute(BranchPolicy(now), table, rows, {}).value;
      Execute(BranchPolicy(later), t, rows, {}).Ok? &&
      var t2 := Execute(BranchPolicy(later), t, rows, {}).value;
      t2.Keys == t.Keys && forall id :: id in t ==> t2[id].branch == t[id].branch && t2[id].createdAt == t[id].createdAt
  {
    var p := BranchPolicy(now);
    var q := BranchPolicy(later);
    BranchStatement(table, rows, now);
    var t := Execute(p, table, rows, {}).value;
    OverwriteReapply(p, q, table, rows, (r: BranchRow) => r.branch, (b: Branch) => b);
    assert DistinctKeys(q, rows);
    ExecuteDistinct(q, t, rows, {});
  }
}
