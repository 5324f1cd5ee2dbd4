/**
 * SyncBranchesFromAPI: fetch the business's branches from the Phorest API and upsert them
 * all in one statement. A failed fetch and a failed upsert are the call's error; an empty
 * answer writes nothing.
 */
module BranchSync {
  import opened Wrappers
  import opened Clock
  import opened Records
  import opened Upserts
  import opened Store
  import opened BranchRepo

  /** The branches table, the round-trip counter and the call's answer. */
  datatype BranchRun = BranchRun(branches: map<string, BranchRow>, round: nat, outcome: Outcome)

  /** SyncBranchesFromAPI after the fetch answered fetched, from the table `table`. */
  function BranchesSync(fetched: Result<seq<Branch>>, now: Time, faulty: set<nat>, table: map<string, BranchRow>, round: nat)
    : (r: BranchRun)
    ensures r.outcome.Fail? ==> r.branches == table
    ensures fetched.Err? ==> r.outcome == Fail(fetched.msg) && r.round == round
    ensures fetched == Ok([]) ==> r == BranchRun(table, round, Pass)
  {
    match fetched
    case Err(e) => BranchRun(table, round, Fail(e))
    case Ok(rows) =>
      if rows == [] then BranchRun(table, round, Pass)
      else
        var run := Send(BranchPolicy(now), table, rows, round, faulty);
        BranchRun(run.table, run.round, run.outcome)
  }

  /** SyncBranchesFromAPI: the table, the round trips and the answer are BranchesSync's. */
  method SyncBranchesFromAPI(db: Db, fetched: Result<seq<Branch>>, now: Time) returns (err: Outcome)
    modifies db`branches, db`round
    ensures BranchRun(db.branches, db.round, err) == BranchesSync(fetched, now, db.faulty, old(db.branches), old(db.round))
  {
    if fetched.Err? {
      return Fail(fetched.msg);
    }
    var rows := fetched.value;
    if |rows| == 0 {
      return Pass;
    }
    err := UpsertMany(db, rows, now);
  }

  /** The fetched rows carry distinct branch ids. */
  predicate DistinctBranches(rows: seq<Branch>) {
    forall i, j :: 0 <= i < j < |rows| ==> rows[i].branchId != rows[j].branchId
  }

  /**
   * The call succeeds exactly when the fetch did and the list was empty or its one upsert
   * round trip is clean (with distinct ids the statement cannot fail otherwise); it then
   * holds every fetched branch as fetched, stamped now, and keeps every other stored branch.
   */
  lemma BranchesSyncMeaning(fetched: Result<seq<Branch>>, now: Time, faulty: set<nat>, table: map<string, BranchRow>, round: nat)
    requires fetched.Ok? ==> DistinctBranches(fetched.value)
    ensures var r := BranchesSync(fetched, now, faulty, table, round);
      r.outcome.Pass? <==> fetched.Ok? && (fetched.value == [] || round !in faulty)
    ensures var r := BranchesSync(fetched, now, faulty, table, round);
      r.outcome.Pass? ==>
        var rows := fetched.value;
        r.branches.Keys == table.Keys + (set i | 0 <= i < |rows| :: rows[i].branchId) &&
        (forall i :: 0 <= i < |rows| ==>
          r.branches[rows[i].branchId].branch == rows[i] && r.branches[rows[i].branchId].updatedAt == now) &&
        (forall id :: id in table && id !in Keys(BranchPolicy(now), rows) ==> r.branches[id] == table[id])
  {
    if fetched.Ok? && fetched.value != [] {
      assert DistinctKeys(BranchPolicy(now), fetched.value);
      BranchStatement(table, fetched.value, now);
    }
  }
}
