/**
 * SyncStaffFromAPI: for every configured branch, fetch its staff from the Phorest API and
 * upsert them. Every failure is contained to its branch: a branch without an id is skipped,
 * a failed fetch or a failed upsert moves on to the next branch, and the call as a whole
 * always succeeds.
 */
module StaffSync {
  import opened Wrappers
  import opened Clock
  import opened Records
  import opened Upserts
  import opened Store
  import opened StaffRepo

  /** The staff listing of the API: what fetching a branch's staff answers. */
  type StaffFetch = string -> Result<seq<Staff>>

  /** The staff table and the round-trip counter. */
  datatype StaffState = StaffState(staff: map<StaffKey, StaffRow>, round: nat)

  /** The rows as UpsertMany writes them: each with its dates cut to their day. */
  function NormaliseRows(rows: seq<Staff>): (r: seq<Staff>)
    ensures |r| == |rows| && forall i :: 0 <= i < |rows| ==> r[i] == Normalise(rows[i])
  {
    seq(|rows|, i requires 0 <= i < |rows| => Normalise(rows[i]))
  }

  /** A branch whose staff reaches the upsert: it has an id, and its fetch answered some rows. */
  predicate Upserted(fetch: StaffFetch, b: BranchConfig) {
    b.branchId != "" && fetch(b.branchId).Ok? && fetch(b.branchId).value != []
  }

  /**
   * One configured branch: skipped without an id, on a failed fetch and on an empty list;
   * otherwise one upsert of the normalised rows, whose failure is dropped.
   */
  function StaffBranch(fetch: StaffFetch, b: BranchConfig, now: Time, faulty: set<nat>, s: StaffState): (r: StaffState)
    ensures !Upserted(fetch, b) ==> r == s
    ensures Upserted(fetch, b) ==> r.round == s.round + 1
    ensures Upserted(fetch, b) && s.round in faulty ==> r.staff == s.staff
  {
    if b.branchId == "" then s
    else match fetch(b.branchId)
      case Err(_) => s
      case Ok(rows) =>
        if rows == [] then s
        else
          var run := Send(StaffPolicy(now), s.staff, NormaliseRows(rows), s.round, faulty);
          StaffState(run.table, run.round)
  }

  /** The branches in order, from s; nothing a branch does stops the ones after it. */
  function StaffSyncOver(fetch: StaffFetch, branches: seq<BranchConfig>, now: Time, faulty: set<nat>, s: StaffState)
    : (r: StaffState)
    ensures s.round <= r.round <= s.round + |branches|
    decreases |branches|
  {
    if branches == [] then s
    else StaffSyncOver(fetch, branches[1..], now, faulty, StaffBranch(fetch, branches[0], now, faulty, s))
  }

  /**
   * SyncStaffFromAPI. It always answers nil; the staff table and the round trips are
   * StaffSyncOver's from the state before the call.
   */
  method SyncStaffFromAPI(db: Db, fetch: StaffFetch, branches: seq<BranchConfig>, now: Time) returns (err: Outcome)
    modifies db`staff, db`round
    ensures err == Pass
    ensures StaffState(db.staff, db.round) == StaffSyncOver(fetch, branches, now, db.faulty, StaffState(old(db.staff), old(db.round)))
  {
    ghost var total := StaffSyncOver(fetch, branches, now, db.faulty, StaffState(db.staff, db.round));
    for i := 0 to |branches|
      invariant total == StaffSyncOver(fetch, branches[i..], now, db.faulty, StaffState(db.staff, db.round))
    {
      assert branches[i..][1..] == branches[i + 1..];
      var b := branches[i];
      if b.branchId == "" {
        continue;
      }
      var rows := fetch(b.branchId);
      if rows.Err? {
        continue;
      }
      if |rows.value| == 0 {
        continue;
      }
      var buf := new Staff[|rows.value|](j requires 0 <= j < |rows.value| => rows.value[j]);
      var e := UpsertMany(db, buf, now);
      assert buf[..] == NormaliseRows(rows.value);
    }
    return Pass;
  }

  // ---- what the sync promises ----

  /** Every stored (staff_id, branch_id) pair is still stored (its columns may be overwritten). */
  ghost predicate KeepsKeys(before: map<StaffKey, StaffRow>, after: map<StaffKey, StaffRow>) {
    before.Keys <= after.Keys
  }

  /** The key of every fetched row is stored. */
  ghost predicate RowsStored(rows: seq<Staff>, staff: map<StaffKey, StaffRow>) {
    forall i :: 0 <= i < |rows| ==> StaffKey(rows[i].staffId, rows[i].branchId) in staff
  }

  /** The rows of a fetch carry distinct (staff_id, branch_id) pairs. */
  predicate DistinctStaff(rows: seq<Staff>) {
    forall i, j :: 0 <= i < j < |rows| ==>
      StaffKey(rows[i].staffId, rows[i].branchId) != StaffKey(rows[j].staffId, rows[j].branchId)
  }

  /**
   * One branch whose upsert round trip is clean and whose rows are distinct stores every row
   * as its normalised self, stamped now; without a clean round trip it changes no row.
   * Either way no stored pair is lost.
   */
  lemma StaffBranchWrites(fetch: StaffFetch, b: BranchConfig, now: Time, faulty: set<nat>, s: StaffState)
    ensures KeepsKeys(s.staff, StaffBranch(fetch, b, now, faulty, s).staff)
    ensures Upserted(fetch, b) && s.round !in faulty && DistinctStaff(fetch(b.branchId).value) ==>
      var rows := fetch(b.branchId).value;
      var t := StaffBranch(fetch, b, now, faulty, s).staff;
      forall i :: 0 <= i < |rows| ==>
        var k := StaffKey(rows[i].staffId, rows[i].branchId);
        k in t && t[k].staff == Normalise(rows[i]) && t[k].updatedAt == now
  {
    if Upserted(fetch, b) && s.round !in faulty {
      var rows := NormaliseRows(fetch(b.branchId).value);
      var p := StaffPolicy(now);
      var res := Execute(p, s.staff, rows, {});
      if res.Ok? {
        ExecuteFrame(p, s.staff, rows, {});
      }
      if DistinctStaff(fetch(b.branchId).value) {
        assert DistinctKeys(p, rows);
        StaffStatement(s.staff, rows, now);
      }
    }
  }

  /** The sync never loses a stored (staff_id, branch_id) pair. */
  lemma {:induction false} StaffSyncKeepsKeys(fetch: StaffFetch, branches: seq<BranchConfig>, now: Time, faulty: set<nat>, s: StaffState)
    ensures KeepsKeys(s.staff, StaffSyncOver(fetch, branches, now, faulty, s).staff)
    decreases |branches|
  {
    if branches != [] {
      var next := StaffBranch(fetch, branches[0], now, faulty, s);
      StaffBranchWrites(fetch, branches[0], now, faulty, s);
      StaffSyncKeepsKeys(fetch, branches[1..], now, faulty, next);
    }
  }

  /** Adding a branch at the end runs that branch on what the others left. */
  lemma {:induction false} StaffSyncSnoc(fetch: StaffFetch, branches: seq<BranchConfig>, b: BranchConfig, now: Time, faulty: set<nat>, s: StaffState)
    ensures StaffSyncOver(fetch, branches + [b], now, faulty, s) ==
      StaffBranch(fetch, b, now, faulty, StaffSyncOver(fetch, branches, now, faulty, s))
    decreases |branches|
  {
    if branches != [] {
      assert (branches + [b])[1..] == branches[1..] + [b];
      StaffSyncSnoc(fetch, branches[1..], b, now, faulty, StaffBranch(fetch, branches[0], now, faulty, s));
    }
  }

  /**
   * Failures are contained: whatever happened to the branches before it (failed fetches,
   * failed upserts), a last branch with distinct rows whose upsert round trip is clean ends
   * the sync with every one of its rows stored as its normalised self.
   */
  lemma StaffFailureContained(fetch: StaffFetch, branches: seq<BranchConfig>, b: BranchConfig, now: Time, faulty: set<nat>, s: StaffState)
    requires Upserted(fetch, b) && DistinctStaff(fetch(b.branchId).value)
    requires StaffSyncOver(fetch, branches, now, faulty, s).round !in faulty
    ensures var rows := fetch(b.branchId).value;
      var t := StaffSyncOver(fetch, branches + [b], now, faulty, s).staff;
      forall i :: 0 <= i < |rows| ==>
        StaffKey(rows[i].staffId, rows[i].branchId) in t &&
        t[StaffKey(rows[i].staffId, rows[i].branchId)].staff == Normalise(rows[i])
  {
    StaffSyncSnoc(fetch, branches, b, now, faulty, s);
    StaffBranchWrites(fetch, b, now, faulty, StaffSyncOver(fetch, branches, now, faulty, s));
  }

  /**
   * With every round trip of the sync clean, every branch that reached its upsert with
   * distinct rows has the key of each of its rows stored at the end.
   */
  lemma {:induction false} StaffSyncStoresAll(fetch: StaffFetch, branches: seq<BranchConfig>, now: Time, faulty: set<nat>, s: StaffState)
    requires Clean(faulty, s.round, StaffSyncOver(fetch, branches, now, faulty, s).round)
    ensures forall j :: 0 <= j < |branches| && Upserted(fetch, branches[j]) && DistinctStaff(fetch(branches[j].branchId).value) ==>
      RowsStored(fetch(branches[j].branchId).value, StaffSyncOver(fetch, branches, now, faulty, s).staff)
    decreases |branches|
  {
    if branches != [] {
      var b := branches[0];
      var next := StaffBranch(fetch, b, now, faulty, s);
      var t := StaffSyncOver(fetch, branches[1..], now, faulty, next).staff;
      assert StaffSyncOver(fetch, branches, now, faulty, s).staff == t;
      StaffSyncStoresAll(fetch, branches[1..], now, faulty, next);
      StaffSyncKeepsKeys(fetch, branches[1..], now, faulty, next);
      if Upserted(fetch, b) && DistinctStaff(fetch(b.branchId).value) {
        assert s.round !in faulty;
        StaffBranchWrites(fetch, b, now, faulty, s);
      }
      forall j | 1 <= j < |branches| ensures branches[1..][j - 1] == branches[j] {
      }
    }
  }
}
