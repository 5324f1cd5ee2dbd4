/**
 * StaffRepo.UpsertMany: the staff rows' dates are cut to their day in place, then all rows
 * go out as one `INSERT ... ON CONFLICT (staff_id, branch_id) DO UPDATE` with no WHERE, so a
 * stored member is overwritten whatever either side's timestamps say.
 */
module StaffRepo {
  import opened Wrappers
  import opened Clock
  import opened Records
  import opened Upserts
  import opened Store

  /**
   * dateOnly: nil and the zero instant become nil; any other instant becomes the midnight
   * (UTC) that starts its UTC calendar day.
   */
  function DateOnly(t: Option<Time>): (r: Option<Time>)
    ensures r.None? <==> t.None? || t.value == 0
    ensures r.Some? ==> r.value % DayMs == 0 && r.value <= t.value < r.value + DayMs
  {
    if t.None? || t.value == 0 then None else Some(TruncateToDay(t.value))
  }

  /** The cut keeps the UTC calendar date. */
  lemma DateOnlySameDate(t: Option<Time>)
    requires t.Some? && t.value != 0
    ensures DateOnly(t).Some? && CivilDate(DateOnly(t).value) == CivilDate(t.value)
  {
    var d := TruncateToDay(t.value);
    assert d / DayMs == t.value / DayMs;
  }

  /**
   * Cutting twice is cutting once, except on the first day of year 1: there the first cut
   * lands on the zero instant, which the second cut turns into nil.
   */
  lemma DateOnlyTwice(t: Option<Time>)
    ensures DateOnly(DateOnly(t)) == if t.Some? && 0 < t.value < DayMs then None else DateOnly(t)
  {
    if t.Some? && t.value != 0 {
      if 0 < t.value < DayMs {
        FirstDayCut(t.value);
      } else {
        LaterDayCut(t.value);
      }
    }
  }

  lemma FirstDayCut(t: Time)
    requires 0 < t < DayMs
    ensures TruncateToDay(t) == 0
  {
    assert t % DayMs == t;
  }

  lemma LaterDayCut(t: Time)
    requires t < 0 || t >= DayMs
    ensures TruncateToDay(t) != 0 && TruncateToDay(TruncateToDay(t)) == TruncateToDay(t)
  {
    TruncateToDayProperties(t, t);
  }

  /** A staff member with both dates cut to their day. */
  function Normalise(s: Staff): Staff {
    s.(birthDate := DateOnly(s.birthDate), startDate := DateOnly(s.startDate))
  }

  /**
   * The conflict behaviour of the staff table for a call made at `now`: every listed column
   * takes the incoming value, updated_at becomes now, and created_at stays. staff_id and
   * branch_id are the conflict key, so the incoming row already carries the stored ones.
   */
  function StaffPolicy(now: Time): Policy<StaffKey, Staff, StaffRow> {
    Policy(
      Overwrite,
      (s: Staff) => StaffKey(s.staffId, s.branchId),
      (s: Staff) => None,
      (r: StaffRow) => None,
      (s: Staff) => StaffRow(s, now, now),
      (r: StaffRow, s: Staff) => StaffRow(s, r.createdAt, now))
  }

  /**
   * UpsertMany: an empty batch is a no-op; otherwise every row's birth and start dates are
   * cut to their day in the caller's array, and then one statement writes them all.
   */
  method UpsertMany(db: Db, rows: array<Staff>, now: Time) returns (err: Outcome)
    modifies rows, db`staff, db`round
    ensures forall i :: 0 <= i < rows.Length ==> rows[i] == Normalise(old(rows[i]))
    ensures rows.Length == 0 ==> err.Pass? && db.staff == old(db.staff) && db.round == old(db.round)
    ensures rows.Length > 0 ==>
      var run := Send(StaffPolicy(now), old(db.staff), rows[..], old(db.round), db.faulty);
      db.staff == run.table && db.round == run.round && err == run.outcome
  {
    if rows.Length == 0 {
      return Pass;
    }
    NormaliseAll(rows);
    var ok := db.RoundTrip();
    if !ok {
      return Fail(ConnectionFault);
    }
    var res := Execute(StaffPolicy(now), db.staff, rows[..], {});
    if res.Err? {
      return Fail(res.msg);
    }
    db.staff := res.value;
    return Pass;
  }

  /** The in-place loop of UpsertMany: every row's birth and start dates cut to their day. */
  method NormaliseAll(rows: array<Staff>)
    modifies rows
    ensures forall i :: 0 <= i < rows.Length ==> rows[i] == Normalise(old(rows[i]))
  {
    var i := 0;
    while i < rows.Length
      invariant 0 <= i <= rows.Length
      invariant forall k :: 0 <= k < i ==> rows[k] == Normalise(old(rows[k]))
      invariant forall k :: i <= k < rows.Length ==> rows[k] == old(rows[k])
    {
      rows[i] := rows[i].(birthDate := DateOnly(rows[i].birthDate));
      rows[i] := rows[i].(startDate := DateOnly(rows[i].startDate));
      i := i + 1;
    }
  }

  /**
   * One statement whose (staff_id, branch_id) pairs are distinct: an absent pair is inserted
   * with created_at = updated_at = now; a stored pair takes every listed column from the row
   * with no timestamp comparison, keeps staff_id, branch_id and created_at, and gets
   * updated_at = now; pairs the statement does not address are untouched.
   */
  lemma StaffStatement(table: map<StaffKey, StaffRow>, rows: seq<Staff>, now: Time)
    requires DistinctKeys(StaffPolicy(now), rows)
    ensures Execute(StaffPolicy(now), table, rows, {}).Ok?
    ensures var t := Execute(StaffPolicy(now), table, rows, {}).value;
      t.Keys == table.Keys + (set i | 0 <= i < |rows| :: StaffKey(rows[i].staffId, rows[i].branchId)) &&
      (forall k :: k in table && k !in Keys(StaffPolicy(now), rows) ==> t[k] == table[k]) &&
      (forall i :: 0 <= i < |rows| ==>
        var k := StaffKey(rows[i].staffId, rows[i].branchId);
        t[k].staff == rows[i] && t[k].updatedAt == now &&
        t[k].createdAt == (if k in table then table[k].createdAt else now))
  {
    var p := StaffPolicy(now);
    ExecuteDistinct(p, table, rows, {});
    assert Keys(p, rows) == set i | 0 <= i < |rows| :: StaffKey(rows[i].staffId, rows[i].branchId);
  }

  /** Two rows of one statement with the same new (staff_id, branch_id): Postgres refuses the statement. */
  lemma StaffRepeatedKey(table: map<StaffKey, StaffRow>, rows: seq<Staff>, now: Time, i: nat, j: nat)
    requires i < j < |rows| && rows[i].staffId == rows[j].staffId && rows[i].branchId == rows[j].branchId
    requires StaffKey(rows[i].staffId, rows[i].branchId) !in table
    ensures Execute(StaffPolicy(now), table, rows, {}).Err?
  {
    ExecuteRejectsRepeatedNewKey(StaffPolicy(now), table, rows, {}, i, j);
  }

  /** Writing the same distinct rows again, in a later call, changes no stored staff field and no created_at. */
  lemma StaffReapply(table: map<StaffKey, StaffRow>, rows: seq<Staff>, now: Time, later: Time)
    requires DistinctKeys(StaffPolicy(now), rows)
    ensures Execute(StaffPolicy(now), table, rows, {}).Ok?
    ensures var t := Execute(StaffPolicy(now), table, rows, {}).value;
      Execute(StaffPolicy(later), t, rows, {}).Ok? &&
      var t2 := Execute(StaffPolicy(later), t, rows, {}).value;
      t2.Keys == t.Keys && forall k :: k in t ==> t2[k].staff == t[k].staff && t2[k].createdAt == t[k].createdAt
  {
    var p := StaffPolicy(now);
    var q := StaffPolicy(later);
    StaffStatement(table, rows, now);
    var t := Execute(p, table, rows, {}).value;
    OverwriteReapply(p, q, table, rows, (r: StaffRow) => r.staff, (s: Staff) => s);
    assert DistinctKeys(q, rows);
    ExecuteDistinct(q, t, rows, {});
  }

  /** The dates of a normalised row are already cut, but for the first day of year 1. */
  lemma NormaliseTwice(s: Staff)
    requires !(s.birthDate.Some? && 0 < s.birthDate.value < DayMs)
    requires !(s.startDate.Some? && 0 < s.startDate.value < DayMs)
    ensures Normalise(Normalise(s)) == Normalise(s)
  {
    DateOnlyTwice(s.birthDate);
    DateOnlyTwice(s.startDate);
  }
}
