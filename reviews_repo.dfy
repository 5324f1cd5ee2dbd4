/**
 * ReviewsRepo: reviews are immutable upstream, so UpsertMany inserts them with `ON CONFLICT
 * (review_id) DO NOTHING` in statements of at most 500 rows; MaxReviewDate and
 * CountExistingByIDs are the two per-branch reads the sync loops use.
 */
module ReviewsRepo {
  import opened Wrappers
  import opened Clock
  import opened Records
  import opened Chunks
  import opened Upserts
  import opened Store

  /** The rows per INSERT statement, to stay under Postgres' parameter limit. */
  const ChunkSize: nat := 500

  /** review_date and visit_date are `date` columns: the stored value keeps only the UTC calendar day. */
  function DateColumn(t: Option<Time>): (r: Option<Time>)
    ensures r.None? <==> t.None?
    ensures r.Some? ==> r.value <= t.value < r.value + DayMs && r.value % DayMs == 0
  {
    if t.None? then None else Some(TruncateToDay(t.value))
  }

  /** The row a review becomes once stored. */
  function Stored(rv: Review): Review {
    rv.(reviewDate := DateColumn(rv.reviewDate), visitDate := DateColumn(rv.visitDate))
  }

  /** Insert-if-absent on review_id: a stored review is never rewritten. */
  function ReviewsPolicy(): Policy<string, Review, Review> {
    Policy(
      Ignore,
      (rv: Review) => rv.reviewId,
      (rv: Review) => rv.reviewDate,
      (s: Review) => s.reviewDate,
      (rv: Review) => Stored(rv),
      (s: Review, rv: Review) => s)
  }

  function Min(a: int, b: int): int { if a < b then a else b }

  /**
   * UpsertMany: an empty input sends nothing; otherwise the rows [0, 500), [500, 1000), ...
   * go out in order, one statement each, and the first failing statement ends the call with
   * its error, the earlier ones staying written.
   */
  method UpsertMany(db: Db, rows: seq<Review>) returns (err: Outcome)
    modifies db`reviews, db`round
    ensures var run := SendAll(ReviewsPolicy(), old(db.reviews), ChunksOf(rows, ChunkSize), old(db.round), db.faulty);
      db.reviews == run.table && db.round == run.round && err == run.outcome
  {
    var p := ReviewsPolicy();
    if |rows| == 0 {
      return Pass;
    }
    ghost var total := SendAll(p, db.reviews, ChunksOf(rows, ChunkSize), db.round, db.faulty);
    var start := 0;
    while start < |rows|
      invariant 0 <= start
      invariant total == SendAll(p, db.reviews, ChunksOf(rows[Min(start, |rows|)..], ChunkSize), db.round, db.faulty)
      decreases |rows| - start
    {
      var end := start + ChunkSize;
      if end > |rows| {
        end := |rows|;
      }
      var chunk := rows[start..end];
      ChunkAt(rows, ChunkSize, start, end);
      SendAllHead(p, db.reviews, chunk, ChunksOf(rows[end..], ChunkSize), db.round, db.faulty);
      var ok := db.RoundTrip();
      if !ok {
        return Fail(ConnectionFault);
      }
      var res := Execute(p, db.reviews, chunk, {});
      if res.Err? {
        return Fail(res.msg);
      }
      db.reviews := res.value;
      start := start + ChunkSize;
      assert Min(start, |rows|) == end;
    }
    assert rows[Min(start, |rows|)..] == [];
    return Pass;
  }

  /** The review ids a batch carries. */
  function ReviewIds(rows: seq<Review>): set<string> {
    set i | 0 <= i < |rows| :: rows[i].reviewId
  }

  /** rows[i] is the first row carrying its review id. */
  predicate FirstWithId(rows: seq<Review>, i: nat)
    requires i < |rows|
  {
    forall h :: 0 <= h < i ==> rows[h].reviewId != rows[i].reviewId
  }

  /**
   * What one DO NOTHING statement does: it never fails; keys become the stored ids plus the
   * new ones; a stored review is never modified; a new id holds the first row that carries it.
   */
  lemma ReviewsStatement(table: map<string, Review>, rows: seq<Review>)
    ensures Execute(ReviewsPolicy(), table, rows, {}).Ok?
    ensures var t := Execute(ReviewsPolicy(), table, rows, {}).value;
      t.Keys == table.Keys + ReviewIds(rows) &&
      (forall id :: id in table ==> t[id] == table[id]) &&
      (forall i :: 0 <= i < |rows| && rows[i].reviewId !in table && FirstWithId(rows, i) ==> t[rows[i].reviewId] == Stored(rows[i]))
  {
    var p := ReviewsPolicy();
    ExecuteIgnore(p, table, rows, {});
    assert Keys(p, rows) == ReviewIds(rows);
  }

  /**
   * How the whole call ends: it fails only on a lost round trip, it passes iff none of its
   * round trips is lost, and on success the table is that of one statement over all the rows.
   */
  lemma UpsertManyOutcome(table: map<string, Review>, rows: seq<Review>, round: nat, faulty: set<nat>)
    ensures var chunks := ChunksOf(rows, ChunkSize);
      var r := SendAll(ReviewsPolicy(), table, chunks, round, faulty);
      (r.outcome.Pass? <==> Clean(faulty, round, round + |chunks|)) &&
      (r.outcome.Fail? ==> r.outcome == Fail(ConnectionFault)) &&
      (r.outcome.Pass? ==> Execute(ReviewsPolicy(), table, rows, {}) == Ok(r.table))
  {
    IgnoreBatch(ReviewsPolicy(), table, rows, ChunkSize, round, faulty);
  }

  /**
   * Whatever the outcome, the table is that of one statement over a prefix of the rows (the
   * chunks written before any failure stay written), so no stored review changes and every
   * id in the table was stored before or given.
   */
  lemma UpsertManyKeepsStored(table: map<string, Review>, rows: seq<Review>, round: nat, faulty: set<nat>)
    ensures var r := SendAll(ReviewsPolicy(), table, ChunksOf(rows, ChunkSize), round, faulty);
      (exists m :: 0 <= m <= |rows| && Execute(ReviewsPolicy(), table, rows[..m], {}) == Ok(r.table)) &&
      (forall id :: id in table ==> id in r.table && r.table[id] == table[id]) &&
      r.table.Keys <= table.Keys + ReviewIds(rows)
  {
    var p := ReviewsPolicy();
    var r := SendAll(p, table, ChunksOf(rows, ChunkSize), round, faulty);
    IgnoreBatchPrefix(p, table, rows, ChunkSize, round, faulty);
    var m :| 0 <= m <= |rows| && Execute(p, table, rows[..m], {}) == Ok(r.table);
    ReviewsStatement(table, rows[..m]);
    assert ReviewIds(rows[..m]) <= ReviewIds(rows) by {
      assert rows == rows[..m] + rows[m..];
      KeysAppend(p, rows[..m], rows[m..]);
      assert Keys(p, rows) == ReviewIds(rows);
      assert Keys(p, rows[..m]) == ReviewIds(rows[..m]);
    }
  }

  /** A batch of chunks fails only on a lost round trip: the last one it used. */
  lemma {:induction false} ChunksFailOnFault(table: map<string, Review>, chunks: seq<seq<Review>>, round: nat, faulty: set<nat>)
    ensures var r := SendAll(ReviewsPolicy(), table, chunks, round, faulty);
      r.outcome.Fail? ==> round < r.round && r.round - 1 in faulty
    decreases |chunks|
  {
    if chunks != [] {
      ReviewsStatement(table, chunks[0]);
      var r := Send(ReviewsPolicy(), table, chunks[0], round, faulty);
      if r.outcome.Pass? {
        ChunksFailOnFault(r.table, chunks[1..], r.round, faulty);
      }
    }
  }

  /** When none of the round trips it used was lost, UpsertMany passed and stored every id it was given. */
  lemma UpsertManyStoresAll(table: map<string, Review>, rows: seq<Review>, round: nat, faulty: set<nat>)
    requires Clean(faulty, round, SendAll(ReviewsPolicy(), table, ChunksOf(rows, ChunkSize), round, faulty).round)
    ensures var r := SendAll(ReviewsPolicy(), table, ChunksOf(rows, ChunkSize), round, faulty);
      r.outcome.Pass? && forall i :: 0 <= i < |rows| ==> rows[i].reviewId in r.table
  {
    var r := SendAll(ReviewsPolicy(), table, ChunksOf(rows, ChunkSize), round, faulty);
    ChunksFailOnFault(table, ChunksOf(rows, ChunkSize), round, faulty);
    UpsertManyOutcome(table, rows, round, faulty);
    ReviewsStatement(table, rows);
    forall i | 0 <= i < |rows| ensures rows[i].reviewId in r.table {
      assert rows[i].reviewId in ReviewIds(rows);
    }
  }

  // ---- the per-branch reads ----

  /** The stored review ids among `ids` whose review belongs to branchId. */
  function ExistingIds(reviews: map<string, Review>, branchId: string, ids: seq<string>): set<string> {
    set id | id in reviews && reviews[id].branchId == branchId && id in ids
  }

  /**
   * CountExistingByIDs: an empty id list answers 0 without a query; otherwise one query that
   * counts the stored reviews of branchId whose id is listed.
   */
  method CountExistingByIDs(db: Db, branchId: string, ids: seq<string>) returns (r: Result<int>)
    modifies db`round
    ensures ids == [] ==> r == Ok(0) && db.round == old(db.round)
    ensures ids != [] ==>
      db.round == old(db.round) + 1 && (r.Err? <==> old(db.round) in db.faulty) &&
      (r.Ok? ==> r.value == |ExistingIds(db.reviews, branchId, ids)|)
    ensures r.Err? ==> r.msg == ConnectionFault
  {
    if |ids| == 0 {
      return Ok(0);
    }
    var ok := db.RoundTrip();
    if !ok {
      return Err(ConnectionFault);
    }
    return Ok(|ExistingIds(db.reviews, branchId, ids)|);
  }

  /** The count is at most the number of ids asked about, and is exactly that when they are distinct and all stored under the branch. */
  lemma ExistingIdsBounds(reviews: map<string, Review>, branchId: string, ids: seq<string>)
    ensures |ExistingIds(reviews, branchId, ids)| <= |ids|
    ensures (forall i, j :: 0 <= i < j < |ids| ==> ids[i] != ids[j]) &&
            (forall i :: 0 <= i < |ids| ==> ids[i] in reviews && reviews[ids[i]].branchId == branchId) ==>
              |ExistingIds(reviews, branchId, ids)| == |ids|
  {
    var e := ExistingIds(reviews, branchId, ids);
    assert e <= SeqElems(ids);
    SubsetSize(e, SeqElems(ids));
    SeqElemsSize(ids);
    if (forall i, j :: 0 <= i < j < |ids| ==> ids[i] != ids[j]) &&
       (forall i :: 0 <= i < |ids| ==> ids[i] in reviews && reviews[ids[i]].branchId == branchId) {
      assert e == SeqElems(ids);
      DistinctSeqElemsSize(ids);
    }
  }

  /** Reviews stored under other branches do not count. */
  lemma ExistingIdsOtherBranch(reviews: map<string, Review>, branchId: string, ids: seq<string>, rv: Review)
    requires rv.branchId != branchId && rv.reviewId !in reviews
    ensures ExistingIds(reviews[rv.reviewId := rv], branchId, ids) == ExistingIds(reviews, branchId, ids)
  {
  }

  lemma SubsetSize(a: set<string>, b: set<string>)
    requires a <= b
    ensures |a| <= |b|
  {
    assert b == a + (b - a);
    assert a * (b - a) == {};
  }

  function SeqElems(s: seq<string>): set<string> {
    set x | x in s
  }

  lemma {:induction false} SeqElemsSize(s: seq<string>)
    ensures |SeqElems(s)| <= |s|
  {
    if s != [] {
      SeqElemsSize(s[1..]);
      assert SeqElems(s) == {s[0]} + SeqElems(s[1..]);
    }
  }

  lemma {:induction false} DistinctSeqElemsSize(s: seq<string>)
    requires forall i, j :: 0 <= i < j < |s| ==> s[i] != s[j]
    ensures |SeqElems(s)| == |s|
  {
    if s != [] {
      DistinctSeqElemsSize(s[1..]);
      assert SeqElems(s) == {s[0]} + SeqElems(s[1..]);
      assert s[0] !in SeqElems(s[1..]);
    }
  }

  /** The review dates of the reviews among `ids` that belong to branchId. */
  function DatesIn(reviews: map<string, Review>, branchId: string, ids: set<string>): set<Time>
    requires ids <= reviews.Keys
  {
    set id | id in ids && reviews[id].branchId == branchId && reviews[id].reviewDate.Some? :: reviews[id].reviewDate.value
  }

  /** What review `id` adds to the branch's maximum: its date, if it belongs to the branch. */
  function DateFor(rv: Review, branchId: string): Option<Time> {
    if rv.branchId == branchId then rv.reviewDate else None
  }

  /** `MAX(review_date) WHERE branch_id = branchId` over the reviews among `ids`. */
  ghost function LatestIn(reviews: map<string, Review>, branchId: string, ids: set<string>): (r: Option<Time>)
    requires ids <= reviews.Keys
    ensures IsLatest(DatesIn(reviews, branchId, ids), r)
    decreases ids
  {
    if ids == {} then None
    else
      var id :| id in ids;
      var rest := LatestIn(reviews, branchId, ids - {id});
      DatesInStep(reviews, branchId, ids, id);
      Greatest(rest, DateFor(reviews[id], branchId))
  }

  lemma DatesInStep(reviews: map<string, Review>, branchId: string, ids: set<string>, id: string)
    requires ids <= reviews.Keys && id in ids
    ensures DatesIn(reviews, branchId, ids) ==
      DatesIn(reviews, branchId, ids - {id}) + (if DateFor(reviews[id], branchId).Some? then {DateFor(reviews[id], branchId).value} else {})
  {
  }

  /** The latest review date stored for branchId, or None. */
  ghost function LatestReviewDate(reviews: map<string, Review>, branchId: string): Option<Time> {
    LatestIn(reviews, branchId, reviews.Keys)
  }

  /** `MAX(review_date)::text`, as text in the date column's "YYYY-MM-DD" form, or NULL. */
  function DateText(d: Option<Time>): Option<string> {
    if d.None? then None else Some(FormatDate(CivilDate(d.value)))
  }

  /**
   * MaxReviewDate: one query; on success the latest review_date stored for the branch as
   * "YYYY-MM-DD", or None when the branch has no dated review.
   */
  method MaxReviewDate(db: Db, branchId: string) returns (r: Result<Option<string>>)
    modifies db`round
    ensures db.round == old(db.round) + 1 && (r.Err? <==> old(db.round) in db.faulty)
    ensures r.Ok? ==> r.value == DateText(LatestReviewDate(db.reviews, branchId))
    ensures r.Err? ==> r.msg == ConnectionFault
  {
    var ok := db.RoundTrip();
    if !ok {
      return Err(ConnectionFault);
    }
    var todo := db.reviews.Keys;
    var mx: Option<Time> := None;
    while todo != {}
      invariant db.round == old(db.round) + 1
      invariant todo <= db.reviews.Keys
      invariant IsLatest(DatesIn(db.reviews, branchId, db.reviews.Keys - todo), mx)
      decreases todo
    {
      var id :| id in todo;
      DatesInStep(db.reviews, branchId, db.reviews.Keys - (todo - {id}), id);
      assert db.reviews.Keys - (todo - {id}) - {id} == db.reviews.Keys - todo;
      mx := Greatest(mx, DateFor(db.reviews[id], branchId));
      todo := todo - {id};
    }
    assert db.reviews.Keys - todo == db.reviews.Keys;
    LatestUnique(DatesIn(db.reviews, branchId, db.reviews.Keys), mx, LatestReviewDate(db.reviews, branchId));
    return Ok(DateText(mx));
  }

  /** MaxReviewDate's answer is NULL exactly when no stored review of the branch has a date. */
  lemma DateTextNone(reviews: map<string, Review>, branchId: string)
    ensures DateText(LatestReviewDate(reviews, branchId)).None? <==>
      forall id :: id in reviews && reviews[id].branchId == branchId ==> reviews[id].reviewDate.None?
  {
    var s := DatesIn(reviews, branchId, reviews.Keys);
    if exists id :: id in reviews && reviews[id].branchId == branchId && reviews[id].reviewDate.Some? {
      var id :| id in reviews && reviews[id].branchId == branchId && reviews[id].reviewDate.Some?;
      assert reviews[id].reviewDate.value in s;
    } else {
      assert s == {};
    }
  }
}
