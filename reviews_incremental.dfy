/**
 * The incremental reviews sync. For every configured branch it pages through the API's
 * reviews (newest first, a hundred a page, no `since`), counts how many of each page are
 * already stored, inserts the page if absent, keeps the pages that brought something new for
 * the run's CSV archive and its watermark, and stops at an empty page, at the last page, or
 * after three near-duplicate pages in a row. A branch that brought something new is archived
 * as one CSV, and reviews_api/<branch> is advanced to the day of the newest review date seen
 * on the new pages. Any error ends the whole run.
 *
 * Cancellation of the run's context is modelled by `cancelFrom`: the context counts as done
 * at a check made once the database has used that many round trips.
 */
module ReviewsIncremental {
  import opened Wrappers
  import opened Clock
  import opened Records
  import opened Text
  import opened Chunks
  import opened Upserts
  import opened Store
  import opened WatermarksRepo
  import opened ReviewsRepo
  import opened ReviewsSync

  /** The watermark entity the run advances. */
  const ReviewsApiEntity: string := "reviews_api"
  /** The page size the run asks for. */
  const IncPageSize: nat := 100
  /** Near-duplicate pages in a row after which a branch stops. */
  const DuplicatePageThreshold: nat := 3
  /** What a done context reports. */
  const ContextCanceled: string := "context canceled"

  /** Whether the context is done at a check made at round trip `round`. */
  predicate Canceled(cancelFrom: Option<nat>, round: nat) {
    cancelFrom.Some? && round >= cancelFrom.value
  }

  /** The replies the run gets for a branch. */
  function Listing(api: ReviewsApi, branchId: string): seq<ReviewsReply> {
    api.listing(branchId, "", IncPageSize)
  }

  /** The review ids of a page, in order. */
  function IdsOf(rows: seq<Review>): (r: seq<string>)
    ensures |r| == |rows| && forall i :: 0 <= i < |rows| ==> r[i] == rows[i].reviewId
  {
    seq(|rows|, i requires 0 <= i < |rows| => rows[i].reviewId)
  }

  /** The newest review date of the rows, if any of them has one. */
  function NewestDate(rows: seq<Review>): Option<Time> {
    if rows == [] then None
    else
      var n := |rows| - 1;
      Greatest(NewestDate(rows[..n]), rows[n].reviewDate)
  }

  /** NewestDate is the largest review date present, and None exactly when no row has one. */
  lemma {:induction false} NewestDateIsLargest(rows: seq<Review>)
    ensures var r := NewestDate(rows);
      (r.None? <==> forall i :: 0 <= i < |rows| ==> rows[i].reviewDate.None?) &&
      (r.Some? ==> exists i :: 0 <= i < |rows| && rows[i].reviewDate == r) &&
      (forall i :: 0 <= i < |rows| && rows[i].reviewDate.Some? ==> r.Some? && rows[i].reviewDate.value <= r.value)
  {
    if rows != [] {
      var n := |rows| - 1;
      NewestDateIsLargest(rows[..n]);
      assert forall i :: 0 <= i < n ==> rows[..n][i] == rows[i];
      var r := NewestDate(rows);
      if r.Some? && r != rows[n].reviewDate {
        var i :| 0 <= i < n && rows[..n][i].reviewDate == r;
        assert rows[i].reviewDate == r;
      }
    }
  }

  /** The day an optional instant falls on, as midnight UTC. */
  function DayOf(t: Option<Time>): (r: Option<Time>)
    ensures r.None? <==> t.None?
    ensures r.Some? ==> r.value == TruncateToDay(t.value)
  {
    if t.None? then None else Some(TruncateToDay(t.value))
  }

  /**
   * One review of the latestInRun loop. When the running value is the day of the newest date
   * seen, it stays so: a later date moves it to that date's day, and a date between the day's
   * midnight and the newest date falls on the same day.
   */
  lemma LatestStep(seen: Option<Time>, latest: Option<Time>, d: Option<Time>)
    requires latest == DayOf(seen)
    ensures (if Supersedes(latest, d) then DayOf(d) else latest) == DayOf(Greatest(seen, d))
  {
    if seen.Some? && d.Some? {
      var m, x := seen.value, d.value;
      if x > latest.value && x <= m {
        SameDayBelow(m, x);
      }
    }
  }

  /** An instant between another's midnight and that instant falls on the same day. */
  lemma SameDayBelow(m: Time, x: Time)
    requires TruncateToDay(m) < x <= m
    ensures TruncateToDay(x) == TruncateToDay(m)
  {
    var t := TruncateToDay(m);
    assert t % DayMs == 0 && t <= x < t + DayMs;
    TruncateToDayUnique(x, t);
  }

  /** Seeing one more row of the page takes the newer of the newest date so far and its own. */
  lemma NewestDateSnoc(seen: seq<Review>, rows: seq<Review>, i: nat)
    requires i < |rows|
    ensures NewestDate(seen + rows[..i + 1]) == Greatest(NewestDate(seen + rows[..i]), rows[i].reviewDate)
  {
    var all := seen + rows[..i + 1];
    assert all[..|all| - 1] == seen + rows[..i];
    assert all[|all| - 1] == rows[i];
  }

  /**
   * The latestInRun loop over one page: it leaves the day of the newest date over everything
   * seen so far, the page included.
   */
  method AdvanceLatest(latest: Option<Time>, rows: seq<Review>, ghost seen: seq<Review>) returns (r: Option<Time>)
    requires latest == DayOf(NewestDate(seen))
    ensures r == DayOf(NewestDate(seen + rows))
  {
    r := latest;
    assert seen + rows[..0] == seen;
    for i := 0 to |rows|
      invariant r == DayOf(NewestDate(seen + rows[..i]))
    {
      NewestDateSnoc(seen, rows, i);
      LatestStep(NewestDate(seen + rows[..i]), r, rows[i].reviewDate);
      if Supersedes(r, rows[i].reviewDate) {
        r := DayOf(rows[i].reviewDate);
      }
    }
    assert rows[..|rows|] == rows;
  }

  /** Whether a page is near-duplicate: at least 90% of it is already stored. */
  predicate NearDuplicate(existing: nat, size: nat) {
    10 * existing >= 9 * size
  }

  /**
   * The page loop's state: the tables, the next page, the near-duplicate pages in a row, the
   * rows of the pages that brought something new, and, once the loop has ended, how
   * (Pass for a break, Fail for a returned error).
   */
  datatype Scan = Scan(reviews: map<string, Review>, round: nat, page: nat, dup: nat, newRows: seq<Review>,
                       stop: Option<Outcome>)

  /** The " branch=<id> page=<n>" part of the page loop's errors. */
  function PageLabel(branchId: string, page: nat): string {
    "branch=" + branchId + " page=" + Itoa(page)
  }

  /** One iteration of the page loop. */
  function ScanStep(api: ReviewsApi, faulty: set<nat>, cancelFrom: Option<nat>, branchId: string, sc: Scan): (r: Scan)
    requires sc.stop.None? && sc.page <= |Listing(api, branchId)|
    ensures r.round >= sc.round
    ensures r.stop.None? ==> r.page == sc.page + 1 && r.page <= |Listing(api, branchId)| && r.dup < DuplicatePageThreshold
  {
    var pageText := PageLabel(branchId, sc.page);
    if Canceled(cancelFrom, sc.round) then sc.(stop := Some(Fail(ContextCanceled)))
    else match PageAt(api, branchId, "", IncPageSize, sc.page)
      case FetchFailed(e) => sc.(stop := Some(Fail("fetch reviews " + pageText + ": " + e)))
      case ReviewsPage(rows, totalPages) =>
        if rows == [] then sc.(stop := Some(Pass))
        else StorePage(faulty, branchId, sc, rows, totalPages)
  }

  /**
   * An iteration with a non-empty page: count the page's ids already stored under the branch,
   * insert the page if absent, then tally it. Either database error ends the run.
   */
  function StorePage(faulty: set<nat>, branchId: string, sc: Scan, rows: seq<Review>, totalPages: int): (r: Scan)
    requires rows != []
    ensures r.round >= sc.round
    ensures r.stop.None? ==> r.page == sc.page + 1 && r.dup < DuplicatePageThreshold
  {
    var pageText := PageLabel(branchId, sc.page);
    if sc.round in faulty then
      sc.(round := sc.round + 1, stop := Some(Fail("count existing reviews " + pageText + ": " + ConnectionFault)))
    else Counted(faulty, branchId, sc.(round := sc.round + 1), rows, totalPages, |ExistingIds(sc.reviews, branchId, IdsOf(rows))|)
  }

  /** An iteration once the count answered `existing`: insert the page if absent, then tally it. */
  function Counted(faulty: set<nat>, branchId: string, sc: Scan, rows: seq<Review>, totalPages: int, existing: nat): (r: Scan)
    ensures r.round >= sc.round
    ensures r.stop.None? ==> r.page == sc.page + 1 && r.dup < DuplicatePageThreshold
  {
    var run := SendAll(ReviewsPolicy(), sc.reviews, ChunksOf(rows, ChunkSize), sc.round, faulty);
    SendAllRounds(ReviewsPolicy(), sc.reviews, ChunksOf(rows, ChunkSize), sc.round, faulty);
    if run.outcome.Fail? then
      sc.(reviews := run.table, round := run.round,
          stop := Some(Fail("upsert reviews " + PageLabel(branchId, sc.page) + ": " + run.outcome.msg)))
    else Tallied(sc, rows, totalPages, existing, run.table, run.round)
  }

  /**
   * The end of an iteration whose page was stored: a page with something new joins the run's
   * new rows; the near-duplicate count grows or restarts; the loop breaks after three
   * near-duplicate pages in a row or at the last page the reply announced.
   */
  function Tallied(sc: Scan, rows: seq<Review>, totalPages: int, existing: nat, reviews: map<string, Review>, round: nat): (r: Scan)
    ensures r.stop.None? ==> r.dup < DuplicatePageThreshold && (totalPages <= 0 || r.page < totalPages)
    ensures r.newRows == (if existing < |rows| then sc.newRows + rows else sc.newRows)
  {
    var dup := if NearDuplicate(existing, |rows|) then sc.dup + 1 else 0;
    var page := sc.page + 1;
    var ends := dup >= DuplicatePageThreshold || (totalPages > 0 && page >= totalPages);
    Scan(reviews, round, page, dup, if existing < |rows| then sc.newRows + rows else sc.newRows,
         if ends then Some(Pass) else None)
  }

  /** The page loop from sc until it breaks or returns. */
  function ScanFrom(api: ReviewsApi, faulty: set<nat>, cancelFrom: Option<nat>, branchId: string, sc: Scan): (r: Scan)
    requires sc.page <= |Listing(api, branchId)|
    ensures r.stop.Some? && r.round >= sc.round
    decreases if sc.stop.Some? then 0 else |Listing(api, branchId)| + 1 - sc.page
  {
    if sc.stop.Some? then sc
    else ScanFrom(api, faulty, cancelFrom, branchId, ScanStep(api, faulty, cancelFrom, branchId, sc))
  }

  /**
   * r is ScanStep from sc. (This and the predicates below state an equation through a
   * quantifier over the state, so that the flow is only unfolded where its term is looked at.)
   */
  ghost predicate Stepped(api: ReviewsApi, faulty: set<nat>, cancelFrom: Option<nat>, branchId: string, sc: Scan, r: Scan) {
    forall q | q == sc :: q.stop.None? && q.page <= |Listing(api, branchId)| && ScanStep(api, faulty, cancelFrom, branchId, q) == r
  }

  /** total is ScanFrom from sc. */
  ghost predicate Scanned(api: ReviewsApi, faulty: set<nat>, cancelFrom: Option<nat>, branchId: string, sc: Scan, total: Scan) {
    forall q | q == sc :: q.page <= |Listing(api, branchId)| && ScanFrom(api, faulty, cancelFrom, branchId, q) == total
  }

  /** One step of the loop keeps it on its way to the same end, and a step that stops is that end. */
  lemma ScanFromStep(api: ReviewsApi, faulty: set<nat>, cancelFrom: Option<nat>, branchId: string, sc: Scan, r: Scan, total: Scan)
    requires Stepped(api, faulty, cancelFrom, branchId, sc, r) && Scanned(api, faulty, cancelFrom, branchId, sc, total)
    ensures Scanned(api, faulty, cancelFrom, branchId, r, total)
    ensures r.stop.Some? ==> r == total
  {
    assert ScanStep(api, faulty, cancelFrom, branchId, sc) == r;
    assert ScanFrom(api, faulty, cancelFrom, branchId, sc) == total;
  }

  /** The tables of the run, the CSV batches it archived, and how it ended so far. */
  datatype IncRun = IncRun(reviews: map<string, Review>, watermarks: Watermarks, round: nat,
                           archived: seq<seq<Review>>, outcome: Outcome)

  /** The page loop of a branch from its start: page 0, no near-duplicate page, nothing new. */
  function BranchScan(api: ReviewsApi, faulty: set<nat>, cancelFrom: Option<nat>, branchId: string,
                      reviews: map<string, Review>, round: nat): (r: Scan)
    ensures r.stop.Some? && r.round >= round
  {
    ScanFrom(api, faulty, cancelFrom, branchId, Scan(reviews, round, 0, 0, [], None))
  }

  /** What a branch does once its page loop ended with sc and passed: archive and watermark. */
  function BranchFinish(faulty: set<nat>, branchId: string, r: IncRun, sc: Scan): (r': IncRun)
    ensures r'.round >= sc.round
  {
    var scanned := r.(reviews := sc.reviews, round := sc.round);
    if sc.newRows == [] then scanned
    else
      var kept := scanned.(archived := scanned.archived + [sc.newRows]);
      var latest := DayOf(NewestDate(sc.newRows));
      if latest.None? || IsZero(latest.value) then kept
      else if kept.round in faulty then
        kept.(round := kept.round + 1,
              outcome := Fail("update reviews_api watermark for " + branchId + ": " + ConnectionFault))
      else
        kept.(round := kept.round + 1, watermarks := Advanced(kept.watermarks, Key(ReviewsApiEntity, branchId), latest.value))
  }

  /**
   * One branch: an empty id is skipped; then MaxReviewDate (only its error matters), the page
   * loop, and, when some page brought something new, the CSV archive of those pages and the
   * reviews_api watermark advanced to the day of their newest review date.
   */
  function BranchSync(api: ReviewsApi, faulty: set<nat>, cancelFrom: Option<nat>, branchId: string, r: IncRun): (r': IncRun)
    ensures r'.round >= r.round
  {
    if branchId == "" then r
    else if r.round in faulty then
      r.(round := r.round + 1, outcome := Fail("max review_date for " + branchId + ": " + ConnectionFault))
    else
      var sc := BranchScan(api, faulty, cancelFrom, branchId, r.reviews, r.round + 1);
      if sc.stop.value.Fail? then r.(reviews := sc.reviews, round := sc.round, outcome := sc.stop.value)
      else BranchFinish(faulty, branchId, r, sc)
  }

  /** The run over the branches in configuration order; the first error ends it. */
  function BranchesSync(api: ReviewsApi, faulty: set<nat>, cancelFrom: Option<nat>, branches: seq<BranchConfig>, r: IncRun)
    : (r': IncRun)
    ensures r'.round >= r.round
    ensures r.outcome.Fail? ==> r' == r
    decreases |branches|
  {
    if branches == [] || r.outcome.Fail? then r
    else BranchesSync(api, faulty, cancelFrom, branches[1..], BranchSync(api, faulty, cancelFrom, branches[0].branchId, r))
  }

  /** r' is BranchSync from r. */
  ghost predicate BranchDone(api: ReviewsApi, faulty: set<nat>, cancelFrom: Option<nat>, branchId: string, r: IncRun, r': IncRun) {
    forall q | q == r :: BranchSync(api, faulty, cancelFrom, branchId, q) == r'
  }

  /** r' is BranchesSync from r. */
  ghost predicate RunDone(api: ReviewsApi, faulty: set<nat>, cancelFrom: Option<nat>, branches: seq<BranchConfig>, r: IncRun, r': IncRun) {
    forall q | q == r :: BranchesSync(api, faulty, cancelFrom, branches, q) == r'
  }

  /** After one more branch the rest of the run still ends where it did; a failed branch is that end. */
  lemma RunDoneStep(api: ReviewsApi, faulty: set<nat>, cancelFrom: Option<nat>, branches: seq<BranchConfig>, i: nat,
                    mid: IncRun, r': IncRun, total: IncRun)
    requires i < |branches| && mid.outcome.Pass?
    requires RunDone(api, faulty, cancelFrom, branches[i..], mid, total)
    requires BranchDone(api, faulty, cancelFrom, branches[i].branchId, mid, r')
    ensures RunDone(api, faulty, cancelFrom, branches[i + 1..], r', total)
    ensures r'.outcome.Fail? ==> r' == total
  {
    assert branches[i..][1..] == branches[i + 1..];
    assert BranchesSync(api, faulty, cancelFrom, branches[i..], mid) == total;
    assert BranchSync(api, faulty, cancelFrom, branches[i].branchId, mid) == r';
  }

  /**
   * RunIncrementalReviewsSync. The tables, the round trips, the archived CSV batches and the
   * error are BranchesSync's from the tables before the call.
   */
  method RunIncrementalReviewsSync(db: Db, api: ReviewsApi, branches: seq<BranchConfig>, cancelFrom: Option<nat>)
    returns (err: Outcome, archived: seq<seq<Review>>)
    modifies db`reviews, db`watermarks, db`round
    ensures RunDone(api, db.faulty, cancelFrom, branches, IncRun(old(db.reviews), old(db.watermarks), old(db.round), [], Pass),
                    IncRun(db.reviews, db.watermarks, db.round, archived, err))
  {
    ghost var r0 := IncRun(db.reviews, db.watermarks, db.round, [], Pass);
    ghost var total := BranchesSync(api, db.faulty, cancelFrom, branches, r0);
    archived := [];
    assert branches[0..] == branches;
    for i := 0 to |branches|
      invariant RunDone(api, db.faulty, cancelFrom, branches[i..], IncRun(db.reviews, db.watermarks, db.round, archived, Pass), total)
    {
      ghost var mid := IncRun(db.reviews, db.watermarks, db.round, archived, Pass);
      err, archived := SyncBranch(db, api, branches[i].branchId, cancelFrom, archived);
      RunDoneStep(api, db.faulty, cancelFrom, branches, i, mid, IncRun(db.reviews, db.watermarks, db.round, archived, err), total);
      if err.Fail? {
        return;
      }
    }
    assert BranchesSync(api, db.faulty, cancelFrom, branches[|branches|..], IncRun(db.reviews, db.watermarks, db.round, archived, Pass)) == total;
    return Pass, archived;
  }

  /** The loop body of RunIncrementalReviewsSync for one branch. */
  method SyncBranch(db: Db, api: ReviewsApi, branchId: string, cancelFrom: Option<nat>, archived0: seq<seq<Review>>)
    returns (err: Outcome, archived: seq<seq<Review>>)
    modifies db`reviews, db`watermarks, db`round
    ensures BranchDone(api, db.faulty, cancelFrom, branchId, IncRun(old(db.reviews), old(db.watermarks), old(db.round), archived0, Pass),
                       IncRun(db.reviews, db.watermarks, db.round, archived, err))
  {
    archived := archived0;
    if branchId == "" {
      return Pass, archived;
    }
    var last := MaxReviewDate(db, branchId);
    if last.Err? {
      return Fail("max review_date for " + branchId + ": " + last.msg), archived;
    }
    ghost var r1 := IncRun(old(db.reviews), old(db.watermarks), old(db.round), archived0, Pass);
    ghost var start := Scan(db.reviews, db.round, 0, 0, [], None);
    var newRows, latest;
    ghost var total;
    err, newRows, latest, total := ScanPages(db, api, branchId, cancelFrom);
    assert ScanFrom(api, db.faulty, cancelFrom, branchId, start) == total;
    if err.Fail? {
      return;
    }
    ghost var sc := Scan(db.reviews, db.round, total.page, total.dup, newRows, Some(Pass));
    assert total == sc;
    assert db.watermarks == old(db.watermarks);
    assert archived == archived0;
    label before:
    err, archived := FinishBranch(db, branchId, archived, newRows, latest);
    assert db.reviews == old@before(db.reviews);
    assert BranchFinish(db.faulty, branchId, r1, sc) == IncRun(db.reviews, db.watermarks, db.round, archived, err);
    assert BranchFinish(db.faulty, branchId, r1, total) == IncRun(db.reviews, db.watermarks, db.round, archived, err);
  }

  /** Archive and watermark of a branch whose page loop passed. */
  method FinishBranch(db: Db, branchId: string, archived0: seq<seq<Review>>, newRows: seq<Review>, latest: Option<Time>)
    returns (err: Outcome, archived: seq<seq<Review>>)
    requires latest == DayOf(NewestDate(newRows))
    modifies db`watermarks, db`round
    ensures forall reviews, round, page, dup ::
      BranchFinish(db.faulty, branchId, IncRun(reviews, old(db.watermarks), round, archived0, Pass),
                   Scan(db.reviews, old(db.round), page, dup, newRows, Some(Pass))) ==
      IncRun(db.reviews, db.watermarks, db.round, archived, err)
  {
    archived := archived0;
    if |newRows| == 0 {
      return Pass, archived;
    }
    archived := archived + [newRows];
    if latest.Some? {
      var e := UpsertLastUpdated(db, ReviewsApiEntity, branchId, latest.value);
      if e.Fail? {
        return Fail("update reviews_api watermark for " + branchId + ": " + e.msg), archived;
      }
    }
    err := Pass;
  }

  /**
   * The page loop of one branch. It returns the branch's outcome, the rows of the pages that
   * brought something new, and latestInRun, the day of their newest review date; total is
   * where ScanFrom ends from the branch's start.
   */
  method ScanPages(db: Db, api: ReviewsApi, branchId: string, cancelFrom: Option<nat>)
    returns (err: Outcome, newRows: seq<Review>, latest: Option<Time>, ghost total: Scan)
    modifies db`reviews, db`round
    ensures Scanned(api, db.faulty, cancelFrom, branchId, Scan(old(db.reviews), old(db.round), 0, 0, [], None), total)
    ensures total == Scan(db.reviews, db.round, total.page, total.dup, newRows, Some(err))
    ensures latest == DayOf(NewestDate(newRows))
  {
    var page, dup := 0, 0;
    newRows, latest := [], None;
    ghost var sc := Scan(db.reviews, db.round, page, dup, newRows, None);
    total := ScanFrom(api, db.faulty, cancelFrom, branchId, sc);
    while true
      invariant sc == Scan(db.reviews, db.round, page, dup, newRows, None)
      invariant page <= |Listing(api, branchId)|
      invariant Scanned(api, db.faulty, cancelFrom, branchId, sc, total)
      invariant latest == DayOf(NewestDate(newRows))
      decreases |Listing(api, branchId)| + 1 - page
    {
      var stop;
      page, dup, newRows, latest, stop := PageStep(db, api, branchId, cancelFrom, page, dup, newRows, latest);
      ghost var next := Scan(db.reviews, db.round, page, dup, newRows, stop);
      ScanFromStep(api, db.faulty, cancelFrom, branchId, sc, next, total);
      if stop.Some? {
        return stop.value, newRows, latest, total;
      }
      sc := next;
    }
  }

  /** One iteration of the page loop, as ScanStep says. */
  method PageStep(db: Db, api: ReviewsApi, branchId: string, cancelFrom: Option<nat>, page: nat, dup: nat,
                  newRows: seq<Review>, latest: Option<Time>)
    returns (page': nat, dup': nat, newRows': seq<Review>, latest': Option<Time>, stop: Option<Outcome>)
    requires page <= |Listing(api, branchId)| && latest == DayOf(NewestDate(newRows))
    modifies db`reviews, db`round
    ensures Stepped(api, db.faulty, cancelFrom, branchId, Scan(old(db.reviews), old(db.round), page, dup, newRows, None),
                    Scan(db.reviews, db.round, page', dup', newRows', stop))
    ensures stop.None? ==> page' <= |Listing(api, branchId)| && page' == page + 1
    ensures latest' == DayOf(NewestDate(newRows'))
  {
    page', dup', newRows', latest' := page, dup, newRows, latest;
    var pageText := PageLabel(branchId, page);
    if Canceled(cancelFrom, db.round) {
      return page', dup', newRows', latest', Some(Fail(ContextCanceled));
    }
    var reply := PageAt(api, branchId, "", IncPageSize, page);
    if reply.FetchFailed? {
      return page', dup', newRows', latest', Some(Fail("fetch reviews " + pageText + ": " + reply.msg));
    }
    var rows := reply.rows;
    if |rows| == 0 {
      return page', dup', newRows', latest', Some(Pass);
    }
    page', dup', newRows', latest', stop := StoreRows(db, branchId, page, dup, newRows, latest, rows, reply.totalPages);
  }

  /** The part of an iteration after a non-empty page arrived, as StorePage says. */
  method StoreRows(db: Db, branchId: string, page: nat, dup: nat, newRows: seq<Review>, latest: Option<Time>,
                   rows: seq<Review>, totalPages: int)
    returns (page': nat, dup': nat, newRows': seq<Review>, latest': Option<Time>, stop: Option<Outcome>)
    requires rows != [] && latest == DayOf(NewestDate(newRows))
    modifies db`reviews, db`round
    ensures StorePage(db.faulty, branchId, Scan(old(db.reviews), old(db.round), page, dup, newRows, None), rows, totalPages) ==
            Scan(db.reviews, db.round, page', dup', newRows', stop)
    ensures latest' == DayOf(NewestDate(newRows'))
  {
    page', dup', newRows', latest' := page, dup, newRows, latest;
    var pageText := PageLabel(branchId, page);
    var existing := CountExistingByIDs(db, branchId, IdsOf(rows));
    if existing.Err? {
      return page', dup', newRows', latest', Some(Fail("count existing reviews " + pageText + ": " + existing.msg));
    }
    page', dup', newRows', latest', stop := UpsertPage(db, branchId, page, dup, newRows, latest, rows, totalPages, existing.value);
  }

  /** The part of an iteration after the count, as Counted says. */
  method UpsertPage(db: Db, branchId: string, page: nat, dup: nat, newRows: seq<Review>, latest: Option<Time>,
                    rows: seq<Review>, totalPages: int, existing: nat)
    returns (page': nat, dup': nat, newRows': seq<Review>, latest': Option<Time>, stop: Option<Outcome>)
    requires latest == DayOf(NewestDate(newRows))
    modifies db`reviews, db`round
    ensures Counted(db.faulty, branchId, Scan(old(db.reviews), old(db.round), page, dup, newRows, None), rows, totalPages, existing) ==
            Scan(db.reviews, db.round, page', dup', newRows', stop)
    ensures latest' == DayOf(NewestDate(newRows'))
  {
    page', dup', newRows', latest' := page, dup, newRows, latest;
    var e := UpsertMany(db, rows);
    if e.Fail? {
      return page', dup', newRows', latest', Some(Fail("upsert reviews " + PageLabel(branchId, page) + ": " + e.msg));
    }
    page', dup', newRows', latest', stop := Tally(page, dup, newRows, latest, rows, totalPages, existing);
  }

  /** The end of an iteration whose page was stored, as Tallied says, with latestInRun kept up. */
  method Tally(page: nat, dup: nat, newRows: seq<Review>, latest: Option<Time>, rows: seq<Review>, totalPages: int, existing: nat)
    returns (page': nat, dup': nat, newRows': seq<Review>, latest': Option<Time>, stop: Option<Outcome>)
    requires latest == DayOf(NewestDate(newRows))
    ensures forall reviews, round :: Tallied(Scan(reviews, round, page, dup, newRows, None), rows, totalPages, existing, reviews, round)
                                     == Scan(reviews, round, page', dup', newRows', stop)
    ensures latest' == DayOf(NewestDate(newRows'))
  {
    newRows', latest' := newRows, latest;
    if existing < |rows| {
      latest' := AdvanceLatest(latest, rows, newRows);
      newRows' := newRows + rows;
    }
    dup' := if NearDuplicate(existing, |rows|) then dup + 1 else 0;
    page' := page + 1;
    if dup' >= DuplicatePageThreshold || (totalPages > 0 && page' >= totalPages) {
      stop := Some(Pass);
    } else {
      stop := None;
    }
  }

  // ---- what the run promises ----

  /** A stored review is kept, unchanged, by a map that agrees with the old one on its keys. */
  ghost predicate KeepsStored(before: map<string, Review>, after: map<string, Review>) {
    forall id :: id in before ==> id in after && after[id] == before[id]
  }

  /** One iteration of the page loop never changes a stored review. */
  lemma StepKeepsStored(api: ReviewsApi, faulty: set<nat>, cancelFrom: Option<nat>, branchId: string, sc: Scan)
    requires sc.stop.None? && sc.page <= |Listing(api, branchId)|
    ensures KeepsStored(sc.reviews, ScanStep(api, faulty, cancelFrom, branchId, sc).reviews)
  {
    match PageAt(api, branchId, "", IncPageSize, sc.page)
    case FetchFailed(_) =>
    case ReviewsPage(rows, tp) =>
      if rows != [] && sc.round !in faulty {
        CountedKeepsStored(faulty, branchId, sc.(round := sc.round + 1), rows, tp,
                           |ExistingIds(sc.reviews, branchId, IdsOf(rows))|);
      }
  }

  /** Storing a counted page never changes a stored review. */
  lemma CountedKeepsStored(faulty: set<nat>, branchId: string, sc: Scan, rows: seq<Review>, totalPages: int, existing: nat)
    ensures KeepsStored(sc.reviews, Counted(faulty, branchId, sc, rows, totalPages, existing).reviews)
  {
    UpsertManyKeepsStored(sc.reviews, rows, sc.round, faulty);
  }

  /** The page loop never changes a stored review, whatever fails on the way. */
  lemma {:induction false} ScanKeepsStored(api: ReviewsApi, faulty: set<nat>, cancelFrom: Option<nat>, branchId: string, sc: Scan)
    requires sc.page <= |Listing(api, branchId)|
    ensures KeepsStored(sc.reviews, ScanFrom(api, faulty, cancelFrom, branchId, sc).reviews)
    decreases if sc.stop.Some? then 0 else |Listing(api, branchId)| + 1 - sc.page
  {
    if sc.stop.None? {
      var next := ScanStep(api, faulty, cancelFrom, branchId, sc);
      StepKeepsStored(api, faulty, cancelFrom, branchId, sc);
      ScanKeepsStored(api, faulty, cancelFrom, branchId, next);
    }
  }

  /** A branch never changes a stored review. */
  lemma BranchKeepsStored(api: ReviewsApi, faulty: set<nat>, cancelFrom: Option<nat>, branchId: string, r: IncRun)
    ensures KeepsStored(r.reviews, BranchSync(api, faulty, cancelFrom, branchId, r).reviews)
  {
    if branchId != "" && r.round !in faulty {
      ScanKeepsStored(api, faulty, cancelFrom, branchId, Scan(r.reviews, r.round + 1, 0, 0, [], None));
    }
  }

  /**
   * After a page loop that passed, a branch archives a batch, and changes the watermarks,
   * only when there were new rows: the batch is those rows, and the watermarks change only by
   * advancing reviews_api/<branch> to the day of the newest review date among them.
   */
  lemma FinishWrites(faulty: set<nat>, branchId: string, r: IncRun, sc: Scan)
    ensures var r' := BranchFinish(faulty, branchId, r, sc);
      r'.archived != r.archived ==> sc.newRows != [] && r'.archived == r.archived + [sc.newRows]
    ensures var r' := BranchFinish(faulty, branchId, r, sc);
      r'.watermarks != r.watermarks ==>
        NewestDate(sc.newRows).Some? &&
        r'.watermarks == Advanced(r.watermarks, Key(ReviewsApiEntity, branchId), TruncateToDay(NewestDate(sc.newRows).value))
  {
  }

  /** The same for a whole branch: nothing is archived or advanced unless its page loop passed. */
  lemma BranchWrites(api: ReviewsApi, faulty: set<nat>, cancelFrom: Option<nat>, branchId: string, r: IncRun)
    ensures var r' := BranchSync(api, faulty, cancelFrom, branchId, r);
      var sc := BranchScan(api, faulty, cancelFrom, branchId, r.reviews, r.round + 1);
      (r'.archived != r.archived || r'.watermarks != r.watermarks) ==>
        branchId != "" && r.round !in faulty && sc.stop == Some(Pass) && r' == BranchFinish(faulty, branchId, r, sc)
  {
  }

  /**
   * The whole run never changes a stored review; it never moves a watermark back, and it
   * touches no watermark outside reviews_api.
   */
  lemma {:induction false} RunEffects(api: ReviewsApi, faulty: set<nat>, cancelFrom: Option<nat>, branches: seq<BranchConfig>, r: IncRun)
    ensures KeepsStored(r.reviews, BranchesSync(api, faulty, cancelFrom, branches, r).reviews)
    ensures var r' := BranchesSync(api, faulty, cancelFrom, branches, r);
      forall k :: AtLeast(Lookup(r'.watermarks, k), Lookup(r.watermarks, k)) &&
                  (k.entity != ReviewsApiEntity ==> Lookup(r'.watermarks, k) == Lookup(r.watermarks, k))
    decreases |branches|
  {
    if branches != [] && r.outcome.Pass? {
      var id := branches[0].branchId;
      var mid := BranchSync(api, faulty, cancelFrom, id, r);
      RunEffects(api, faulty, cancelFrom, branches[1..], mid);
      BranchKeepsStored(api, faulty, cancelFrom, id, r);
      BranchWrites(api, faulty, cancelFrom, id, r);
      var sc := BranchScan(api, faulty, cancelFrom, id, r.reviews, r.round + 1);
      FinishWrites(faulty, id, r, sc);
      forall k
        ensures AtLeast(Lookup(mid.watermarks, k), Lookup(r.watermarks, k)) &&
                (k.entity != ReviewsApiEntity ==> Lookup(mid.watermarks, k) == Lookup(r.watermarks, k))
      {
        if mid.watermarks != r.watermarks {
          AdvancedMonotone(r.watermarks, Key(ReviewsApiEntity, id), TruncateToDay(NewestDate(sc.newRows).value), k);
        }
      }
    }
  }
}
