/**
 * The reviews API syncs that need no watermark of their own: SyncReviewsFromAPI pages
 * through every branch's reviews, handing the fetch the latest review date stored for the
 * branch as its `since` argument, and SyncLatestReviewsFromAPI fetches each branch's latest
 * n reviews. Both insert-if-absent
 * what they fetch, contain every failure within its branch, and always return nil.
 *
 * The reviews API is an oracle: for a branch, a `since` date and a page size it holds a
 * finite listing of replies, page k being the k-th; past the end of the listing it answers
 * an empty page with no pages in total. The review client puts no date filter into the
 * request (internal/phorest/review_client.go:72-80), so with that client the listing is the
 * same for every `since`; nothing proved here relies on `since` filtering anything.
 */
module ReviewsSync {
  import opened Wrappers
  import opened Clock
  import opened Records
  import opened Chunks
  import opened Upserts
  import opened Store
  import opened ReviewsRepo

  /** What one page request answers: a transport or decoding error, or a page of reviews and the page count. */
  datatype ReviewsReply = FetchFailed(msg: string) | ReviewsPage(rows: seq<Review>, totalPages: int)

  /** The reviews API: the page listings, and the latest-n request. */
  datatype ReviewsApi = ReviewsApi(
    listing: (string, string, nat) -> seq<ReviewsReply>,  // branch id, since, page size
    latest: (string, int) -> Result<seq<Review>>)          // branch id, n

  /** The page size SyncReviewsFromAPI asks for. */
  const SyncPageSize: nat := 200

  /** FetchReviews(branchId, since, page, size). */
  function PageAt(api: ReviewsApi, branchId: string, since: string, size: nat, page: nat): (r: ReviewsReply)
    ensures page >= |api.listing(branchId, since, size)| ==> r == ReviewsPage([], 0)
  {
    var l := api.listing(branchId, since, size);
    if page < |l| then l[page] else ReviewsPage([], 0)
  }

  /** valueOrEmpty: a missing string reads as the empty one. */
  function ValueOrEmpty(p: Option<string>): (r: string)
    ensures p.Some? ==> r == p.value
    ensures p.None? ==> r == ""
  {
    if p.None? then "" else p.value
  }

  /** The reviews table and the round-trip counter. */
  datatype ReviewsState = ReviewsState(reviews: map<string, Review>, round: nat)

  /** The page loop's measure: the pages of the listing not yet requested, plus the request past its end. */
  function PagesLeft(api: ReviewsApi, branchId: string, since: string, size: nat, page: nat): nat {
    var n := |api.listing(branchId, since, size)|;
    if page <= n then n + 1 - page else 0
  }

  /**
   * The page loop of one branch from page `page` while page < totalPages: a fetch error or
   * an upsert error ends it; an empty page is skipped; every other page is upserted in full.
   * Each reply's page count replaces totalPages.
   */
  function SyncPages(api: ReviewsApi, faulty: set<nat>, branchId: string, since: string, s: ReviewsState,
                     page: nat, totalPages: int): (r: ReviewsState)
    requires page > |api.listing(branchId, since, SyncPageSize)| ==> totalPages <= page
    ensures r.round >= s.round
    decreases PagesLeft(api, branchId, since, SyncPageSize, page)
  {
    if page >= totalPages then s
    else match PageAt(api, branchId, since, SyncPageSize, page)
      case FetchFailed(_) => s
      case ReviewsPage(rows, tp) =>
        if rows == [] then SyncPages(api, faulty, branchId, since, s, page + 1, tp)
        else
          var run := SendAll(ReviewsPolicy(), s.reviews, ChunksOf(rows, ChunkSize), s.round, faulty);
          SendAllRounds(ReviewsPolicy(), s.reviews, ChunksOf(rows, ChunkSize), s.round, faulty);
          if run.outcome.Fail? then ReviewsState(run.table, run.round)
          else SyncPages(api, faulty, branchId, since, ReviewsState(run.table, run.round), page + 1, tp)
  }

  /** The `since` argument a branch's fetches receive: its latest stored review date, or "". */
  ghost function SinceOf(reviews: map<string, Review>, branchId: string): string {
    ValueOrEmpty(DateText(LatestReviewDate(reviews, branchId)))
  }

  /**
   * One branch of SyncReviewsFromAPI: an empty branch id is skipped; a failed MaxReviewDate
   * skips the branch; otherwise its pages from page 0, with a page count of one to start with,
   * each fetch being handed the branch's latest stored review date as `since`.
   */
  ghost function SyncBranchReviews(api: ReviewsApi, faulty: set<nat>, branchId: string, s: ReviewsState): (r: ReviewsState)
    ensures r.round >= s.round
  {
    if branchId == "" then s
    else if s.round in faulty then ReviewsState(s.reviews, s.round + 1)
    else SyncPages(api, faulty, branchId, SinceOf(s.reviews, branchId), ReviewsState(s.reviews, s.round + 1), 0, 1)
  }

  /** SyncReviewsFromAPI over the branches, in configuration order. */
  ghost function SyncReviewsOver(api: ReviewsApi, faulty: set<nat>, branches: seq<BranchConfig>, s: ReviewsState): ReviewsState
    decreases |branches|
  {
    if branches == [] then s
    else
      var n := |branches| - 1;
      SyncBranchReviews(api, faulty, branches[n].branchId, SyncReviewsOver(api, faulty, branches[..n], s))
  }

  /**
   * SyncReviewsFromAPI. Every branch is visited whatever happened to the ones before it,
   * and the call returns nil.
   */
  method SyncReviewsFromAPI(db: Db, api: ReviewsApi, branches: seq<BranchConfig>) returns (err: Outcome)
    modifies db`reviews, db`round
    ensures err == Pass
    ensures ReviewsState(db.reviews, db.round) == SyncReviewsOver(api, db.faulty, branches, ReviewsState(old(db.reviews), old(db.round)))
  {
    ghost var s0 := ReviewsState(db.reviews, db.round);
    for i := 0 to |branches|
      invariant ReviewsState(db.reviews, db.round) == SyncReviewsOver(api, db.faulty, branches[..i], s0)
    {
      SyncBranch(db, api, branches[i].branchId);
      assert branches[..i + 1][..i] == branches[..i];
    }
    assert branches[..|branches|] == branches;
    return Pass;
  }

  /** The loop body of SyncReviewsFromAPI for one branch. */
  method SyncBranch(db: Db, api: ReviewsApi, branchId: string)
    modifies db`reviews, db`round
    ensures ReviewsState(db.reviews, db.round) == SyncBranchReviews(api, db.faulty, branchId, ReviewsState(old(db.reviews), old(db.round)))
  {
    if branchId == "" {
      return;
    }
    var since := MaxReviewDate(db, branchId);
    if since.Err? {
      return;
    }
    SyncPagesLoop(db, api, branchId, ValueOrEmpty(since.value));
  }

  /** The page loop of one branch: page 0 first, with a page count of one until a reply says otherwise. */
  method SyncPagesLoop(db: Db, api: ReviewsApi, branchId: string, since: string)
    modifies db`reviews, db`round
    ensures ReviewsState(db.reviews, db.round) == SyncPages(api, db.faulty, branchId, since, ReviewsState(old(db.reviews), old(db.round)), 0, 1)
  {
    ghost var n := |api.listing(branchId, since, SyncPageSize)|;
    ghost var total := SyncPages(api, db.faulty, branchId, since, ReviewsState(db.reviews, db.round), 0, 1);
    var page: nat, totalPages := 0, 1;
    while page < totalPages
      invariant page > n ==> totalPages <= page
      invariant total == SyncPages(api, db.faulty, branchId, since, ReviewsState(db.reviews, db.round), page, totalPages)
      decreases PagesLeft(api, branchId, since, SyncPageSize, page)
    {
      var reply := PageAt(api, branchId, since, SyncPageSize, page);
      if reply.FetchFailed? {
        return;
      }
      totalPages := reply.totalPages;
      if |reply.rows| == 0 {
        page := page + 1;
        continue;
      }
      var e := UpsertMany(db, reply.rows);
      if e.Fail? {
        return;
      }
      page := page + 1;
    }
  }

  /** Every stored review is still stored, unchanged. */
  ghost predicate Kept(before: map<string, Review>, after: map<string, Review>) {
    forall id :: id in before ==> id in after && after[id] == before[id]
  }

  /** A stored review is never changed by a branch's page loop, whatever fails on the way. */
  lemma {:induction false} SyncPagesKeepsStored(api: ReviewsApi, faulty: set<nat>, branchId: string, since: string,
                                                s: ReviewsState, page: nat, totalPages: int)
    requires page > |api.listing(branchId, since, SyncPageSize)| ==> totalPages <= page
    ensures Kept(s.reviews, SyncPages(api, faulty, branchId, since, s, page, totalPages).reviews)
    decreases PagesLeft(api, branchId, since, SyncPageSize, page)
  {
    if page < totalPages {
      var reply := PageAt(api, branchId, since, SyncPageSize, page);
      if reply.ReviewsPage? {
        if reply.rows == [] {
          SyncPagesKeepsStored(api, faulty, branchId, since, s, page + 1, reply.totalPages);
        } else {
          var run := SendAll(ReviewsPolicy(), s.reviews, ChunksOf(reply.rows, ChunkSize), s.round, faulty);
          UpsertManyKeepsStored(s.reviews, reply.rows, s.round, faulty);
          if run.outcome.Pass? {
            SyncPagesKeepsStored(api, faulty, branchId, since, ReviewsState(run.table, run.round), page + 1, reply.totalPages);
          }
        }
      }
    }
  }

  /** The listing of a branch is all pages, each agreeing that the listing is the whole count. */
  ghost predicate WellPaged(l: seq<ReviewsReply>) {
    forall k :: 0 <= k < |l| ==> l[k].ReviewsPage? && l[k].totalPages == |l|
  }

  /**
   * One non-empty page of a well-paged listing whose loop is clean from s: its upsert passes,
   * stores every row of the page, and the loop runs on from the next page with clean round trips.
   */
  lemma PageStored(api: ReviewsApi, faulty: set<nat>, branchId: string, since: string, s: ReviewsState, page: nat)
    returns (next: ReviewsState)
    requires var l := api.listing(branchId, since, SyncPageSize);
      page < |l| && WellPaged(l) && l[page].rows != []
    requires var l := api.listing(branchId, since, SyncPageSize);
      Clean(faulty, s.round, SyncPages(api, faulty, branchId, since, s, page, |l|).round)
    ensures var l := api.listing(branchId, since, SyncPageSize);
      SyncPages(api, faulty, branchId, since, s, page, |l|) == SyncPages(api, faulty, branchId, since, next, page + 1, |l|)
    ensures var l := api.listing(branchId, since, SyncPageSize);
      Clean(faulty, next.round, SyncPages(api, faulty, branchId, since, next, page + 1, |l|).round)
    ensures var rows := api.listing(branchId, since, SyncPageSize)[page].rows;
      forall i :: 0 <= i < |rows| ==> rows[i].reviewId in next.reviews
  {
    var l := api.listing(branchId, since, SyncPageSize);
    var rows := l[page].rows;
    var run := SendAll(ReviewsPolicy(), s.reviews, ChunksOf(rows, ChunkSize), s.round, faulty);
    next := ReviewsState(run.table, run.round);
    ChunksFailOnFault(s.reviews, ChunksOf(rows, ChunkSize), s.round, faulty);
    SendAllRounds(ReviewsPolicy(), s.reviews, ChunksOf(rows, ChunkSize), s.round, faulty);
    assert run.outcome.Pass?;
    UpsertManyStoresAll(s.reviews, rows, s.round, faulty);
  }

  /** Every review listed on the pages from `page` on has its id stored. */
  ghost predicate ListedStored(l: seq<ReviewsReply>, page: nat, reviews: map<string, Review>) {
    forall k, i :: page <= k < |l| && l[k].ReviewsPage? && 0 <= i < |l[k].rows| ==> l[k].rows[i].reviewId in reviews
  }

  /**
   * When every reply of the listing is a page that agrees on the page count, and no round
   * trip of the loop fails, the loop stores every review listed from `page` on: reviews
   * are insert-if-absent, so each listed id ends up stored.
   */
  lemma {:induction false} SyncPagesStoresAll(api: ReviewsApi, faulty: set<nat>, branchId: string, since: string,
                                              s: ReviewsState, page: nat)
    requires var l := api.listing(branchId, since, SyncPageSize);
      page <= |l| && WellPaged(l)
    requires var l := api.listing(branchId, since, SyncPageSize);
      Clean(faulty, s.round, SyncPages(api, faulty, branchId, since, s, page, |l|).round)
    ensures var l := api.listing(branchId, since, SyncPageSize);
      ListedStored(l, page, SyncPages(api, faulty, branchId, since, s, page, |l|).reviews)
    decreases PagesLeft(api, branchId, since, SyncPageSize, page)
  {
    var l := api.listing(branchId, since, SyncPageSize);
    if page < |l| {
      var r := SyncPages(api, faulty, branchId, since, s, page, |l|);
      if l[page].rows == [] {
        assert r == SyncPages(api, faulty, branchId, since, s, page + 1, |l|);
        SyncPagesStoresAll(api, faulty, branchId, since, s, page + 1);
      } else {
        var next := PageStored(api, faulty, branchId, since, s, page);
        assert r == SyncPages(api, faulty, branchId, since, next, page + 1, |l|);
        SyncPagesStoresAll(api, faulty, branchId, since, next, page + 1);
        SyncPagesKeepsStored(api, faulty, branchId, since, next, page + 1, |l|);
        assert Kept(next.reviews, r.reviews);
        assert ListedStored(l, page + 1, r.reviews);
      }
    }
  }

  /** One branch of SyncReviewsFromAPI never changes a stored review. */
  lemma BranchKeepsStored(api: ReviewsApi, faulty: set<nat>, branchId: string, s: ReviewsState)
    ensures Kept(s.reviews, SyncBranchReviews(api, faulty, branchId, s).reviews)
  {
    if branchId != "" && s.round !in faulty {
      var since := SinceOf(s.reviews, branchId);
      var s1 := ReviewsState(s.reviews, s.round + 1);
      assert SyncBranchReviews(api, faulty, branchId, s) == SyncPages(api, faulty, branchId, since, s1, 0, 1);
      SyncPagesKeepsStored(api, faulty, branchId, since, s1, 0, 1);
    }
  }

  /** SyncReviewsFromAPI never changes a stored review, whatever fails in whichever branch. */
  lemma {:induction false} SyncReviewsOverKeepsStored(api: ReviewsApi, faulty: set<nat>, branches: seq<BranchConfig>, s: ReviewsState)
    ensures Kept(s.reviews, SyncReviewsOver(api, faulty, branches, s).reviews)
    decreases |branches|
  {
    if branches != [] {
      var n := |branches| - 1;
      var mid := SyncReviewsOver(api, faulty, branches[..n], s);
      SyncReviewsOverKeepsStored(api, faulty, branches[..n], s);
      BranchKeepsStored(api, faulty, branches[n].branchId, mid);
    }
  }

  // ---- the latest n reviews ----

  /** One branch of SyncLatestReviewsFromAPI: a fetch error or an empty answer skips it; otherwise one UpsertMany. */
  function LatestBranch(api: ReviewsApi, faulty: set<nat>, branchId: string, n: int, s: ReviewsState): (r: ReviewsState)
    ensures r.round >= s.round
  {
    if branchId == "" then s
    else match api.latest(branchId, n)
      case Err(_) => s
      case Ok(rows) =>
        if rows == [] then s
        else
          var run := SendAll(ReviewsPolicy(), s.reviews, ChunksOf(rows, ChunkSize), s.round, faulty);
          SendAllRounds(ReviewsPolicy(), s.reviews, ChunksOf(rows, ChunkSize), s.round, faulty);
          ReviewsState(run.table, run.round)
  }

  /** SyncLatestReviewsFromAPI over the branches, in configuration order. */
  function LatestOver(api: ReviewsApi, faulty: set<nat>, branches: seq<BranchConfig>, n: int, s: ReviewsState): (r: ReviewsState)
    ensures r.round >= s.round
    decreases |branches|
  {
    if branches == [] then s
    else
      var k := |branches| - 1;
      LatestBranch(api, faulty, branches[k].branchId, n, LatestOver(api, faulty, branches[..k], n, s))
  }

  /** SyncLatestReviewsFromAPI: every branch is visited, and the call returns nil. */
  method SyncLatestReviewsFromAPI(db: Db, api: ReviewsApi, branches: seq<BranchConfig>, n: int) returns (err: Outcome)
    modifies db`reviews, db`round
    ensures err == Pass
    ensures ReviewsState(db.reviews, db.round) == LatestOver(api, db.faulty, branches, n, ReviewsState(old(db.reviews), old(db.round)))
  {
    ghost var s0 := ReviewsState(db.reviews, db.round);
    for i := 0 to |branches|
      invariant ReviewsState(db.reviews, db.round) == LatestOver(api, db.faulty, branches[..i], n, s0)
    {
      assert branches[..i + 1][..i] == branches[..i];
      var b := branches[i];
      if b.branchId == "" {
        continue;
      }
      var rows := api.latest(b.branchId, n);
      if rows.Err? || |rows.value| == 0 {
        continue;
      }
      var _ := UpsertMany(db, rows.value);
    }
    assert branches[..|branches|] == branches;
    return Pass;
  }

  /**
   * SyncLatestReviewsFromAPI never changes a stored review, and when none of its round trips
   * fails every review the API answered for a branch with a non-empty id is stored.
   */
  lemma {:induction false} LatestOverStores(api: ReviewsApi, faulty: set<nat>, branches: seq<BranchConfig>, n: int, s: ReviewsState)
    ensures var r := LatestOver(api, faulty, branches, n, s);
      forall id :: id in s.reviews ==> id in r.reviews && r.reviews[id] == s.reviews[id]
    ensures var r := LatestOver(api, faulty, branches, n, s);
      Clean(faulty, s.round, r.round) ==>
        forall j, i :: 0 <= j < |branches| && branches[j].branchId != "" && api.latest(branches[j].branchId, n).Ok? &&
                       0 <= i < |api.latest(branches[j].branchId, n).value| ==>
                         api.latest(branches[j].branchId, n).value[i].reviewId in r.reviews
    decreases |branches|
  {
    if branches != [] {
      var k := |branches| - 1;
      var mid := LatestOver(api, faulty, branches[..k], n, s);
      LatestOverStores(api, faulty, branches[..k], n, s);
      var r := LatestOver(api, faulty, branches, n, s);
      assert r == LatestBranch(api, faulty, branches[k].branchId, n, mid);
      var id := branches[k].branchId;
      if id != "" && api.latest(id, n).Ok? && api.latest(id, n).value != [] {
        var rows := api.latest(id, n).value;
        UpsertManyKeepsStored(mid.reviews, rows, mid.round, faulty);
        if Clean(faulty, s.round, r.round) {
          assert Clean(faulty, mid.round, r.round);
          UpsertManyStoresAll(mid.reviews, rows, mid.round, faulty);
        }
      }
    }
  }
}
