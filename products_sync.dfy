/**
 * SyncProductsFromAPI: for every configured branch in turn, read its products_api
 * watermark, page through the branch's product listing (the products updated in the window
 * from the watermark to now, or all of them without one), write each product to ph_products,
 * its branch stock to ph_product_stock and, when the quantity changed, a row to
 * ph_product_stock_history; then advance the watermark to the newest updatedAt seen. The
 * first error of any kind ends the whole sync.
 */
module ProductsSync {
  import opened Wrappers
  import opened Clock
  import opened Records
  import opened Upserts
  import opened Store
  import opened WatermarksRepo
  import opened ProductsClient
  import ProductsRepo
  import StockRepo

  const ProductsApiEntity: string := "products_api"

  /** The page size the branch loop asks for. */
  const BranchPageSize: int := 100

  /** The source every history row of the sync is written with. */
  const HistorySource: string := "sync"

  /**
   * The product listing of the API: for a branch, a product type and a window, the answer
   * to each page in turn. The listing is finite: past its end the API answers an empty page.
   */
  datatype ProductsApi = ProductsApi(listing: (string, string, Option<Time>, Option<Time>) -> seq<HttpReply>)

  /** The answer past the end of a listing: an empty page. */
  const EmptyPage: HttpReply := HttpResponse(200, "", Ok(ProductsPage([], 0, 0, 0, 0)))

  function ReplyAt(replies: seq<HttpReply>, page: nat): HttpReply {
    if page < |replies| then replies[page] else EmptyPage
  }

  // ---- processProductRecord: the rows one product becomes ----

  /** An optional text column: set only when the text is non-empty. */
  function TextOpt(s: string): Option<string> {
    if s == "" then None else Some(s)
  }

  /** An optional number column: set only when the number is non-zero. */
  function RealOpt(x: real): Option<real> {
    if x == 0.0 then None else Some(x)
  }

  /** The ph_products row of a listed product (the barcode is not kept). */
  function ProductOf(pp: PhorestProduct): PhProduct {
    PhProduct(pp.productId, TextOpt(pp.parentProductId), pp.name, TextOpt(pp.brandId), TextOpt(pp.brandName),
              TextOpt(pp.categoryId), TextOpt(pp.categoryName), TextOpt(pp.code), TextOpt(pp.productType),
              RealOpt(pp.measurementQuantity), TextOpt(pp.measurementUnit), pp.archived,
              Some(pp.createdAt), Some(pp.updatedAt))
  }

  /** The ph_product_stock row of a listed product at a branch, before the sync stamp. */
  function StockOf(pp: PhorestProduct, branchId: string): PhProductStock {
    PhProductStock(pp.productId, branchId, RealOpt(pp.price), RealOpt(pp.minQuantity), RealOpt(pp.maxQuantity),
                   Some(pp.quantityInStock), RealOpt(pp.reorderCount), RealOpt(pp.reorderCost), pp.archived,
                   Some(pp.createdAt), Some(pp.updatedAt), 0)
  }

  /** The history decision: log when there was no stock row, or its quantity and the new one differ. */
  predicate ShouldLogHistory(existing: Option<PhProductStock>, newQty: Option<real>) {
    if existing.None? then true
    else
      var oldQty := existing.value.quantityInStock;
      (oldQty.None? && newQty.Some?) || (oldQty.Some? && newQty.None?) ||
      (oldQty.Some? && newQty.Some? && oldQty.value != newQty.value)
  }

  /** The history row for a new stock row: its quantity and price, at now, from the sync. */
  function HistoryOf(pp: PhorestProduct, branchId: string, newStock: PhProductStock, now: Time): PhProductStockHistory {
    PhProductStockHistory(pp.productId, branchId, now, newStock.quantityInStock, newStock.price, HistorySource)
  }

  /** The stored stock row under k, if any: what GetByProductAndBranch answers. */
  function Prior(stock: map<StockKey, PhProductStock>, k: StockKey): Option<PhProductStock> {
    if k in stock then Some(stock[k]) else None
  }

  /** The tables the sync touches, the round-trip counter, and the answer so far. */
  datatype PRun = PRun(
    watermarks: map<WatermarkKey, Option<Time>>,
    products: map<string, ProductRow>,
    stock: map<StockKey, PhProductStock>,
    history: seq<PhProductStockHistory>,
    round: nat,
    outcome: Outcome)

  /** The history insert, when the decision asks for one. */
  function HistoryStep(faulty: set<nat>, row: PhProductStockHistory, log: bool, s: PRun): (r: PRun)
    ensures r.watermarks == s.watermarks && r.products == s.products && r.stock == s.stock
    ensures r.history == s.history || (log && r.history == s.history + [row])
    ensures r.outcome.Pass? ==> r.history == if log then s.history + [row] else s.history
  {
    if !log then s.(outcome := Pass)
    else if s.round in faulty then s.(round := s.round + 1, outcome := Fail(ConnectionFault))
    else s.(history := s.history + [row], round := s.round + 1, outcome := Pass)
  }

  /** The stock part of a record: read the prior row, upsert the new one, then the history decision on the prior row. */
  function StockStep(faulty: set<nat>, branchId: string, pp: PhorestProduct, now: Time, s: PRun): (r: PRun)
    ensures r.watermarks == s.watermarks && r.products == s.products && r.round > s.round
  {
    if s.round in faulty then s.(round := s.round + 1, outcome := Fail(ConnectionFault))
    else
      var existing := Prior(s.stock, StockKey(pp.productId, branchId));
      var stamped := StockOf(pp, branchId).(lastSyncedAt := now);
      var run := Send(StockRepo.StockPolicy(), s.stock, [stamped], s.round + 1, faulty);
      if run.outcome.Fail? then s.(round := run.round, outcome := run.outcome)
      else HistoryStep(faulty, HistoryOf(pp, branchId, stamped, now), ShouldLogHistory(existing, stamped.quantityInStock),
                       s.(stock := run.table, round := run.round))
  }

  /** processProductRecord: the product upsert, then the stock part; the first error is the record's. */
  function ProcessRecord(faulty: set<nat>, branchId: string, pp: PhorestProduct, now: Time, s: PRun): (r: PRun)
    ensures r.watermarks == s.watermarks && r.round > s.round
  {
    var run := Send(ProductsRepo.ProductsPolicy(now), s.products, [ProductOf(pp)], s.round, faulty);
    if run.outcome.Fail? then s.(round := run.round, outcome := run.outcome)
    else StockStep(faulty, branchId, pp, now, s.(products := run.table, round := run.round))
  }

  /** The tables of db with the answer err. */
  function Now(db: Db, err: Outcome): PRun
    reads db
  {
    PRun(db.watermarks, db.products, db.stock, db.stockHistory, db.round, err)
  }

  /** processProductRecord: the tables, the round trips and the error are ProcessRecord's. */
  method ProcessProductRecord(db: Db, branchId: string, pp: PhorestProduct, now: Time) returns (err: Outcome)
    modifies db`products, db`stock, db`stockHistory, db`round
    ensures Now(db, err) == ProcessRecord(db.faulty, branchId, pp, now, old(Now(db, Pass)))
  {
    err := ProductsRepo.Upsert(db, ProductOf(pp), now);
    if err.Fail? {
      return;
    }
    var newStock := StockOf(pp, branchId);
    var existing := StockRepo.GetByProductAndBranch(db, pp.productId, branchId);
    if existing.Err? {
      return Fail(existing.msg);
    }
    var stamped;
    stamped, err := StockRepo.Upsert(db, newStock, now);
    if err.Fail? {
      return;
    }
    if ShouldLogHistory(existing.value, stamped.quantityInStock) {
      var h := HistoryOf(pp, branchId, stamped, now);
      var _, e := StockRepo.InsertHistory(db, h, now);
      if e.Fail? {
        return e;
      }
    }
    return Pass;
  }

  // ---- syncProductsForBranch: the page loop ----

  /** The newest updatedAt after seeing t: t when there is none yet or t is after it. */
  function Track(max: Option<Time>, t: Time): (r: Option<Time>)
    ensures r == Greatest(max, Some(t))
  {
    if max.None? || t > max.value then Some(t) else max
  }

  /** The products' updatedAt tracked from max, in order. */
  function TrackAll(max: Option<Time>, pps: seq<PhorestProduct>): Option<Time>
    decreases |pps|
  {
    if pps == [] then max else TrackAll(Track(max, pps[0].updatedAt), pps[1..])
  }

  /** A tracking state: the tables with the answer so far, and the newest updatedAt seen. */
  datatype Progress = Progress(run: PRun, max: Option<Time>)

  /** The records of one page, from s; the first failing record ends the page with no maximum. */
  function RecordsFrom(faulty: set<nat>, branchId: string, pps: seq<PhorestProduct>, now: Time, s: PRun, max: Option<Time>)
    : (r: Progress)
    ensures r.run.watermarks == s.watermarks && r.run.round >= s.round
    ensures r.run.outcome.Fail? ==> r.max.None?
    decreases |pps|
  {
    if pps == [] then Progress(s.(outcome := Pass), max)
    else
      var r := ProcessRecord(faulty, branchId, pps[0], now, s);
      if r.outcome.Fail? then Progress(r, None)
      else RecordsFrom(faulty, branchId, pps[1..], now, r, Track(max, pps[0].updatedAt))
  }

  /** The records of one page as the loop of syncProductsForBranch runs them. */
  method ProcessPage(db: Db, branchId: string, pps: seq<PhorestProduct>, now: Time, max0: Option<Time>)
    returns (max: Option<Time>, err: Outcome)
    modifies db`products, db`stock, db`stockHistory, db`round
    ensures Progress(Now(db, err), max) == RecordsFrom(db.faulty, branchId, pps, now, old(Now(db, Pass)), max0)
  {
    max := max0;
    ghost var total := RecordsFrom(db.faulty, branchId, pps, now, Now(db, Pass), max);
    for i := 0 to |pps|
      invariant total == RecordsFrom(db.faulty, branchId, pps[i..], now, Now(db, Pass), max)
    {
      assert pps[i..][1..] == pps[i + 1..];
      var e := ProcessProductRecord(db, branchId, pps[i], now);
      if e.Fail? {
        return None, e;
      }
      max := Track(max, pps[i].updatedAt);
    }
    return max, Pass;
  }

  /**
   * The pages of one branch's listing from `page` on: a failed request ends the branch with
   * its error; an empty page ends it; otherwise the page's records, after which the branch
   * ends when the page count is known (positive) and reached.
   */
  function PagesFrom(c: ProductsClient.Client, replies: seq<HttpReply>, faulty: set<nat>, opts: ListProductsOptions, now: Time,
                     s: PRun, page: nat, max: Option<Time>): (r: Progress)
    requires page <= |replies|
    ensures r.run.watermarks == s.watermarks && r.run.round >= s.round
    ensures r.run.outcome.Fail? ==> r.max.None?
    decreases |replies| - page
  {
    var resp := ListProducts(c, opts.(page := page), ReplyAt(replies, page));
    if resp.Err? then Progress(s.(outcome := Fail(resp.msg)), None)
    else if resp.value.products == [] then Progress(s.(outcome := Pass), max)
    else
      var pr := RecordsFrom(faulty, opts.branchId, resp.value.products, now, s, max);
      if pr.run.outcome.Fail? then pr
      else if resp.value.totalPages > 0 && page + 1 >= resp.value.totalPages then pr
      else PagesFrom(c, replies, faulty, opts, now, pr.run, page + 1, pr.max)
  }

  /** syncProductsForBranch: the tables, the round trips, the maximum and the error are PagesFrom's from page 0. */
  method SyncProductsForBranch(db: Db, c: ProductsClient.Client, replies: seq<HttpReply>, opts: ListProductsOptions, now: Time)
    returns (max: Option<Time>, err: Outcome)
    modifies db`products, db`stock, db`stockHistory, db`round
    ensures Progress(Now(db, err), max) == PagesFrom(c, replies, db.faulty, opts, now, old(Now(db, Pass)), 0, None)
  {
    var page := 0;
    max := None;
    ghost var total := PagesFrom(c, replies, db.faulty, opts, now, Now(db, Pass), 0, None);
    while true
      invariant page <= |replies|
      invariant total == PagesFrom(c, replies, db.faulty, opts, now, Now(db, Pass), page, max)
      decreases |replies| - page
    {
      var resp := ListProducts(c, opts.(page := page), ReplyAt(replies, page));
      if resp.Err? {
        return None, Fail(resp.msg);
      }
      if |resp.value.products| == 0 {
        return max, Pass;
      }
      var e;
      max, e := ProcessPage(db, opts.branchId, resp.value.products, now, max);
      if e.Fail? {
        return None, e;
      }
      page := page + 1;
      if resp.value.totalPages > 0 && page >= resp.value.totalPages {
        return max, Pass;
      }
    }
  }

  // ---- SyncProductsFromAPI: the branch loop ----

  /** The window of the listing: from the watermark to now, or no bounds at all without one. */
  datatype Window = Window(after: Option<Time>, before: Option<Time>)

  function WindowOf(wm: Option<Time>, now: Time): (w: Window)
    ensures (w.after.Some? && w.before.Some?) <==> wm.Some?
    ensures w.after == wm && (wm.None? ==> w.before.None?)
  {
    if wm.Some? then Window(wm, Some(now)) else Window(None, None)
  }

  /** The options of every page request of a branch. */
  function BranchOptions(branchId: string, productType: string, w: Window): ListProductsOptions {
    ListProductsOptions(branchId, productType, w.after, w.before, 0, BranchPageSize)
  }

  /** The replies a branch's listing gives in the window w. */
  function BranchReplies(api: ProductsApi, branchId: string, productType: string, w: Window): seq<HttpReply> {
    api.listing(branchId, productType, w.after, w.before)
  }

  /** After the pages: the error, or the watermark advanced to the newest updatedAt when there is one. */
  function BranchFinish(b: BranchConfig, faulty: set<nat>, pr: Progress): (r: PRun)
    ensures r.round >= pr.run.round
    ensures r.outcome.Fail? ==> r.watermarks == pr.run.watermarks
    ensures r.products == pr.run.products && r.stock == pr.run.stock && r.history == pr.run.history
  {
    if pr.run.outcome.Fail? then
      pr.run.(outcome := Fail("sync products for branch " + b.name + " (" + b.branchId + "): " + pr.run.outcome.msg))
    else if pr.max.None? || IsZero(pr.max.value) then pr.run.(outcome := Pass)
    else if pr.run.round in faulty then
      pr.run.(round := pr.run.round + 1, outcome := Fail("update products_api watermark for " + b.branchId + ": " + ConnectionFault))
    else
      pr.run.(watermarks := Advanced(pr.run.watermarks, Key(ProductsApiEntity, b.branchId), pr.max.value),
              round := pr.run.round + 1, outcome := Pass)
  }

  /** The pages of a branch once its watermark read answered wm. */
  function BranchPages(c: ProductsClient.Client, api: ProductsApi, productType: string, b: BranchConfig, wm: Option<Time>, now: Time,
                       faulty: set<nat>, s: PRun): Progress
  {
    var w := WindowOf(wm, now);
    PagesFrom(c, BranchReplies(api, b.branchId, productType, w), faulty, BranchOptions(b.branchId, productType, w), now, s, 0, None)
  }

  /** One branch: the watermark read (one round trip), its pages, and the watermark advance. */
  function ProductsBranch(c: ProductsClient.Client, api: ProductsApi, productType: string, b: BranchConfig, now: Time, faulty: set<nat>, s: PRun)
    : (r: PRun)
    ensures r.round > s.round
    ensures r.outcome.Fail? ==> r.watermarks == s.watermarks
  {
    if s.round in faulty then
      s.(round := s.round + 1, outcome := Fail("get products watermark for " + b.branchId + ": " + ConnectionFault))
    else
      var wm := Lookup(s.watermarks, Key(ProductsApiEntity, b.branchId));
      BranchFinish(b, faulty, BranchPages(c, api, productType, b, wm, now, faulty, s.(round := s.round + 1)))
  }

  /** The branches in order from s; the first failing branch ends the sync with its error. */
  function ProductsSyncOver(c: ProductsClient.Client, api: ProductsApi, productType: string, branches: seq<BranchConfig>, now: Time,
                            faulty: set<nat>, s: PRun): (r: PRun)
    ensures r.round >= s.round
    decreases |branches|
  {
    if branches == [] then s
    else
      var r := ProductsBranch(c, api, productType, branches[0], now, faulty, s);
      if r.outcome.Fail? then r else ProductsSyncOver(c, api, productType, branches[1..], now, faulty, r)
  }

  /** The client the sync uses: the default gateway, with the configured business and credentials. */
  function SyncClient(business: string, username: string, password: string): ProductsClient.Client {
    NewProductsClient("", business, username, password)
  }

  /**
   * SyncProductsFromAPI, with productType the PRODUCT_TYPE_FILTER setting ("" for all
   * types): the tables, the round trips and the error are ProductsSyncOver's.
   */
  method SyncProductsFromAPI(db: Db, api: ProductsApi, business: string, username: string, password: string,
                             productType: string, branches: seq<BranchConfig>, now: Time) returns (err: Outcome)
    modifies db`watermarks, db`products, db`stock, db`stockHistory, db`round
    ensures Now(db, err) ==
      ProductsSyncOver(SyncClient(business, username, password), api, productType, branches, now, db.faulty, old(Now(db, Pass)))
  {
    var c := NewProductsClient("", business, username, password);
    ghost var total := ProductsSyncOver(c, api, productType, branches, now, db.faulty, Now(db, Pass));
    for i := 0 to |branches|
      invariant total == ProductsSyncOver(c, api, productType, branches[i..], now, db.faulty, Now(db, Pass))
    {
      assert branches[i..][1..] == branches[i + 1..];
      var e := SyncBranch(db, c, api, productType, branches[i], now);
      if e.Fail? {
        return e;
      }
    }
    return Pass;
  }

  /** One branch of SyncProductsFromAPI. */
  method SyncBranch(db: Db, c: ProductsClient.Client, api: ProductsApi, productType: string, b: BranchConfig, now: Time) returns (err: Outcome)
    modifies db`watermarks, db`products, db`stock, db`stockHistory, db`round
    ensures Now(db, err) == ProductsBranch(c, api, productType, b, now, db.faulty, old(Now(db, Pass)))
  {
    var wm := GetLastUpdated(db, ProductsApiEntity, b.branchId);
    if wm.Err? {
      return Fail("get products watermark for " + b.branchId + ": " + wm.msg);
    }
    ghost var pages := BranchPages(c, api, productType, b, wm.value, now, db.faulty, Now(db, Pass));
    assert ProductsBranch(c, api, productType, b, now, db.faulty, old(Now(db, Pass))) == BranchFinish(b, db.faulty, pages);
    var w := WindowOf(wm.value, now);
    var max, e := SyncProductsForBranch(db, c, BranchReplies(api, b.branchId, productType, w),
                                        BranchOptions(b.branchId, productType, w), now);
    assert Progress(Now(db, e), max) == pages;
    err := FinishBranch(db, b, max, e);
  }

  /** The end of one branch: its error, or the watermark advance when the pages gave a newest updatedAt. */
  method FinishBranch(db: Db, b: BranchConfig, max: Option<Time>, e: Outcome) returns (err: Outcome)
    modifies db`watermarks, db`round
    ensures Now(db, err) == BranchFinish(b, db.faulty, Progress(old(Now(db, e)), max))
  {
    if e.Fail? {
      return Fail("sync products for branch " + b.name + " (" + b.branchId + "): " + e.msg);
    }
    if max.Some? {
      var u := UpsertLastUpdated(db, ProductsApiEntity, b.branchId, max.value);
      if u.Fail? {
        return Fail("update products_api watermark for " + b.branchId + ": " + u.msg);
      }
    }
    return Pass;
  }

  // ---- what the sync promises ----

  /** A history row is written exactly when there was no stock row, or the stored quantity and the new one differ (NULL against a value counts as a change). */
  lemma ShouldLogHistoryMeaning(existing: Option<PhProductStock>, newQty: Option<real>)
    ensures ShouldLogHistory(existing, newQty) <==> existing.None? || existing.value.quantityInStock != newQty
  {
  }

  /** Nothing stored is lost: product ids and stock keys are kept, and history only grows at its end. */
  ghost predicate Grows(s: PRun, r: PRun) {
    s.products.Keys <= r.products.Keys && s.stock.Keys <= r.stock.Keys && s.history <= r.history
  }

  /** The product row a record leaves: the product under its id, stamped now. */
  ghost predicate ProductRecorded(pp: PhorestProduct, now: Time, r: PRun) {
    pp.productId in r.products && r.products[pp.productId].product == ProductOf(pp) &&
    r.products[pp.productId].updatedAt == now
  }

  /**
   * The stock rows a record leaves in r, from the tables s it started on: its stock row under
   * (product, branch), stamped now, and one history row more exactly when the stock row read
   * before the upsert asks for one.
   */
  ghost predicate StockRecorded(pp: PhorestProduct, branchId: string, now: Time, s: PRun, r: PRun) {
    var k := StockKey(pp.productId, branchId);
    var stamped := StockOf(pp, branchId).(lastSyncedAt := now);
    k in r.stock && r.stock[k] == stamped &&
    r.history == s.history + (if ShouldLogHistory(Prior(s.stock, k), stamped.quantityInStock) then [HistoryOf(pp, branchId, stamped, now)] else [])
  }

  /** The stock part of a record: it succeeds exactly when its round trips are clean, and then leaves its rows. */
  lemma StockStepEffects(faulty: set<nat>, branchId: string, pp: PhorestProduct, now: Time, s: PRun)
    ensures var r := StockStep(faulty, branchId, pp, now, s);
      (r.outcome.Pass? <==> Clean(faulty, s.round, r.round)) && Grows(s, r) &&
      (r.outcome.Pass? ==> StockRecorded(pp, branchId, now, s, r))
  {
    if s.round !in faulty {
      var k := StockKey(pp.productId, branchId);
      var stamped := StockOf(pp, branchId).(lastSyncedAt := now);
      StockRepo.StockStatement(s.stock, stamped);
      assert StockRepo.KeyOf(stamped) == k;
      var run := Send(StockRepo.StockPolicy(), s.stock, [stamped], s.round + 1, faulty);
      if run.outcome.Pass? {
        var s2 := s.(stock := run.table, round := run.round);
        var log := ShouldLogHistory(Prior(s.stock, k), stamped.quantityInStock);
        assert StockStep(faulty, branchId, pp, now, s) == HistoryStep(faulty, HistoryOf(pp, branchId, stamped, now), log, s2);
      }
    }
  }

  /**
   * A record succeeds exactly when all its round trips are clean; it then leaves its product
   * and stock rows, and one history row exactly when the stock row read before the upsert asks
   * for one; whatever happens it loses nothing stored.
   */
  lemma ProcessRecordEffects(faulty: set<nat>, branchId: string, pp: PhorestProduct, now: Time, s: PRun)
    ensures var r := ProcessRecord(faulty, branchId, pp, now, s);
      r.outcome.Pass? <==> Clean(faulty, s.round, r.round)
    ensures Grows(s, ProcessRecord(faulty, branchId, pp, now, s))
    ensures var r := ProcessRecord(faulty, branchId, pp, now, s);
      r.outcome.Pass? ==> ProductRecorded(pp, now, r) && StockRecorded(pp, branchId, now, s, r)
  {
    var p := ProductOf(pp);
    ProductsRepo.ProductsStatement(s.products, p, now);
    var run := Send(ProductsRepo.ProductsPolicy(now), s.products, [p], s.round, faulty);
    if run.outcome.Pass? {
      var s1 := s.(products := run.table, round := run.round);
      StockStepEffects(faulty, branchId, pp, now, s1);
      var r := StockStep(faulty, branchId, pp, now, s1);
      assert ProcessRecord(faulty, branchId, pp, now, s) == r;
      assert r.products == s1.products;
    }
  }

  /** The records of a page lose nothing stored. */
  lemma {:induction false} RecordsGrow(faulty: set<nat>, branchId: string, pps: seq<PhorestProduct>, now: Time, s: PRun, max: Option<Time>)
    ensures Grows(s, RecordsFrom(faulty, branchId, pps, now, s, max).run)
    decreases |pps|
  {
    if pps != [] {
      var r := ProcessRecord(faulty, branchId, pps[0], now, s);
      ProcessRecordEffects(faulty, branchId, pps[0], now, s);
      if r.outcome.Pass? {
        RecordsGrow(faulty, branchId, pps[1..], now, r, Track(max, pps[0].updatedAt));
      }
    }
  }

  /** Every product of a page that passed has its product row and its stock row for the branch stored. */
  lemma {:induction false} RecordsStored(faulty: set<nat>, branchId: string, pps: seq<PhorestProduct>, now: Time, s: PRun, max: Option<Time>)
    requires RecordsFrom(faulty, branchId, pps, now, s, max).run.outcome.Pass?
    ensures var r := RecordsFrom(faulty, branchId, pps, now, s, max).run;
      forall i :: 0 <= i < |pps| ==> pps[i].productId in r.products && StockKey(pps[i].productId, branchId) in r.stock
    decreases |pps|
  {
    if pps != [] {
      var next := ProcessRecord(faulty, branchId, pps[0], now, s);
      var m := Track(max, pps[0].updatedAt);
      ProcessRecordEffects(faulty, branchId, pps[0], now, s);
      RecordsStored(faulty, branchId, pps[1..], now, next, m);
      RecordsGrow(faulty, branchId, pps[1..], now, next, m);
      forall i | 1 <= i < |pps| ensures pps[1..][i - 1] == pps[i] {
      }
    }
  }

  /** Tracking over two runs of products is tracking over the first, then over the second. */
  lemma {:induction false} TrackAllAppend(max: Option<Time>, a: seq<PhorestProduct>, b: seq<PhorestProduct>)
    ensures TrackAll(max, a + b) == TrackAll(TrackAll(max, a), b)
    decreases |a|
  {
    if a != [] {
      assert (a + b)[1..] == a[1..] + b;
      TrackAllAppend(Track(max, a[0].updatedAt), a[1..], b);
    } else {
      assert a + b == b;
    }
  }

  /**
   * Tracking finds the newest updatedAt: it is at least the starting value and every product's
   * updatedAt, it is one of them, and there is none only when there was nothing to track.
   */
  lemma {:induction false} TrackAllIsMax(max: Option<Time>, pps: seq<PhorestProduct>)
    ensures var r := TrackAll(max, pps);
      (r.None? <==> max.None? && pps == []) &&
      AtLeast(r, max) && (forall i :: 0 <= i < |pps| ==> AtLeast(r, Some(pps[i].updatedAt))) &&
      (r == max || exists i :: 0 <= i < |pps| && r == Some(pps[i].updatedAt))
    decreases |pps|
  {
    if pps != [] {
      var m := Track(max, pps[0].updatedAt);
      TrackAllIsMax(m, pps[1..]);
      var r := TrackAll(m, pps[1..]);
      forall i | 1 <= i < |pps| ensures pps[1..][i - 1] == pps[i] {
      }
      if r != m {
        var i :| 0 <= i < |pps[1..]| && r == Some(pps[1..][i].updatedAt);
        assert r == Some(pps[i + 1].updatedAt);
      } else if m != max {
        assert r == Some(pps[0].updatedAt);
      }
    }
  }

  /** A page that passed tracks the updatedAt of all its products, in order. */
  lemma {:induction false} RecordsMax(faulty: set<nat>, branchId: string, pps: seq<PhorestProduct>, now: Time, s: PRun, max: Option<Time>)
    requires RecordsFrom(faulty, branchId, pps, now, s, max).run.outcome.Pass?
    ensures RecordsFrom(faulty, branchId, pps, now, s, max).max == TrackAll(max, pps)
    decreases |pps|
  {
    if pps != [] {
      RecordsMax(faulty, branchId, pps[1..], now, ProcessRecord(faulty, branchId, pps[0], now, s), Track(max, pps[0].updatedAt));
    }
  }

  /** The products the listing hands the branch loop from `page` on, when every record succeeds. */
  ghost function PagesSeen(c: ProductsClient.Client, replies: seq<HttpReply>, opts: ListProductsOptions, page: nat): seq<PhorestProduct>
    requires page <= |replies|
    decreases |replies| - page
  {
    var resp := ListProducts(c, opts.(page := page), ReplyAt(replies, page));
    if resp.Err? || resp.value.products == [] then []
    else if resp.value.totalPages > 0 && page + 1 >= resp.value.totalPages then resp.value.products
    else resp.value.products + PagesSeen(c, replies, opts, page + 1)
  }

  /** The pages of a branch lose nothing stored. */
  lemma {:induction false} PagesGrow(c: ProductsClient.Client, replies: seq<HttpReply>, faulty: set<nat>, opts: ListProductsOptions, now: Time,
                                     s: PRun, page: nat, max: Option<Time>)
    requires page <= |replies|
    ensures Grows(s, PagesFrom(c, replies, faulty, opts, now, s, page, max).run)
    decreases |replies| - page
  {
    var resp := ListProducts(c, opts.(page := page), ReplyAt(replies, page));
    if resp.Ok? && resp.value.products != [] {
      var pr := RecordsFrom(faulty, opts.branchId, resp.value.products, now, s, max);
      RecordsGrow(faulty, opts.branchId, resp.value.products, now, s, max);
      if pr.run.outcome.Pass? && !(resp.value.totalPages > 0 && page + 1 >= resp.value.totalPages) {
        PagesGrow(c, replies, faulty, opts, now, pr.run, page + 1, pr.max);
      }
    }
  }

  /** Every product of `seen` has its product row and its stock row for the branch stored in r. */
  ghost predicate Stored(seen: seq<PhorestProduct>, branchId: string, r: PRun) {
    forall i :: 0 <= i < |seen| ==> seen[i].productId in r.products && StockKey(seen[i].productId, branchId) in r.stock
  }

  /**
   * Pages that passed stored the product and stock rows of every product the listing handed
   * out, and their newest updatedAt is tracked over all of them.
   */
  lemma {:induction false} PagesMeaning(c: ProductsClient.Client, replies: seq<HttpReply>, faulty: set<nat>, opts: ListProductsOptions, now: Time,
                                        s: PRun, page: nat, max: Option<Time>)
    requires page <= |replies|
    requires PagesFrom(c, replies, faulty, opts, now, s, page, max).run.outcome.Pass?
    ensures var pr := PagesFrom(c, replies, faulty, opts, now, s, page, max);
      pr.max == TrackAll(max, PagesSeen(c, replies, opts, page))
    ensures var pr := PagesFrom(c, replies, faulty, opts, now, s, page, max);
      Stored(PagesSeen(c, replies, opts, page), opts.branchId, pr.run)
    decreases |replies| - page
  {
    var resp := ListProducts(c, opts.(page := page), ReplyAt(replies, page));
    if resp.Ok? && resp.value.products != [] {
      var pps := resp.value.products;
      var pr := RecordsFrom(faulty, opts.branchId, pps, now, s, max);
      RecordsMax(faulty, opts.branchId, pps, now, s, max);
      RecordsStored(faulty, opts.branchId, pps, now, s, max);
      if !(resp.value.totalPages > 0 && page + 1 >= resp.value.totalPages) {
        var rest := PagesSeen(c, replies, opts, page + 1);
        var end := PagesFrom(c, replies, faulty, opts, now, pr.run, page + 1, pr.max).run;
        PagesMeaning(c, replies, faulty, opts, now, pr.run, page + 1, pr.max);
        PagesGrow(c, replies, faulty, opts, now, pr.run, page + 1, pr.max);
        TrackAllAppend(max, pps, rest);
        forall i | 0 <= i < |pps + rest|
          ensures (pps + rest)[i].productId in end.products && StockKey((pps + rest)[i].productId, opts.branchId) in end.stock
        {
          if i >= |pps| {
            assert (pps + rest)[i] == rest[i - |pps|];
          }
        }
      }
    }
  }

  /** No watermark moves backward or back to NULL, and only products_api watermarks move at all. */
  ghost predicate WatermarksAdvance(before: Watermarks, after: Watermarks) {
    (forall k :: AtLeast(Lookup(after, k), Lookup(before, k))) &&
    (forall k: WatermarkKey :: k.entity != ProductsApiEntity ==> Lookup(after, k) == Lookup(before, k))
  }

  /** Advancing a products_api watermark is such a move. */
  lemma AdvanceIsAdvance(w: Watermarks, branchId: string, c: Time)
    ensures WatermarksAdvance(w, Advanced(w, Key(ProductsApiEntity, branchId), c))
  {
    forall k ensures AtLeast(Lookup(Advanced(w, Key(ProductsApiEntity, branchId), c), k), Lookup(w, k)) {
      AdvancedMonotone(w, Key(ProductsApiEntity, branchId), c, k);
    }
  }

  /** The end of a branch only moves its own watermark forward; when it passes, the watermark was advanced to the tracked maximum, if any. */
  lemma FinishMeaning(b: BranchConfig, faulty: set<nat>, pr: Progress)
    ensures WatermarksAdvance(pr.run.watermarks, BranchFinish(b, faulty, pr).watermarks)
    ensures var r := BranchFinish(b, faulty, pr);
      r.outcome.Pass? ==>
        pr.run.outcome.Pass? &&
        r.watermarks == if pr.max.Some? then Advanced(pr.run.watermarks, Key(ProductsApiEntity, b.branchId), pr.max.value) else pr.run.watermarks
  {
    if pr.max.Some? {
      AdvanceIsAdvance(pr.run.watermarks, b.branchId, pr.max.value);
    }
  }

  /** The pages of a branch lose nothing stored and leave the watermarks alone. */
  lemma BranchPagesGrow(c: ProductsClient.Client, api: ProductsApi, productType: string, b: BranchConfig, wm: Option<Time>,
                        now: Time, faulty: set<nat>, s: PRun)
    ensures var pr := BranchPages(c, api, productType, b, wm, now, faulty, s);
      Grows(s, pr.run) && pr.run.watermarks == s.watermarks
  {
    var w := WindowOf(wm, now);
    PagesGrow(c, BranchReplies(api, b.branchId, productType, w), faulty, BranchOptions(b.branchId, productType, w), now, s, 0, None);
  }

  /** One branch loses nothing stored and only moves its own watermark forward. */
  lemma BranchMonotone(c: ProductsClient.Client, api: ProductsApi, productType: string, b: BranchConfig, now: Time,
                       faulty: set<nat>, s: PRun)
    ensures var r := ProductsBranch(c, api, productType, b, now, faulty, s);
      Grows(s, r) && WatermarksAdvance(s.watermarks, r.watermarks)
  {
    if s.round !in faulty {
      var wm := Lookup(s.watermarks, Key(ProductsApiEntity, b.branchId));
      var s1 := s.(round := s.round + 1);
      var pr := BranchPages(c, api, productType, b, wm, now, faulty, s1);
      assert ProductsBranch(c, api, productType, b, now, faulty, s) == BranchFinish(b, faulty, pr);
      BranchPagesGrow(c, api, productType, b, wm, now, faulty, s1);
      FinishMeaning(b, faulty, pr);
    }
  }

  /** The products a branch's listing hands out when its watermark read answered wm. */
  ghost function BranchSeen(c: ProductsClient.Client, api: ProductsApi, productType: string, b: BranchConfig, wm: Option<Time>, now: Time)
    : seq<PhorestProduct>
  {
    var w := WindowOf(wm, now);
    PagesSeen(c, BranchReplies(api, b.branchId, productType, w), BranchOptions(b.branchId, productType, w), 0)
  }

  /** The pages of a branch that passed stored every product handed out and tracked the newest updatedAt among them. */
  lemma BranchPagesMeaning(c: ProductsClient.Client, api: ProductsApi, productType: string, b: BranchConfig, wm: Option<Time>,
                           now: Time, faulty: set<nat>, s: PRun)
    ensures var pr := BranchPages(c, api, productType, b, wm, now, faulty, s);
      pr.run.watermarks == s.watermarks &&
      (pr.run.outcome.Pass? ==>
        pr.max == TrackAll(None, BranchSeen(c, api, productType, b, wm, now)) &&
        Stored(BranchSeen(c, api, productType, b, wm, now), b.branchId, pr.run))
  {
    var w := WindowOf(wm, now);
    var replies := BranchReplies(api, b.branchId, productType, w);
    var opts := BranchOptions(b.branchId, productType, w);
    if PagesFrom(c, replies, faulty, opts, now, s, 0, None).run.outcome.Pass? {
      PagesMeaning(c, replies, faulty, opts, now, s, 0, None);
    }
  }

  /** The end of a branch whose pages passed keeps what they stored, and advances the watermark to their newest updatedAt. */
  lemma FinishFromPages(b: BranchConfig, faulty: set<nat>, w0: Watermarks, pr: Progress, seen: seq<PhorestProduct>)
    requires pr.run.watermarks == w0
    requires pr.run.outcome.Pass? ==> pr.max == TrackAll(None, seen) && Stored(seen, b.branchId, pr.run)
    ensures var r := BranchFinish(b, faulty, pr);
      r.outcome.Pass? ==>
        Stored(seen, b.branchId, r) &&
        r.watermarks == if TrackAll(None, seen).Some? then Advanced(w0, Key(ProductsApiEntity, b.branchId), TrackAll(None, seen).value) else w0
  {
    FinishMeaning(b, faulty, pr);
  }

  /**
   * When a branch passes, every product its listing handed out (in the window from its
   * watermark) has its product and stock rows stored, and the watermark was advanced to the
   * newest updatedAt among them (left alone when there were none).
   */
  lemma BranchMeaning(c: ProductsClient.Client, api: ProductsApi, productType: string, b: BranchConfig, now: Time,
                      faulty: set<nat>, s: PRun)
    ensures var key := Key(ProductsApiEntity, b.branchId);
      var seen := BranchSeen(c, api, productType, b, Lookup(s.watermarks, key), now);
      var r := ProductsBranch(c, api, productType, b, now, faulty, s);
      r.outcome.Pass? ==>
        Stored(seen, b.branchId, r) &&
        r.watermarks == if TrackAll(None, seen).Some? then Advanced(s.watermarks, key, TrackAll(None, seen).value) else s.watermarks
  {
    if s.round !in faulty {
      var wm := Lookup(s.watermarks, Key(ProductsApiEntity, b.branchId));
      var s1 := s.(round := s.round + 1);
      var pr := BranchPages(c, api, productType, b, wm, now, faulty, s1);
      assert ProductsBranch(c, api, productType, b, now, faulty, s) == BranchFinish(b, faulty, pr);
      BranchPagesMeaning(c, api, productType, b, wm, now, faulty, s1);
      FinishFromPages(b, faulty, s.watermarks, pr, BranchSeen(c, api, productType, b, wm, now));
    }
  }

  /** The whole sync loses nothing stored and only moves products_api watermarks forward, whatever fails. */
  lemma {:induction false} SyncMonotone(c: ProductsClient.Client, api: ProductsApi, productType: string, branches: seq<BranchConfig>,
                                        now: Time, faulty: set<nat>, s: PRun)
    ensures var r := ProductsSyncOver(c, api, productType, branches, now, faulty, s);
      Grows(s, r) && WatermarksAdvance(s.watermarks, r.watermarks)
    decreases |branches|
  {
    if branches != [] {
      var r := ProductsBranch(c, api, productType, branches[0], now, faulty, s);
      BranchMonotone(c, api, productType, branches[0], now, faulty, s);
      if r.outcome.Pass? {
        SyncMonotone(c, api, productType, branches[1..], now, faulty, r);
        var e := ProductsSyncOver(c, api, productType, branches[1..], now, faulty, r);
        assert s.history <= r.history <= e.history;
      }
    }
  }

  /** A failing branch ends the sync: the branches after it are never run. */
  lemma {:induction false} SyncStopsAtFailure(c: ProductsClient.Client, api: ProductsApi, productType: string,
                                              xs: seq<BranchConfig>, ys: seq<BranchConfig>, now: Time, faulty: set<nat>, s: PRun)
    requires s.outcome.Pass?
    ensures ProductsSyncOver(c, api, productType, xs + ys, now, faulty, s) ==
      var r := ProductsSyncOver(c, api, productType, xs, now, faulty, s);
      if r.outcome.Fail? then r else ProductsSyncOver(c, api, productType, ys, now, faulty, r)
    decreases |xs|
  {
    if xs == [] {
      assert xs + ys == ys;
    } else {
      assert (xs + ys)[1..] == xs[1..] + ys;
      var r := ProductsBranch(c, api, productType, xs[0], now, faulty, s);
      if r.outcome.Pass? {
        SyncStopsAtFailure(c, api, productType, xs[1..], ys, now, faulty, r);
      }
    }
  }
}
