/**
 * PhProductStockRepo: the per-branch stock row of a product (read, and overwritten with the
 * sync stamp), and the append-only stock history.
 */
module StockRepo {
  import opened Wrappers
  import opened Clock
  import opened Records
  import opened Upserts
  import opened Store

  function KeyOf(s: PhProductStock): StockKey {
    StockKey(s.productId, s.branchId)
  }

  /** Every stored stock row sits under its own (product_id, branch_id). */
  predicate StockKeyed(stock: map<StockKey, PhProductStock>) {
    forall k :: k in stock ==> KeyOf(stock[k]) == k
  }

  /** The conflict behaviour of ph_product_stock: every listed column takes the incoming value. */
  function StockPolicy(): Policy<StockKey, PhProductStock, PhProductStock> {
    Policy(
      Overwrite,
      (s: PhProductStock) => KeyOf(s),
      (s: PhProductStock) => s.updatedAtPh,
      (r: PhProductStock) => r.updatedAtPh,
      (s: PhProductStock) => s,
      (r: PhProductStock, s: PhProductStock) => s)
  }

  /**
   * GetByProductAndBranch: one query; a failed round trip is an error, no matching row is
   * (nil, nil), and otherwise the row is returned.
   */
  method GetByProductAndBranch(db: Db, productId: string, branchId: string) returns (r: Result<Option<PhProductStock>>)
    modifies db`round
    ensures db.round == old(db.round) + 1
    ensures r.Err? <==> old(db.round) in db.faulty
    ensures r.Err? ==> r.msg == ConnectionFault
    ensures r.Ok? ==> (r.value.None? <==> StockKey(productId, branchId) !in db.stock)
    ensures r.Ok? && r.value.Some? ==> r.value.value == db.stock[StockKey(productId, branchId)]
    ensures r.Ok? && r.value.Some? && StockKeyed(db.stock) ==>
      r.value.value.productId == productId && r.value.value.branchId == branchId
  {
    var ok := db.RoundTrip();
    if !ok {
      return Err(ConnectionFault);
    }
    var k := StockKey(productId, branchId);
    if k !in db.stock {
      return Ok(None);
    }
    return Ok(Some(db.stock[k]));
  }

  /**
   * Upsert: the record is stamped with last_synced_at = now (the caller's record is changed,
   * so `stamped` is what it holds afterwards), then one statement writes it.
   */
  method Upsert(db: Db, s: PhProductStock, now: Time) returns (stamped: PhProductStock, err: Outcome)
    modifies db`stock, db`round
    ensures stamped == s.(lastSyncedAt := now)
    ensures var run := Send(StockPolicy(), old(db.stock), [stamped], old(db.round), db.faulty);
      db.stock == run.table && db.round == run.round && err == run.outcome
  {
    stamped := s.(lastSyncedAt := now);
    var ok := db.RoundTrip();
    if !ok {
      return stamped, Fail(ConnectionFault);
    }
    var res := Execute(StockPolicy(), db.stock, [stamped], {});
    if res.Err? {
      return stamped, Fail(res.msg);
    }
    db.stock := res.value;
    err := Pass;
  }

  /**
   * What the statement does: it cannot fail; the row's (product_id, branch_id) then holds the
   * record, inserted or overwritten whatever the stored updated_at_ph says; every other row
   * is untouched, and the table stays keyed by its rows.
   */
  lemma StockStatement(stock: map<StockKey, PhProductStock>, s: PhProductStock)
    ensures Execute(StockPolicy(), stock, [s], {}).Ok?
    ensures var t := Execute(StockPolicy(), stock, [s], {}).value;
      t.Keys == stock.Keys + {KeyOf(s)} && t[KeyOf(s)] == s &&
      (forall k :: k in stock && k != KeyOf(s) ==> t[k] == stock[k]) &&
      (StockKeyed(stock) ==> StockKeyed(t))
  {
    assert Execute(StockPolicy(), stock, [s], {}) == Execute(StockPolicy(), stock[KeyOf(s) := s], [], {KeyOf(s)});
  }

  /**
   * InsertHistory: a zero snapshot time becomes now (on the caller's record, whence
   * `stamped`); then one INSERT appends the row; nothing stored is overwritten.
   */
  method InsertHistory(db: Db, h: PhProductStockHistory, now: Time) returns (stamped: PhProductStockHistory, err: Outcome)
    modifies db`stockHistory, db`round
    ensures stamped.snapshotTime == (if h.snapshotTime == 0 then now else h.snapshotTime)
    ensures stamped == h.(snapshotTime := stamped.snapshotTime)
    ensures db.round == old(db.round) + 1
    ensures err.Pass? <==> old(db.round) !in db.faulty
    ensures err.Fail? ==> err.msg == ConnectionFault && db.stockHistory == old(db.stockHistory)
    ensures err.Pass? ==> db.stockHistory == old(db.stockHistory) + [stamped]
  {
    stamped := h;
    if h.snapshotTime == 0 {
      stamped := h.(snapshotTime := now);
    }
    var ok := db.RoundTrip();
    if !ok {
      return stamped, Fail(ConnectionFault);
    }
    db.stockHistory := db.stockHistory + [stamped];
    err := Pass;
  }
}
