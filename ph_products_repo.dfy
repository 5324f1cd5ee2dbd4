/**
 * PhProductRepo.Upsert: one product as `INSERT ... ON CONFLICT (id) DO UPDATE` with no WHERE,
 * so a stored product is overwritten whatever the order of the updated_at_ph stamps.
 */
module ProductsRepo {
  import opened Wrappers
  import opened Clock
  import opened Records
  import opened Upserts
  import opened Store

  /**
   * The conflict behaviour of ph_products for a call made at `now`: every listed column takes
   * the incoming value and updated_at becomes now; inserted_at is not listed, so it keeps the
   * value of the first insert.
   */
  function ProductsPolicy(now: Time): Policy<string, PhProduct, ProductRow> {
    Policy(
      Overwrite,
      (p: PhProduct) => p.id,
      (p: PhProduct) => p.updatedAtPh,
      (r: ProductRow) => r.product.updatedAtPh,
      (p: PhProduct) => ProductRow(p, now, now),
      (r: ProductRow, p: PhProduct) => ProductRow(p, r.insertedAt, now))
  }

  /** Upsert: one statement for one product. */
  method Upsert(db: Db, p: PhProduct, now: Time) returns (err: Outcome)
    modifies db`products, db`round
    ensures var run := Send(ProductsPolicy(now), old(db.products), [p], old(db.round), db.faulty);
      db.products == run.table && db.round == run.round && err == run.outcome
  {
    var ok := db.RoundTrip();
    if !ok {
      return Fail(ConnectionFault);
    }
    var res := Execute(ProductsPolicy(now), db.products, [p], {});
    if res.Err? {
      return Fail(res.msg);
    }
    db.products := res.value;
    return Pass;
  }

  /**
   * What the statement does: it cannot fail, the product's id then holds the product with
   * updated_at = now and the inserted_at it had (now, if it is new), even when the stored
   * updated_at_ph is later than the incoming one; every other product is untouched.
   */
  lemma ProductsStatement(table: map<string, ProductRow>, p: PhProduct, now: Time)
    ensures Execute(ProductsPolicy(now), table, [p], {}).Ok?
    ensures var t := Execute(ProductsPolicy(now), table, [p], {}).value;
      t.Keys == table.Keys + {p.id} &&
      t[p.id].product == p && t[p.id].updatedAt == now &&
      t[p.id].insertedAt == (if p.id in table then table[p.id].insertedAt else now) &&
      forall id :: id in table && id != p.id ==> t[id] == table[id]
  {
    assert Execute(ProductsPolicy(now), table, [p], {}) == Execute(ProductsPolicy(now), table[p.id := Outcome1(ProductsPolicy(now), table, p)], [], {p.id});
  }

  /** Upserting the same product twice, at any two instants, leaves the business fields and inserted_at of upserting it once. */
  lemma ProductsTwice(table: map<string, ProductRow>, p: PhProduct, now: Time, later: Time)
    ensures Execute(ProductsPolicy(now), table, [p], {}).Ok?
    ensures var t := Execute(ProductsPolicy(now), table, [p], {}).value;
      Execute(ProductsPolicy(later), t, [p], {}).Ok? &&
      var t2 := Execute(ProductsPolicy(later), t, [p], {}).value;
      t2.Keys == t.Keys && forall id :: id in t ==> t2[id].product == t[id].product && t2[id].insertedAt == t[id].insertedAt
  {
    ProductsStatement(table, p, now);
    var t := Execute(ProductsPolicy(now), table, [p], {}).value;
    ProductsStatement(t, p, later);
  }
}
