/**
 * ItemsRepo.UpsertBatch: transaction lines keyed by transaction_item_id, written through the
 * chunked flush loop, each statement an `INSERT ... ON CONFLICT (transaction_item_id) DO
 * UPDATE SET <listed columns> WHERE stored updated_at_phorest IS NULL OR incoming is newer`.
 */
module ItemsRepo {
  import opened Wrappers
  import opened Clock
  import opened Records
  import opened Chunks
  import opened Upserts
  import opened Store

  /**
   * The conflict behaviour of the transaction_items table for a call made at `now`. Only the
   * SET list changes: the sale columns, the line columns and updated_at_phorest take the
   * incoming values and updated_at becomes now; transaction_id, the frozen columns and
   * created_at keep what the first insert wrote.
   */
  function ItemsPolicy(now: Time): Policy<string, Item, ItemRow> {
    Policy(
      NewestWins,
      (it: Item) => it.itemId,
      (it: Item) => it.updatedAtPhorest,
      (r: ItemRow) => r.item.updatedAtPhorest,
      (it: Item) => ItemRow(it, now, now),
      (r: ItemRow, it: Item) => ItemRow(Updated(r.item, it), r.createdAt, now))
  }

  /** A stored line rewritten from an incoming one: the columns outside the SET list stay. */
  function Updated(stored: Item, incoming: Item): Item {
    Item(stored.itemId, stored.transactionId, incoming.sale, stored.frozen, incoming.line, incoming.updatedAtPhorest)
  }

  /** The flush closure: nothing when no row is pending, otherwise one statement. */
  method Flush(db: Db, pending: seq<Item>, now: Time) returns (err: Outcome)
    modifies db`items, db`round
    ensures pending == [] ==> err.Pass? && db.items == old(db.items) && db.round == old(db.round)
    ensures pending != [] ==>
      var run := Send(ItemsPolicy(now), old(db.items), pending, old(db.round), db.faulty);
      db.items == run.table && db.round == run.round && err == run.outcome
  {
    if pending == [] {
      return Pass;
    }
    var ok := db.RoundTrip();
    if !ok {
      return Fail(ConnectionFault);
    }
    var res := Execute(ItemsPolicy(now), db.items, pending, {});
    if res.Err? {
      return Fail(res.msg);
    }
    db.items := res.value;
    return Pass;
  }

  /**
   * UpsertBatch: an empty batch sends nothing; otherwise the lines go out in order, a
   * statement each time batchSize are pending and one for the remainder, and the first
   * failing statement ends the call with its error.
   */
  method UpsertBatch(db: Db, rows: seq<Item>, batchSize: int, now: Time) returns (err: Outcome)
    modifies db`items, db`round
    ensures var run := SendAll(ItemsPolicy(now), old(db.items), ChunksOf(rows, FlushSize(batchSize)), old(db.round), db.faulty);
      db.items == run.table && db.round == run.round && err == run.outcome
  {
    var p := ItemsPolicy(now);
    if |rows| == 0 {
      return Pass;
    }
    ghost var total := FlushLoop(p, db.items, rows, [], batchSize, db.round, db.faulty);
    assert total == SendAll(p, db.items, ChunksOf(rows, FlushSize(batchSize)), db.round, db.faulty) by {
      FlushLoopChunks(p, db.items, rows, [], batchSize, db.round, db.faulty);
      assert [] + rows == rows;
    }
    var pending: seq<Item> := [];
    var i := 0;
    while i < |rows|
      invariant 0 <= i <= |rows|
      invariant total == FlushLoop(p, db.items, rows[i..], pending, batchSize, db.round, db.faulty)
    {
      assert rows[i..][0] == rows[i] && rows[i..][1..] == rows[i + 1..];
      pending := pending + [rows[i]];
      i := i + 1;
      if |pending| >= batchSize {
        err := Flush(db, pending, now);
        if err.Fail? {
          return;
        }
        pending := [];
      }
    }
    assert rows[i..] == [];
    err := Flush(db, pending, now);
  }

  /**
   * One statement whose item ids are distinct: an absent id is inserted with created_at =
   * updated_at = now; a stored line is updated iff its updated_at_phorest is NULL or the
   * incoming one is strictly newer, and an accepted update keeps transaction_id, the frozen
   * columns and created_at while taking the sale and line columns and the timestamp from the
   * incoming row; an incoming NULL never replaces a stored timestamp; other lines are untouched.
   */
  lemma ItemsStatement(table: map<string, ItemRow>, rows: seq<Item>, now: Time)
    requires DistinctKeys(ItemsPolicy(now), rows)
    ensures Execute(ItemsPolicy(now), table, rows, {}).Ok?
    ensures var t := Execute(ItemsPolicy(now), table, rows, {}).value;
      t.Keys == table.Keys + (set i | 0 <= i < |rows| :: rows[i].itemId) &&
      (forall id :: id in table && (forall i :: 0 <= i < |rows| ==> rows[i].itemId != id) ==> t[id] == table[id]) &&
      (forall i :: 0 <= i < |rows| && rows[i].itemId !in table ==> t[rows[i].itemId] == ItemRow(rows[i], now, now))
    ensures var t := Execute(ItemsPolicy(now), table, rows, {}).value;
      (forall i :: 0 <= i < |rows| && rows[i].itemId in table ==>
        var stored := table[rows[i].itemId];
        var row := t[rows[i].itemId];
        row.item.transactionId == stored.item.transactionId &&
        row.item.frozen == stored.item.frozen &&
        row.createdAt == stored.createdAt &&
        (if Accepts(stored.item.updatedAtPhorest, rows[i].updatedAtPhorest) then
           row.item.sale == rows[i].sale && row.item.line == rows[i].line &&
           row.item.updatedAtPhorest == rows[i].updatedAtPhorest && row.updatedAt == now
         else row == stored) &&
        (rows[i].updatedAtPhorest.None? && stored.item.updatedAtPhorest.Some? ==> row == stored))
  {
    var p := ItemsPolicy(now);
    ExecuteDistinct(p, table, rows, {});
    assert Keys(p, rows) == set i | 0 <= i < |rows| :: rows[i].itemId;
    var t := Execute(p, table, rows, {}).value;
    forall id | id in table && (forall i :: 0 <= i < |rows| ==> rows[i].itemId != id) ensures t[id] == table[id] {
      assert id !in Keys(p, rows);
    }
  }

  /** Two lines of one statement with the same new transaction_item_id: Postgres refuses the statement. */
  lemma ItemsRepeatedNewId(table: map<string, ItemRow>, rows: seq<Item>, now: Time, i: nat, j: nat)
    requires i < j < |rows| && rows[i].itemId == rows[j].itemId && rows[i].itemId !in table
    ensures Execute(ItemsPolicy(now), table, rows, {}).Err?
  {
    ExecuteRejectsRepeatedNewKey(ItemsPolicy(now), table, rows, {}, i, j);
  }

  /** Re-applying a batch of distinct, timestamped lines changes nothing. */
  lemma ItemsReapply(table: map<string, ItemRow>, rows: seq<Item>, now: Time, later: Time)
    requires DistinctKeys(ItemsPolicy(now), rows)
    requires forall i :: 0 <= i < |rows| ==> rows[i].updatedAtPhorest.Some?
    ensures Execute(ItemsPolicy(now), table, rows, {}).Ok?
    ensures var t := Execute(ItemsPolicy(now), table, rows, {}).value; Execute(ItemsPolicy(later), t, rows, {}) == Ok(t)
  {
    ExecuteReapply(ItemsPolicy(now), ItemsPolicy(later), table, rows);
  }

  /** With no failed round trip, the table a batch of distinct lines ends in does not depend on batchSize. */
  lemma ItemsBatchSizeIrrelevant(table: map<string, ItemRow>, rows: seq<Item>, now: Time, b1: int, b2: int, round: nat, faulty: set<nat>)
    requires DistinctKeys(ItemsPolicy(now), rows)
    requires forall q :: round <= q < round + |rows| ==> q !in faulty
    ensures SendAll(ItemsPolicy(now), table, ChunksOf(rows, FlushSize(b1)), round, faulty).outcome.Pass?
    ensures SendAll(ItemsPolicy(now), table, ChunksOf(rows, FlushSize(b1)), round, faulty).table ==
            SendAll(ItemsPolicy(now), table, ChunksOf(rows, FlushSize(b2)), round, faulty).table
  {
    BatchSizeIrrelevant(ItemsPolicy(now), table, rows, FlushSize(b1), FlushSize(b2), round, faulty);
  }
}
