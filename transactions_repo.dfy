/**
 * TransactionsRepo.UpsertBatch: transaction headers keyed by transaction_id, written through
 * the chunked flush loop, each statement an `INSERT ... ON CONFLICT (transaction_id) DO UPDATE
 * ... WHERE stored updated_at_phorest IS NULL OR incoming is newer`.
 */
module TransactionsRepo {
  import opened Wrappers
  import opened Clock
  import opened Records
  import opened Chunks
  import opened Upserts
  import opened Store

  /**
   * The conflict behaviour of the transactions table for a call made at `now`: the sale
   * columns and updated_at_phorest take the incoming values, updated_at becomes now, and
   * transaction_id and created_at stay.
   */
  function TransactionsPolicy(now: Time): Policy<string, Transaction, TransactionRow> {
    Policy(
      NewestWins,
      (h: Transaction) => h.transactionId,
      (h: Transaction) => h.updatedAtPhorest,
      (r: TransactionRow) => r.header.updatedAtPhorest,
      (h: Transaction) => TransactionRow(h, now, now),
      (r: TransactionRow, h: Transaction) =>
        TransactionRow(Transaction(r.header.transactionId, h.sale, h.updatedAtPhorest), r.createdAt, now))
  }

  /** The flush closure: nothing when no row is pending, otherwise one statement. */
  method Flush(db: Db, pending: seq<Transaction>, now: Time) returns (err: Outcome)
    modifies db`transactions, db`round
    ensures pending == [] ==> err.Pass? && db.transactions == old(db.transactions) && db.round == old(db.round)
    ensures pending != [] ==>
      var run := Send(TransactionsPolicy(now), old(db.transactions), pending, old(db.round), db.faulty);
      db.transactions == run.table && db.round == run.round && err == run.outcome
  {
    if pending == [] {
      return Pass;
    }
    var ok := db.RoundTrip();
    if !ok {
      return Fail(ConnectionFault);
    }
    var res := Execute(TransactionsPolicy(now), db.transactions, pending, {});
    if res.Err? {
      return Fail(res.msg);
    }
    db.transactions := res.value;
    return Pass;
  }

  /**
   * UpsertBatch: an empty batch sends nothing; otherwise the headers go out in order, a
   * statement each time batchSize are pending and one for the remainder, and the first
   * failing statement ends the call with its error.
   */
  method UpsertBatch(db: Db, rows: seq<Transaction>, batchSize: int, now: Time) returns (err: Outcome)
    modifies db`transactions, db`round
    ensures var run := SendAll(TransactionsPolicy(now), old(db.transactions), ChunksOf(rows, FlushSize(batchSize)), old(db.round), db.faulty);
      db.transactions == run.table && db.round == run.round && err == run.outcome
  {
    var p := TransactionsPolicy(now);
    if |rows| == 0 {
      return Pass;
    }
    ghost var total := FlushLoop(p, db.transactions, rows, [], batchSize, db.round, db.faulty);
    assert total == SendAll(p, db.transactions, ChunksOf(rows, FlushSize(batchSize)), db.round, db.faulty) by {
      FlushLoopChunks(p, db.transactions, rows, [], batchSize, db.round, db.faulty);
      assert [] + rows == rows;
    }
    var pending: seq<Transaction> := [];
    var i := 0;
    while i < |rows|
      invariant 0 <= i <= |rows|
      invariant total == FlushLoop(p, db.transactions, rows[i..], pending, batchSize, db.round, db.faulty)
    {
      assert rows[i..][0] == rows[i] && rows[i..][1..] == rows[i + 1..];
      pending := pending + [rows[i]];
      i := i + 1;
      if |pending| >= batchSize {
        err := Flush(db, pending, now);
        if err.Fail? {
          return;
        }
        pending := [];
      }
    }
    assert rows[i..] == [];
    err := Flush(db, pending, now);
  }

  /**
   * One statement whose transaction ids are distinct: an absent id is inserted with
   * created_at = updated_at = now; a stored header is rewritten iff its updated_at_phorest is
   * NULL or the incoming one is strictly newer, keeping transaction_id and created_at; an
   * incoming NULL never replaces a stored timestamp; other headers are untouched.
   */
  lemma TransactionsStatement(table: map<string, TransactionRow>, rows: seq<Transaction>, now: Time)
    requires DistinctKeys(TransactionsPolicy(now), rows)
    ensures Execute(TransactionsPolicy(now), table, rows, {}).Ok?
    ensures var t := Execute(TransactionsPolicy(now), table, rows, {}).value;
      t.Keys == table.Keys + (set i | 0 <= i < |rows| :: rows[i].transactionId) &&
      (forall id :: id in table && (forall i :: 0 <= i < |rows| ==> rows[i].transactionId != id) ==> t[id] == table[id]) &&
      (forall i :: 0 <= i < |rows| && rows[i].transactionId !in table ==> t[rows[i].transactionId] == TransactionRow(rows[i], now, now)) &&
      (forall i :: 0 <= i < |rows| && rows[i].transactionId in table ==>
        var stored := table[rows[i].transactionId];
        var row := t[rows[i].transactionId];
        row == (if Accepts(stored.header.updatedAtPhorest, rows[i].updatedAtPhorest) then
                  TransactionRow(Transaction(stored.header.transactionId, rows[i].sale, rows[i].updatedAtPhorest), stored.createdAt, now)
                else stored) &&
        row.header.transactionId == stored.header.transactionId && row.createdAt == stored.createdAt &&
        (rows[i].updatedAtPhorest.None? && stored.header.updatedAtPhorest.Some? ==> row == stored))
  {
    var p := TransactionsPolicy(now);
    ExecuteDistinct(p, table, rows, {});
    assert Keys(p, rows) == set i | 0 <= i < |rows| :: rows[i].transactionId;
    var t := Execute(p, table, rows, {}).value;
    forall id | id in table && (forall i :: 0 <= i < |rows| ==> rows[i].transactionId != id) ensures t[id] == table[id] {
      assert id !in Keys(p, rows);
    }
  }

  /** Two headers of one statement with the same new transaction_id: Postgres refuses the statement. */
  lemma TransactionsRepeatedNewId(table: map<string, TransactionRow>, rows: seq<Transaction>, now: Time, i: nat, j: nat)
    requires i < j < |rows| && rows[i].transactionId == rows[j].transactionId && rows[i].transactionId !in table
    ensures Execute(TransactionsPolicy(now), table, rows, {}).Err?
  {
    ExecuteRejectsRepeatedNewKey(TransactionsPolicy(now), table, rows, {}, i, j);
  }

  /** Re-applying a batch of distinct, timestamped headers changes nothing. */
  lemma TransactionsReapply(table: map<string, TransactionRow>, rows: seq<Transaction>, now: Time, later: Time)
    requires DistinctKeys(TransactionsPolicy(now), rows)
    requires forall i :: 0 <= i < |rows| ==> rows[i].updatedAtPhorest.Some?
    ensures Execute(TransactionsPolicy(now), table, rows, {}).Ok?
    ensures var t := Execute(TransactionsPolicy(now), table, rows, {}).value; Execute(TransactionsPolicy(later), t, rows, {}) == Ok(t)
  {
    ExecuteReapply(TransactionsPolicy(now), TransactionsPolicy(later), table, rows);
  }

  /** With no failed round trip, the table a batch of distinct headers ends in does not depend on batchSize. */
  lemma TransactionsBatchSizeIrrelevant(table: map<string, TransactionRow>, rows: seq<Transaction>, now: Time, b1: int, b2: int, round: nat, faulty: set<nat>)
    requires DistinctKeys(TransactionsPolicy(now), rows)
    requires forall q :: round <= q < round + |rows| ==> q !in faulty
    ensures SendAll(TransactionsPolicy(now), table, ChunksOf(rows, FlushSize(b1)), round, faulty).outcome.Pass?
    ensures SendAll(TransactionsPolicy(now), table, ChunksOf(rows, FlushSize(b1)), round, faulty).table ==
            SendAll(TransactionsPolicy(now), table, ChunksOf(rows, FlushSize(b2)), round, faulty).table
  {
    BatchSizeIrrelevant(TransactionsPolicy(now), table, rows, FlushSize(b1), FlushSize(b2), round, faulty);
  }
}
