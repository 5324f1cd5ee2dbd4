/**
 * ClientsRepo.UpsertBatch: clients keyed by client_id, written through the chunked flush
 * loop, each statement an `INSERT ... ON CONFLICT (client_id) DO UPDATE ... WHERE stored
 * updated_at_phorest IS NULL OR incoming is newer`.
 */
module ClientsRepo {
  import opened Wrappers
  import opened Clock
  import opened Records
  import opened Chunks
  import opened Upserts
  import opened Store

  /**
   * The conflict behaviour of the clients table for a call made at `now`. On conflict every
   * column but client_id and created_at takes the incoming value, and updated_at becomes now.
   */
  function ClientsPolicy(now: Time): Policy<string, Client, ClientRow> {
    Policy(
      NewestWins,
      (c: Client) => c.clientId,
      (c: Client) => c.updatedAtPhorest,
      (r: ClientRow) => r.client.updatedAtPhorest,
      (c: Client) => ClientRow(c, now, now),
      (r: ClientRow, c: Client) => ClientRow(c, r.createdAt, now))
  }

  /** The flush closure: nothing when no row is pending, otherwise one statement. */
  method Flush(db: Db, pending: seq<Client>, now: Time) returns (err: Outcome)
    modifies db`clients, db`round
    ensures pending == [] ==> err.Pass? && db.clients == old(db.clients) && db.round == old(db.round)
    ensures pending != [] ==>
      var run := Send(ClientsPolicy(now), old(db.clients), pending, old(db.round), db.faulty);
      db.clients == run.table && db.round == run.round && err == run.outcome
  {
    if pending == [] {
      return Pass;
    }
    var ok := db.RoundTrip();
    if !ok {
      return Fail(ConnectionFault);
    }
    var res := Execute(ClientsPolicy(now), db.clients, pending, {});
    if res.Err? {
      return Fail(res.msg);
    }
    db.clients := res.value;
    return Pass;
  }

  /**
   * UpsertBatch: an empty batch sends nothing; otherwise the rows go out in order, a statement
   * each time batchSize rows are pending and one for the remainder, and the first failing
   * statement ends the call with its error.
   */
  method UpsertBatch(db: Db, rows: seq<Client>, batchSize: int, now: Time) returns (err: Outcome)
    modifies db`clients, db`round
    ensures var run := SendAll(ClientsPolicy(now), old(db.clients), ChunksOf(rows, FlushSize(batchSize)), old(db.round), db.faulty);
      db.clients == run.table && db.round == run.round && err == run.outcome
  {
    var p := ClientsPolicy(now);
    if |rows| == 0 {
      return Pass;
    }
    ghost var total := FlushLoop(p, db.clients, rows, [], batchSize, db.round, db.faulty);
    assert total == SendAll(p, db.clients, ChunksOf(rows, FlushSize(batchSize)), db.round, db.faulty) by {
      FlushLoopChunks(p, db.clients, rows, [], batchSize, db.round, db.faulty);
      assert [] + rows == rows;
    }
    var pending: seq<Client> := [];
    var i := 0;
    while i < |rows|
      invariant 0 <= i <= |rows|
      invariant total == FlushLoop(p, db.clients, rows[i..], pending, batchSize, db.round, db.faulty)
    {
      assert rows[i..][0] == rows[i] && rows[i..][1..] == rows[i + 1..];
      pending := pending + [rows[i]];
      i := i + 1;
      if |pending| >= batchSize {
        err := Flush(db, pending, now);
        if err.Fail? {
          return;
        }
        pending := [];
      }
    }
    assert rows[i..] == [];
    err := Flush(db, pending, now);
  }

  /**
   * One statement whose client ids are distinct: an absent id is inserted with created_at =
   * updated_at = now; a stored client is replaced iff its updated_at_phorest is NULL or the
   * incoming one is strictly newer, and keeps its created_at; an incoming NULL never replaces
   * a stored timestamp; clients the statement does not address are untouched.
   */
  lemma ClientsStatement(table: map<string, ClientRow>, rows: seq<Client>, now: Time)
    requires DistinctKeys(ClientsPolicy(now), rows)
    ensures Execute(ClientsPolicy(now), table, rows, {}).Ok?
    ensures var t := Execute(ClientsPolicy(now), table, rows, {}).value;
      t.Keys == table.Keys + (set i | 0 <= i < |rows| :: rows[i].clientId) &&
      (forall id :: id in table && (forall i :: 0 <= i < |rows| ==> rows[i].clientId != id) ==> t[id] == table[id]) &&
      (forall i :: 0 <= i < |rows| && rows[i].clientId !in table ==> t[rows[i].clientId] == ClientRow(rows[i], now, now)) &&
      (forall i :: 0 <= i < |rows| && rows[i].clientId in table ==>
        var stored := table[rows[i].clientId];
        t[rows[i].clientId] ==
          (if Accepts(stored.client.updatedAtPhorest, rows[i].updatedAtPhorest) then ClientRow(rows[i], stored.createdAt, now) else stored) &&
        t[rows[i].clientId].createdAt == stored.createdAt &&
        (rows[i].updatedAtPhorest.None? && stored.client.updatedAtPhorest.Some? ==> t[rows[i].clientId] == stored))
  {
    var p := ClientsPolicy(now);
    ExecuteDistinct(p, table, rows, {});
    assert Keys(p, rows) == set i | 0 <= i < |rows| :: rows[i].clientId;
    var t := Execute(p, table, rows, {}).value;
    forall id | id in table && (forall i :: 0 <= i < |rows| ==> rows[i].clientId != id) ensures t[id] == table[id] {
      assert id !in Keys(p, rows);
    }
  }

  /** Two rows of one statement with the same new client_id: Postgres refuses the statement. */
  lemma ClientsRepeatedNewId(table: map<string, ClientRow>, rows: seq<Client>, now: Time, i: nat, j: nat)
    requires i < j < |rows| && rows[i].clientId == rows[j].clientId && rows[i].clientId !in table
    ensures Execute(ClientsPolicy(now), table, rows, {}).Err?
  {
    ExecuteRejectsRepeatedNewKey(ClientsPolicy(now), table, rows, {}, i, j);
  }

  /** Re-applying a batch of distinct, timestamped clients changes nothing. */
  lemma ClientsReapply(table: map<string, ClientRow>, rows: seq<Client>, now: Time, later: Time)
    requires DistinctKeys(ClientsPolicy(now), rows)
    requires forall i :: 0 <= i < |rows| ==> rows[i].updatedAtPhorest.Some?
    ensures Execute(ClientsPolicy(now), table, rows, {}).Ok?
    ensures var t := Execute(ClientsPolicy(now), table, rows, {}).value; Execute(ClientsPolicy(later), t, rows, {}) == Ok(t)
  {
    ExecuteReapply(ClientsPolicy(now), ClientsPolicy(later), table, rows);
  }

  /** With no failed round trip, the table a batch of distinct clients ends in does not depend on batchSize. */
  lemma ClientsBatchSizeIrrelevant(table: map<string, ClientRow>, rows: seq<Client>, now: Time, b1: int, b2: int, round: nat, faulty: set<nat>)
    requires DistinctKeys(ClientsPolicy(now), rows)
    requires forall q :: round <= q < round + |rows| ==> q !in faulty
    ensures SendAll(ClientsPolicy(now), table, ChunksOf(rows, FlushSize(b1)), round, faulty).outcome.Pass?
    ensures SendAll(ClientsPolicy(now), table, ChunksOf(rows, FlushSize(b1)), round, faulty).table ==
            SendAll(ClientsPolicy(now), table, ChunksOf(rows, FlushSize(b2)), round, faulty).table
  {
    BatchSizeIrrelevant(ClientsPolicy(now), table, rows, FlushSize(b1), FlushSize(b2), round, faulty);
  }
}
