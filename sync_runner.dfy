/**
 * The CSV import pipeline. One transactions or clients file is imported inside one database
 * transaction that is rolled back on any failure; a directory of files is imported file by
 * file, a failing file being logged and skipped; and the one-off bootstrap imports the seed
 * directories and seeds the watermarks when no CSV watermark exists yet.
 *
 * BEGIN, ROLLBACK and COMMIT are one round trip each. A failed COMMIT leaves the tables as
 * they were, and the error of ROLLBACK is ignored, as the runner ignores it.
 */
module SyncRunner {
  import opened Wrappers
  import opened Text
  import opened Clock
  import opened Records
  import opened Chunks
  import opened Upserts
  import opened Store
  import opened CsvTable
  import opened WatermarksRepo
  import opened BootstrapWatermarks
  import TransactionCsv
  import ClientCsv
  import TransactionsRepo
  import ItemsRepo
  import ClientsRepo

  /** The rows per INSERT of an import: 500 for headers and items, 1000 for clients. */
  const TransactionsBatch := 500
  const ClientsBatch := 1000

  // ---- one transactions file ----

  /** Where importing transactions files leaves the two tables they write, and how it ended. */
  datatype TxRun = TxRun(transactions: map<string, TransactionRow>, items: map<string, ItemRow>, round: nat, outcome: Outcome)

  /**
   * importSingleTransactionsCSV on the parsed file: BEGIN, the headers, the items, COMMIT.
   * A failure anywhere leaves both tables as they were, and a success means no round trip
   * of the import failed. Nothing else, and in particular no watermark, is written.
   */
  function TxImport(transactions: map<string, TransactionRow>, items: map<string, ItemRow>, round: nat,
                    faulty: set<nat>, parsed: Result<TransactionCsv.ParsedBatch>, now: Time): (r: TxRun)
    ensures round <= r.round
    ensures r.outcome.Fail? ==> r.transactions == transactions && r.items == items
    ensures r.outcome.Pass? ==> parsed.Ok? && Clean(faulty, round, r.round)
  {
    match parsed
    case Err(e) => TxRun(transactions, items, round, Fail(e))
    case Ok(batch) =>
      if round in faulty then TxRun(transactions, items, round + 1, Fail(ConnectionFault))
      else
        var hp := TransactionsRepo.TransactionsPolicy(now);
        var hc := ChunksOf(batch.transactions, FlushSize(TransactionsBatch));
        var hs := SendAll(hp, transactions, hc, round + 1, faulty);
        SendAllRounds(hp, transactions, hc, round + 1, faulty);
        if hs.outcome.Fail? then TxRun(transactions, items, hs.round + 1, hs.outcome)
        else
          var ip := ItemsRepo.ItemsPolicy(now);
          var ic := ChunksOf(batch.items, FlushSize(TransactionsBatch));
          var its := SendAll(ip, items, ic, hs.round, faulty);
          SendAllRounds(ip, items, ic, hs.round, faulty);
          if its.outcome.Fail? then TxRun(transactions, items, its.round + 1, its.outcome)
          else if its.round in faulty then TxRun(transactions, items, its.round + 1, Fail(ConnectionFault))
          else TxRun(hs.table, its.table, its.round + 1, Pass)
  }

  /**
   * A committed import stores a header under every transaction id of the file and leaves
   * every stored header whose id the file does not mention as it was.
   */
  lemma ImportedHeadersStored(transactions: map<string, TransactionRow>, items: map<string, ItemRow>, round: nat,
                              faulty: set<nat>, batch: TransactionCsv.ParsedBatch, now: Time)
    requires forall j1, j2 :: 0 <= j1 < j2 < |batch.transactions| ==>
      batch.transactions[j1].transactionId != batch.transactions[j2].transactionId
    requires TxImport(transactions, items, round, faulty, Ok(batch), now).outcome.Pass?
    ensures var r := TxImport(transactions, items, round, faulty, Ok(batch), now);
      (forall i :: 0 <= i < |batch.transactions| ==> batch.transactions[i].transactionId in r.transactions) &&
      (forall id :: id in transactions && (forall i :: 0 <= i < |batch.transactions| ==> batch.transactions[i].transactionId != id) ==>
        id in r.transactions && r.transactions[id] == transactions[id])
  {
    var p := TransactionsRepo.TransactionsPolicy(now);
    var chunks := ChunksOf(batch.transactions, FlushSize(TransactionsBatch));
    SendAllRounds(p, transactions, chunks, round + 1, faulty);
    assert DistinctKeys(p, Flatten(chunks));
    SendAllClean(p, transactions, chunks, round + 1, faulty);
    assert TxImport(transactions, items, round, faulty, Ok(batch), now).transactions ==
      Execute(p, transactions, batch.transactions, {}).value;
    TransactionsRepo.TransactionsStatement(transactions, batch.transactions, now);
  }

  /** importSingleTransactionsCSV: parse the file, then import it as TxImport says. */
  method ImportSingleTransactionsCsv(db: Db, file: CsvFile, sc: Scanners, now: Time)
    returns (parsed: Result<TransactionCsv.ParsedBatch>, err: Outcome)
    modifies db`transactions, db`items, db`round
    ensures TransactionCsv.Parses(file, sc, parsed)
    ensures var run := TxImport(old(db.transactions), old(db.items), old(db.round), db.faulty, parsed, now);
      db.transactions == run.transactions && db.items == run.items && db.round == run.round && err == run.outcome
  {
    parsed := TransactionCsv.ParseTransactionsCSV(file, sc);
    if parsed.Err? {
      return parsed, Fail(parsed.msg);
    }
    err := ImportTransactionsBatch(db, parsed.value, now);
  }

  /** The database part of importSingleTransactionsCSV, once the file has parsed. */
  method ImportTransactionsBatch(db: Db, batch: TransactionCsv.ParsedBatch, now: Time) returns (err: Outcome)
    modifies db`transactions, db`items, db`round
    ensures var run := TxImport(old(db.transactions), old(db.items), old(db.round), db.faulty, Ok(batch), now);
      db.transactions == run.transactions && db.items == run.items && db.round == run.round && err == run.outcome
  {
    var ok := db.RoundTrip();
    if !ok {
      return Fail(ConnectionFault);
    }
    var transactions0, items0 := db.transactions, db.items;
    err := TransactionsRepo.UpsertBatch(db, batch.transactions, TransactionsBatch, now);
    if err.Fail? {
      db.transactions := transactions0;
      ok := db.RoundTrip();
      return;
    }
    err := ItemsRepo.UpsertBatch(db, batch.items, TransactionsBatch, now);
    if err.Fail? {
      db.transactions, db.items := transactions0, items0;
      ok := db.RoundTrip();
      return;
    }
    ok := db.RoundTrip();
    if !ok {
      db.transactions, db.items := transactions0, items0;
      err := Fail(ConnectionFault);
    }
  }

  // ---- a directory of transactions files ----

  /** The files imported one after another, each from where the previous one left the tables. */
  function TxImportAll(transactions: map<string, TransactionRow>, items: map<string, ItemRow>, round: nat,
                       faulty: set<nat>, parsed: seq<Result<TransactionCsv.ParsedBatch>>, now: Time): TxRun
    decreases |parsed|
  {
    if parsed == [] then TxRun(transactions, items, round, Pass)
    else
      var before := TxImportAll(transactions, items, round, faulty, parsed[..|parsed| - 1], now);
      var one := TxImport(before.transactions, before.items, before.round, faulty, parsed[|parsed| - 1], now);
      TxRun(one.transactions, one.items, one.round, Pass)
  }

  /**
   * A directory import always reports success, and a file that failed contributes nothing:
   * the tables after it are those before it.
   */
  lemma TxImportAllSkipsFailures(transactions: map<string, TransactionRow>, items: map<string, ItemRow>, round: nat,
                                 faulty: set<nat>, parsed: seq<Result<TransactionCsv.ParsedBatch>>, now: Time, k: nat)
    requires k < |parsed|
    ensures TxImportAll(transactions, items, round, faulty, parsed, now).outcome == Pass
    ensures var before := TxImportAll(transactions, items, round, faulty, parsed[..k], now);
      var after := TxImportAll(transactions, items, round, faulty, parsed[..k + 1], now);
      TxImport(before.transactions, before.items, before.round, faulty, parsed[k], now).outcome.Fail? ==>
        after.transactions == before.transactions && after.items == before.items
  {
    assert parsed[..k + 1][..k] == parsed[..k];
  }

  /** ImportAllTransactionsCSVs: every file in order; failures are logged and skipped. */
  method ImportAllTransactionsCsvs(db: Db, files: seq<CsvFile>, sc: Scanners, now: Time)
    returns (err: Outcome, ghost parsed: seq<Result<TransactionCsv.ParsedBatch>>)
    modifies db`transactions, db`items, db`round
    ensures err == Pass && |parsed| == |files|
    ensures forall i :: 0 <= i < |files| ==> TransactionCsv.Parses(files[i], sc, parsed[i])
    ensures var run := TxImportAll(old(db.transactions), old(db.items), old(db.round), db.faulty, parsed, now);
      db.transactions == run.transactions && db.items == run.items && db.round == run.round
  {
    parsed := [];
    for i := 0 to |files|
      invariant |parsed| == i
      invariant forall j :: 0 <= j < i ==> TransactionCsv.Parses(files[j], sc, parsed[j])
      invariant var run := TxImportAll(old(db.transactions), old(db.items), old(db.round), db.faulty, parsed, now);
        db.transactions == run.transactions && db.items == run.items && db.round == run.round
    {
      var p, _ := ImportSingleTransactionsCsv(db, files[i], sc, now);
      parsed := parsed + [p];
      assert parsed[..i] == parsed[..|parsed| - 1];
    }
    err := Pass;
  }

  // ---- one clients file ----

  /** The maxTS loop: the latest non-nil updated_at_phorest of the file's clients. */
  function MaxStamp(clients: seq<Client>): Option<Time>
    decreases |clients|
  {
    if clients == [] then None
    else Greatest(MaxStamp(clients[..|clients| - 1]), clients[|clients| - 1].updatedAtPhorest)
  }

  /**
   * maxTS bounds every non-nil timestamp of the file, is one of them, and is nil exactly when
   * they are all nil; `at` names a client that carries it.
   */
  lemma {:induction false} MaxStampIsLatest(clients: seq<Client>) returns (at: nat)
    ensures forall i :: 0 <= i < |clients| && clients[i].updatedAtPhorest.Some? ==>
      MaxStamp(clients).Some? && clients[i].updatedAtPhorest.value <= MaxStamp(clients).value
    ensures MaxStamp(clients).Some? ==> at < |clients| && clients[at].updatedAtPhorest == MaxStamp(clients)
    ensures MaxStamp(clients).None? <==> forall i :: 0 <= i < |clients| ==> clients[i].updatedAtPhorest.None?
    decreases |clients|
  {
    if clients == [] {
      return 0;
    }
    var init := clients[..|clients| - 1];
    var last := clients[|clients| - 1].updatedAtPhorest;
    var j := MaxStampIsLatest(init);
    at := if MaxStamp(clients) == last then |clients| - 1 else j;
    forall i | 0 <= i < |clients| && clients[i].updatedAtPhorest.Some?
      ensures MaxStamp(clients).Some? && clients[i].updatedAtPhorest.value <= MaxStamp(clients).value
    {
      if i < |clients| - 1 {
        assert clients[i] == init[i];
      }
    }
    if MaxStamp(clients).None? {
      forall i | 0 <= i < |clients|
        ensures clients[i].updatedAtPhorest.None?
      {
        if i < |clients| - 1 {
          assert clients[i] == init[i];
        }
      }
    }
  }

  /** The loop of importSingleClientsCSV that finds maxTS. */
  method MaxUpdatedAt(clients: seq<Client>) returns (maxTs: Option<Time>)
    ensures maxTs == MaxStamp(clients)
  {
    maxTs := None;
    for i := 0 to |clients|
      invariant maxTs == MaxStamp(clients[..i])
    {
      var ts := clients[i].updatedAtPhorest;
      if ts.Some? && (maxTs.None? || ts.value > maxTs.value) {
        maxTs := ts;
      }
      assert clients[..i + 1][..i] == clients[..i];
    }
    assert clients[..|clients|] == clients;
  }

  /** Where importing clients files leaves the clients and the watermarks, and how it ended. */
  datatype ClientsRun = ClientsRun(clients: map<string, ClientRow>, watermarks: Watermarks, round: nat, outcome: Outcome)

  /** The clients_csv/ALL watermark after a committed file whose maxTS is maxTs. */
  function ClientsWatermark(w: Watermarks, maxTs: Option<Time>): Watermarks {
    if maxTs.Some? then Advanced(w, Key(ClientsCsv, All), maxTs.value) else w
  }

  /**
   * importSingleClientsCSV on the parsed file: BEGIN, the clients, the clients_csv/ALL
   * advance when maxTS is set, COMMIT. The upsert and the advance commit together: a failure
   * anywhere leaves both tables as they were; a success means no round trip failed and the
   * watermark moved to GREATEST(stored, maxTS), and only that row.
   */
  function ClientsImport(clients: map<string, ClientRow>, watermarks: Watermarks, round: nat,
                         faulty: set<nat>, parsed: Result<ClientCsv.ParsedClients>, now: Time): (r: ClientsRun)
    ensures round <= r.round
    ensures r.outcome.Fail? ==> r.clients == clients && r.watermarks == watermarks
    ensures r.outcome.Pass? ==>
      parsed.Ok? && Clean(faulty, round, r.round) &&
      r.watermarks == ClientsWatermark(watermarks, MaxStamp(parsed.value.clients))
  {
    match parsed
    case Err(e) => ClientsRun(clients, watermarks, round, Fail(e))
    case Ok(batch) =>
      var maxTs := MaxStamp(batch.clients);
      if round in faulty then ClientsRun(clients, watermarks, round + 1, Fail(ConnectionFault))
      else
        var p := ClientsRepo.ClientsPolicy(now);
        var chunks := ChunksOf(batch.clients, FlushSize(ClientsBatch));
        var cs := SendAll(p, clients, chunks, round + 1, faulty);
        SendAllRounds(p, clients, chunks, round + 1, faulty);
        if cs.outcome.Fail? then ClientsRun(clients, watermarks, cs.round + 1, cs.outcome)
        else ClientsCommit(clients, cs.table, watermarks, cs.round, faulty, maxTs)
  }

  /**
   * The rest of importSingleClientsCSV once the clients are upserted (the table went from
   * `before` to `upserted`): the watermark advance when maxTS is set, then COMMIT.
   */
  function ClientsCommit(before: map<string, ClientRow>, upserted: map<string, ClientRow>, watermarks: Watermarks,
                         round: nat, faulty: set<nat>, maxTs: Option<Time>): (r: ClientsRun)
    ensures round <= r.round
    ensures r.outcome.Fail? ==> r.clients == before && r.watermarks == watermarks
    ensures r.outcome.Pass? ==>
      Clean(faulty, round, r.round) && r.clients == upserted && r.watermarks == ClientsWatermark(watermarks, maxTs)
  {
    var writes := maxTs.Some? && !IsZero(maxTs.value);
    if writes && round in faulty then
      ClientsRun(before, watermarks, round + 2, Fail("update clients_csv watermark: " + ConnectionFault))
    else
      var commit := if writes then round + 1 else round;
      if commit in faulty then ClientsRun(before, watermarks, commit + 1, Fail(ConnectionFault))
      else ClientsRun(upserted, ClientsWatermark(watermarks, maxTs), commit + 1, Pass)
  }

  /**
   * A committed clients file never moves a watermark backwards, and moves no row other than
   * clients_csv/ALL; unless maxTS is the zero instant, which writes nothing, that row ends
   * at least at every timestamp of the file.
   */
  lemma ClientsImportAdvances(clients: map<string, ClientRow>, watermarks: Watermarks, round: nat,
                              faulty: set<nat>, batch: ClientCsv.ParsedClients, now: Time)
    requires ClientsImport(clients, watermarks, round, faulty, Ok(batch), now).outcome.Pass?
    ensures var w := ClientsImport(clients, watermarks, round, faulty, Ok(batch), now).watermarks;
      (forall k :: AtLeast(Lookup(w, k), Lookup(watermarks, k))) &&
      (forall k :: k != Key(ClientsCsv, All) ==> Lookup(w, k) == Lookup(watermarks, k)) &&
      var m := MaxStamp(batch.clients);
      (m.Some? && !IsZero(m.value) ==>
        forall i :: 0 <= i < |batch.clients| ==> AtLeast(Lookup(w, Key(ClientsCsv, All)), batch.clients[i].updatedAtPhorest))
  {
    var m := MaxStamp(batch.clients);
    var _ := MaxStampIsLatest(batch.clients);
    var w := ClientsWatermark(watermarks, m);
    forall k ensures AtLeast(Lookup(w, k), Lookup(watermarks, k)) {
      if m.Some? {
        AdvancedMonotone(watermarks, Key(ClientsCsv, All), m.value, k);
      }
    }
    if m.Some? && !IsZero(m.value) {
      AdvancedValue(watermarks, Key(ClientsCsv, All), m.value);
    }
  }

  /** importSingleClientsCSV: parse the file, then import it as ClientsImport says. */
  method ImportSingleClientsCsv(db: Db, file: CsvFile, sc: Scanners, now: Time)
    returns (parsed: Result<ClientCsv.ParsedClients>, err: Outcome)
    modifies db`clients, db`watermarks, db`round
    ensures ClientCsv.Parses(file, sc, parsed)
    ensures var run := ClientsImport(old(db.clients), old(db.watermarks), old(db.round), db.faulty, parsed, now);
      db.clients == run.clients && db.watermarks == run.watermarks && db.round == run.round && err == run.outcome
  {
    parsed := ClientCsv.ParseClientsCSV(file, sc);
    if parsed.Err? {
      return parsed, Fail(parsed.msg);
    }
    err := ImportClientsBatch(db, parsed.value, now);
  }

  /** The database part of importSingleClientsCSV, once the file has parsed. */
  method ImportClientsBatch(db: Db, batch: ClientCsv.ParsedClients, now: Time) returns (err: Outcome)
    modifies db`clients, db`watermarks, db`round
    ensures var run := ClientsImport(old(db.clients), old(db.watermarks), old(db.round), db.faulty, Ok(batch), now);
      db.clients == run.clients && db.watermarks == run.watermarks && db.round == run.round && err == run.outcome
  {
    var maxTs := MaxUpdatedAt(batch.clients);
    var ok := db.RoundTrip();
    if !ok {
      return Fail(ConnectionFault);
    }
    var clients0 := db.clients;
    err := ClientsRepo.UpsertBatch(db, batch.clients, ClientsBatch, now);
    if err.Fail? {
      db.clients := clients0;
      ok := db.RoundTrip();
      return;
    }
    err := CommitClients(db, clients0, maxTs);
  }

  /** The watermark advance and COMMIT of importSingleClientsCSV; `before` is the snapshot ROLLBACK restores. */
  method CommitClients(db: Db, before: map<string, ClientRow>, maxTs: Option<Time>) returns (err: Outcome)
    modifies db`clients, db`watermarks, db`round
    ensures var run := ClientsCommit(before, old(db.clients), old(db.watermarks), old(db.round), db.faulty, maxTs);
      db.clients == run.clients && db.watermarks == run.watermarks && db.round == run.round && err == run.outcome
  {
    var watermarks0 := db.watermarks;
    var ok;
    if maxTs.Some? {
      err := UpsertLastUpdated(db, ClientsCsv, All, maxTs.value);
      if err.Fail? {
        db.clients := before;
        ok := db.RoundTrip();
        return Fail("update clients_csv watermark: " + err.msg);
      }
    }
    ok := db.RoundTrip();
    if !ok {
      db.clients, db.watermarks := before, watermarks0;
      return Fail(ConnectionFault);
    }
    err := Pass;
  }

  // ---- a directory of clients files ----

  function ClientsImportAll(clients: map<string, ClientRow>, watermarks: Watermarks, round: nat,
                            faulty: set<nat>, parsed: seq<Result<ClientCsv.ParsedClients>>, now: Time): ClientsRun
    decreases |parsed|
  {
    if parsed == [] then ClientsRun(clients, watermarks, round, Pass)
    else
      var before := ClientsImportAll(clients, watermarks, round, faulty, parsed[..|parsed| - 1], now);
      var one := ClientsImport(before.clients, before.watermarks, before.round, faulty, parsed[|parsed| - 1], now);
      ClientsRun(one.clients, one.watermarks, one.round, Pass)
  }

  /** Importing a directory of clients files never moves a watermark backwards. */
  lemma {:induction false} ClientsImportAllMonotone(clients: map<string, ClientRow>, watermarks: Watermarks, round: nat,
                                                    faulty: set<nat>, parsed: seq<Result<ClientCsv.ParsedClients>>, now: Time)
    ensures var w := ClientsImportAll(clients, watermarks, round, faulty, parsed, now).watermarks;
      (forall k :: AtLeast(Lookup(w, k), Lookup(watermarks, k))) &&
      (forall k :: k != Key(ClientsCsv, All) ==> Lookup(w, k) == Lookup(watermarks, k))
    decreases |parsed|
  {
    if parsed != [] {
      var init := parsed[..|parsed| - 1];
      ClientsImportAllMonotone(clients, watermarks, round, faulty, init, now);
      var before := ClientsImportAll(clients, watermarks, round, faulty, init, now);
      var last := parsed[|parsed| - 1];
      var one := ClientsImport(before.clients, before.watermarks, before.round, faulty, last, now);
      if one.outcome.Pass? {
        ClientsImportAdvances(before.clients, before.watermarks, before.round, faulty, last.value, now);
      }
    }
  }

  /** ImportAllClientCSVs: every file in order; failures are logged and skipped. */
  method ImportAllClientCsvs(db: Db, files: seq<CsvFile>, sc: Scanners, now: Time)
    returns (err: Outcome, ghost parsed: seq<Result<ClientCsv.ParsedClients>>)
    modifies db`clients, db`watermarks, db`round
    ensures err == Pass && |parsed| == |files|
    ensures forall i :: 0 <= i < |files| ==> ClientCsv.Parses(files[i], sc, parsed[i])
    ensures var run := ClientsImportAll(old(db.clients), old(db.watermarks), old(db.round), db.faulty, parsed, now);
      db.clients == run.clients && db.watermarks == run.watermarks && db.round == run.round
  {
    parsed := [];
    for i := 0 to |files|
      invariant |parsed| == i
      invariant forall j :: 0 <= j < i ==> ClientCsv.Parses(files[j], sc, parsed[j])
      invariant var run := ClientsImportAll(old(db.clients), old(db.watermarks), old(db.round), db.faulty, parsed, now);
        db.clients == run.clients && db.watermarks == run.watermarks && db.round == run.round
    {
      var p, _ := ImportSingleClientsCsv(db, files[i], sc, now);
      parsed := parsed + [p];
      assert parsed[..i] == parsed[..|parsed| - 1];
    }
    err := Pass;
  }

  // ---- the one-off bootstrap ----

  /** Some watermark row of the two CSV streams exists. */
  predicate HasCsvWatermark(w: Watermarks) {
    exists k :: k in w && (k.entity == ClientsCsv || k.entity == TransactionsCsv)
  }

  /** SELECT count(*) FROM sync_watermarks WHERE entity IN ('clients_csv', 'transactions_csv'). */
  method CountCsvWatermarks(db: Db) returns (r: Result<nat>)
    modifies db`round
    ensures db.round == old(db.round) + 1 && (r.Err? <==> old(db.round) in db.faulty)
    ensures r.Err? ==> r.msg == ConnectionFault
    ensures r.Ok? ==> (r.value > 0 <==> HasCsvWatermark(db.watermarks))
  {
    var ok := db.RoundTrip();
    if !ok {
      return Err(ConnectionFault);
    }
    var rows := set k | k in db.watermarks && (k.entity == ClientsCsv || k.entity == TransactionsCsv);
    if HasCsvWatermark(db.watermarks) {
      var k :| k in db.watermarks && (k.entity == ClientsCsv || k.entity == TransactionsCsv);
      assert k in rows;
    }
    return Ok(|rows|);
  }

  /**
   * BootstrapFromCSVsIfNeeded. When the count fails, or finds a CSV watermark, nothing is
   * written. Otherwise every seed transactions file is imported, then every seed clients
   * file, and then the watermarks are seeded from the imported tables.
   */
  method BootstrapFromCsvsIfNeeded(db: Db, txFiles: seq<CsvFile>, clientFiles: seq<CsvFile>, sc: Scanners, now: Time)
    returns (err: Outcome, ghost txParsed: seq<Result<TransactionCsv.ParsedBatch>>,
             ghost clientsParsed: seq<Result<ClientCsv.ParsedClients>>)
    modifies db`transactions, db`items, db`clients, db`watermarks, db`round
    ensures old(db.round) in db.faulty || HasCsvWatermark(old(db.watermarks)) ==>
      db.round == old(db.round) + 1 &&
      db.transactions == old(db.transactions) && db.items == old(db.items) &&
      db.clients == old(db.clients) && db.watermarks == old(db.watermarks) &&
      err == if old(db.round) in db.faulty then Fail("check CSV watermarks: " + ConnectionFault) else Pass
    ensures old(db.round) !in db.faulty && !HasCsvWatermark(old(db.watermarks)) ==>
      |txParsed| == |txFiles| && |clientsParsed| == |clientFiles| &&
      (forall i :: 0 <= i < |txFiles| ==> TransactionCsv.Parses(txFiles[i], sc, txParsed[i])) &&
      (forall i :: 0 <= i < |clientFiles| ==> ClientCsv.Parses(clientFiles[i], sc, clientsParsed[i])) &&
      var tx := TxImportAll(old(db.transactions), old(db.items), old(db.round) + 1, db.faulty, txParsed, now);
      var cl := ClientsImportAll(old(db.clients), old(db.watermarks), tx.round, db.faulty, clientsParsed, now);
      db.transactions == tx.transactions && db.items == tx.items && db.clients == cl.clients &&
      (err.Pass? ==> db.watermarks == BootstrapResult(cl.watermarks, GroupMax(tx.items, tx.items.Keys),
                                                      OverallMax(cl.clients, cl.clients.Keys))) &&
      (err.Fail? ==> StartsWith(err.msg, "bootstrap watermarks: ") &&
                     PartlySeeded(cl.watermarks, GroupMax(tx.items, tx.items.Keys), db.watermarks)) &&
      (forall k :: AtLeast(Lookup(db.watermarks, k), Lookup(old(db.watermarks), k))) &&
      (forall k: WatermarkKey :: k.entity != TransactionsCsv && k.entity != ClientsCsv ==>
        Lookup(db.watermarks, k) == Lookup(old(db.watermarks), k))
  {
    txParsed, clientsParsed := [], [];
    var count := CountCsvWatermarks(db);
    if count.Err? {
      return Fail("check CSV watermarks: " + count.msg), txParsed, clientsParsed;
    }
    if count.value > 0 {
      return Pass, txParsed, clientsParsed;
    }
    err, txParsed := ImportAllTransactionsCsvs(db, txFiles, sc, now);
    ghost var rc, c0 := db.round, db.clients;
    err, clientsParsed := ImportAllClientCsvs(db, clientFiles, sc, now);
    ghost var w0 := old(db.watermarks);
    ghost var w1 := db.watermarks;
    ghost var seeds := GroupMax(db.items, db.items.Keys);
    ghost var cs := ClientSeed(OverallMax(db.clients, db.clients.Keys));
    ClientsImportAllMonotone(c0, w0, rc, db.faulty, clientsParsed, now);
    err := Bootstrap(db);
    if err.Fail? {
      err := Fail("bootstrap watermarks: " + err.msg);
      ghost var done :| done <= seeds.Keys && db.watermarks == Seeded(w1, TransactionsCsv, seeds, done);
      SeededKeeps(w1, TransactionsCsv, seeds, done);
    } else {
      ghost var mid := Seeded(w1, TransactionsCsv, seeds, seeds.Keys);
      SeededKeeps(w1, TransactionsCsv, seeds, seeds.Keys);
      SeededKeeps(mid, ClientsCsv, cs, cs.Keys);
    }
  }
}
