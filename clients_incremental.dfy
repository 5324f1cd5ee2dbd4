/**
 * The incremental CLIENT_CSV sync: read the clients_csv/ALL watermark, ask the first
 * configured branch for an export of the clients updated since it (everything when there is
 * none), wait for the job, download its CSV and import it as one clients file, which also
 * advances the watermark. Unlike the transactions flow, every failure of the export
 * exchange is an error, "No records found" and a finished job without a URL included.
 */
module ClientsIncremental {
  import opened Wrappers
  import opened Clock
  import opened Records
  import opened Store
  import opened CsvTable
  import opened WatermarksRepo
  import opened BootstrapWatermarks
  import opened ExportClient
  import opened SyncRunner
  import ClientCsv
  import TransactionsIncremental

  /**
   * The filterExpression: empty (a full export) without a watermark, otherwise the clients
   * updated after the watermark instant, written to the millisecond.
   */
  function ClientsFilter(last: Option<Time>): (r: string)
    ensures r == "" <==> last.None?
    ensures last.Some? ==> |r| >= 9 && r[..9] == "updated=>" && r[9..] == FormatMillis(last.value)
  {
    if last.None? then "" else "updated=>" + FormatMillis(last.value)
  }

  /**
   * Steps 3 to 5 on the chosen branch: create the CLIENT_CSV job with the filter and empty
   * start and finish filters, wait at most five minutes for it, and download its CSV. Every
   * failure on the way is an error carrying the step's prefix.
   */
  function ClientsExport(api: ExportApi, branchId: string, last: Option<Time>, now: Time): Result<CsvFile> {
    match CreateCSVExport(branchId, JobTypeClientsCsv, ClientsFilter(last), "", "", api.create)
    case Err(e) => Err("create CLIENT_CSV export: " + e)
    case Ok(job) =>
      var final := WaitFrom(job.jobId, now, TransactionsIncremental.WaitMax, PollsOf(api, job.jobId),
                            TimingsOf(api, job.jobId), 0);
      WaitFromSettles(job.jobId, now, TransactionsIncremental.WaitMax, PollsOf(api, job.jobId),
                      TimingsOf(api, job.jobId), 0);
      if final.err.Some? then Err("wait for job " + job.jobId + ": " + final.err.value)
      else
        var url := final.job.value.tempCsvExternalUrl;
        if url.None? || url.value == "" then Err("job " + job.jobId + " DONE but no csv URL")
        else match Downloaded(url.value, api.fetch)
          case Err(e) => Err("download csv: " + e)
          case Ok(file) => Ok(file)
  }

  /** Steps 3 to 5 as the method runs them. */
  method ExportClients(api: ExportApi, branchId: string, last: Option<Time>, now: Time) returns (r: Result<CsvFile>)
    ensures r == ClientsExport(api, branchId, last, now)
  {
    var created := CreateCSVExport(branchId, JobTypeClientsCsv, ClientsFilter(last), "", "", api.create);
    if created.Err? {
      return Err("create CLIENT_CSV export: " + created.msg);
    }
    var job := created.value;
    var final, _, _ := WaitForCSVJob(job.jobId, now, TransactionsIncremental.WaitMax, PollsOf(api, job.jobId),
                                     TimingsOf(api, job.jobId));
    if final.err.Some? {
      return Err("wait for job " + job.jobId + ": " + final.err.value);
    }
    WaitFromSettles(job.jobId, now, TransactionsIncremental.WaitMax, PollsOf(api, job.jobId), TimingsOf(api, job.jobId), 0);
    var url := final.job.value.tempCsvExternalUrl;
    if url.None? || url.value == "" {
      return Err("job " + job.jobId + " DONE but no csv URL");
    }
    var saved, _ := DownloadCSV(url.value, api.fetch);
    if saved.Err? {
      return Err("download csv: " + saved.msg);
    }
    return Ok(saved.value);
  }

  /**
   * What the export exchange means: it yields a CSV exactly when the job was created, its
   * wait ended DONE with a non-empty URL, and a download of that URL succeeded, and the CSV
   * is the one downloaded. A job that ended FAILED, whatever its reason, is an error.
   */
  lemma ClientsExportMeaning(api: ExportApi, branchId: string, last: Option<Time>, now: Time)
    ensures var created := CreateCSVExport(branchId, JobTypeClientsCsv, ClientsFilter(last), "", "", api.create);
      var r := ClientsExport(api, branchId, last, now);
      (created.Err? ==> r.Err?) &&
      (created.Ok? ==>
        var id := created.value.jobId;
        var final := WaitFrom(id, now, TransactionsIncremental.WaitMax, PollsOf(api, id), TimingsOf(api, id), 0);
        (final.job.Some? && final.job.value.jobStatus == StatusFailed ==> r.Err?) &&
        (r.Ok? <==>
          final.err.None? && final.job.Some? && final.job.value.jobStatus == StatusDone &&
          final.job.value.tempCsvExternalUrl.Some? && final.job.value.tempCsvExternalUrl.value != "" &&
          Downloaded(final.job.value.tempCsvExternalUrl.value, api.fetch).Ok?) &&
        (r.Ok? ==> Downloaded(final.job.value.tempCsvExternalUrl.value, api.fetch) == r))
  {
    var created := CreateCSVExport(branchId, JobTypeClientsCsv, ClientsFilter(last), "", "", api.create);
    if created.Ok? {
      var id := created.value.jobId;
      WaitFromSettles(id, now, TransactionsIncremental.WaitMax, PollsOf(api, id), TimingsOf(api, id), 0);
    }
  }

  /**
   * The CSV the exchange downloaded, if any, parsed as parsed says. (Stated through a
   * quantifier over the watermark so that the exchange is only unfolded where it is looked at.)
   */
  ghost predicate ExportParses(api: ExportApi, branchId: string, last: Option<Time>, now: Time, sc: Scanners,
                               parsed: Result<ClientCsv.ParsedClients>) {
    forall l | l == last :: ClientsExport(api, branchId, l, now).Ok? ==>
      ClientCsv.Parses(ClientsExport(api, branchId, l, now).value, sc, parsed)
  }

  /**
   * The sync after its watermark read answered last: the branch choice, the export exchange
   * on the first branch, and the import of its CSV, which parsed as parsed.
   */
  function ClientsFetched(api: ExportApi, branches: seq<BranchConfig>, last: Option<Time>, now: Time, faulty: set<nat>,
                          s: ClientsRun, parsed: Result<ClientCsv.ParsedClients>): (r: ClientsRun)
    ensures r.round >= s.round
    ensures r.outcome.Fail? ==> r.clients == s.clients && r.watermarks == s.watermarks
  {
    if |branches| == 0 then
      ClientsRun(s.clients, s.watermarks, s.round, Fail("no branches available"))
    else match ClientsExport(api, branches[0].branchId, last, now)
      case Err(e) => ClientsRun(s.clients, s.watermarks, s.round, Fail(e))
      case Ok(_) =>
        var r := ClientsImport(s.clients, s.watermarks, s.round, faulty, parsed, now);
        if r.outcome.Fail? then r.(outcome := Fail("import incremental clients csv: " + r.outcome.msg)) else r
  }

  /**
   * r is ClientsFetched from s. (Stated through a quantifier over the tables so that the
   * flow is only unfolded where a ClientsFetched term is looked at.)
   */
  ghost predicate Fetched(api: ExportApi, branches: seq<BranchConfig>, last: Option<Time>, now: Time, faulty: set<nat>,
                          s: ClientsRun, parsed: Result<ClientCsv.ParsedClients>, r: ClientsRun) {
    forall q | q == s :: ClientsFetched(api, branches, last, now, faulty, q, parsed) == r
  }

  /**
   * RunIncrementalClientsSync from the tables s: the watermark read of clients_csv/ALL (one
   * round trip), then ClientsFetched for the watermark it read.
   */
  function ClientsSync(api: ExportApi, branches: seq<BranchConfig>, now: Time, faulty: set<nat>, s: ClientsRun,
                       parsed: Result<ClientCsv.ParsedClients>): (r: ClientsRun)
    ensures r.round > s.round
    ensures r.outcome.Fail? ==> r.clients == s.clients && r.watermarks == s.watermarks
  {
    if s.round in faulty then
      ClientsRun(s.clients, s.watermarks, s.round + 1, Fail("get clients_csv watermark: " + ConnectionFault))
    else
      ClientsFetched(api, branches, Lookup(s.watermarks, Key(ClientsCsv, All)), now, faulty,
                     s.(round := s.round + 1), parsed)
  }

  /**
   * RunIncrementalClientsSync. The tables, the round trips and the error are ClientsSync's
   * from the tables before the call; parsed is how the downloaded CSV parsed.
   */
  method RunIncrementalClientsSync(db: Db, api: ExportApi, branches: seq<BranchConfig>, now: Time, sc: Scanners)
    returns (err: Outcome, ghost parsed: Result<ClientCsv.ParsedClients>)
    modifies db`clients, db`watermarks, db`round
    ensures old(db.round) !in db.faulty && |branches| > 0 ==>
      ExportParses(api, branches[0].branchId, Lookup(old(db.watermarks), Key(ClientsCsv, All)), now, sc, parsed)
    ensures ClientsSync(api, branches, now, db.faulty, ClientsRun(old(db.clients), old(db.watermarks), old(db.round), Pass),
                        parsed) == ClientsRun(db.clients, db.watermarks, db.round, err)
  {
    parsed := Err("");
    var last := GetLastUpdated(db, ClientsCsv, All);
    if last.Err? {
      return Fail("get clients_csv watermark: " + last.msg), parsed;
    }
    err, parsed := FetchClients(db, api, branches, last.value, now, sc);
  }

  /** The sync once its watermark read answered last. */
  method FetchClients(db: Db, api: ExportApi, branches: seq<BranchConfig>, last: Option<Time>, now: Time, sc: Scanners)
    returns (err: Outcome, ghost parsed: Result<ClientCsv.ParsedClients>)
    modifies db`clients, db`watermarks, db`round
    ensures |branches| > 0 ==> ExportParses(api, branches[0].branchId, last, now, sc, parsed)
    ensures Fetched(api, branches, last, now, db.faulty, ClientsRun(old(db.clients), old(db.watermarks), old(db.round), Pass),
                    parsed, ClientsRun(db.clients, db.watermarks, db.round, err))
  {
    parsed := Err("");
    if |branches| == 0 {
      return Fail("no branches available"), parsed;
    }
    var ex := ExportClients(api, branches[0].branchId, last, now);
    if ex.Err? {
      return Fail(ex.msg), parsed;
    }
    var e;
    parsed, e := ImportSingleClientsCsv(db, ex.value, sc, now);
    if e.Fail? {
      return Fail("import incremental clients csv: " + e.msg), parsed;
    }
    err := Pass;
  }

  /**
   * A sync that passed read the watermark, used the first branch, asked for the clients
   * updated since the watermark, downloaded a CSV that parsed, and moved clients_csv/ALL to
   * GREATEST(stored, newest client timestamp in the file) and no other watermark.
   */
  lemma ClientsSyncPasses(api: ExportApi, branches: seq<BranchConfig>, now: Time, faulty: set<nat>, s: ClientsRun,
                          parsed: Result<ClientCsv.ParsedClients>)
    requires ClientsSync(api, branches, now, faulty, s, parsed).outcome.Pass?
    ensures var r := ClientsSync(api, branches, now, faulty, s, parsed);
      var last := Lookup(s.watermarks, Key(ClientsCsv, All));
      s.round !in faulty && |branches| > 0 && ClientsExport(api, branches[0].branchId, last, now).Ok? &&
      parsed.Ok? && r.watermarks == ClientsWatermark(s.watermarks, MaxStamp(parsed.value.clients)) &&
      (forall k :: AtLeast(Lookup(r.watermarks, k), Lookup(s.watermarks, k))) &&
      (forall k :: k != Key(ClientsCsv, All) ==> Lookup(r.watermarks, k) == Lookup(s.watermarks, k))
  {
    var last := Lookup(s.watermarks, Key(ClientsCsv, All));
    var ex := ClientsExport(api, branches[0].branchId, last, now);
    assert ex.Ok?;
    assert parsed.Ok?;
    ClientsImportAdvances(s.clients, s.watermarks, s.round + 1, faulty, parsed.value, now);
  }
}
