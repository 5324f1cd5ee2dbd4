/**
 * The incremental TRANSACTIONS_CSV sync: for every configured branch in order, read the
 * branch's transactions_csv watermark, ask for an export of the whole days from the
 * watermark's date to today, wait for the job, download its CSV and import it as one
 * transactions file. "No records found" and a finished job without a URL skip the branch;
 * every other error ends the run. The run itself writes no watermark.
 */
module TransactionsIncremental {
  import opened Wrappers
  import opened Text
  import opened Clock
  import opened Records
  import opened Store
  import opened CsvTable
  import opened WatermarksRepo
  import opened BootstrapWatermarks
  import opened ExportClient
  import opened SyncRunner
  import TransactionCsv

  /** The start date asked for when a branch has no watermark yet. */
  const DefaultStartDate := "2000-01-01"

  /** How long one job is waited for: five minutes. */
  const WaitMax := 300000

  /** The failure reason of a job that found nothing to export. */
  const NoRecordsFound := "No records found"

  /** startFilter: the default start of history, or the watermark's UTC date. */
  function StartDate(last: Option<Time>): string {
    if last.None? then DefaultStartDate else FormatDate(CivilDate(last.value))
  }

  /** finishFilter: today's UTC date. */
  function FinishDate(now: Time): string {
    FormatDate(CivilDate(now))
  }

  /** The filterExpression, the end of the finish day first and then the start of the start day. */
  function FilterExpression(startDate: string, finishDate: string): string {
    "updated=<" + (finishDate + "T23:59:59.999Z") + "&updated=>" + (startDate + "T00:00:00.000Z")
  }

  /** The instant the window opens at, for a watermark: midnight UTC of the watermark's date. */
  function WindowStart(last: Time): Time {
    TruncateToDay(last)
  }

  /** The instant the window closes at: the last millisecond of today. */
  function WindowEnd(now: Time): Time {
    TruncateToDay(now) + DayMs - 1
  }

  /** A midnight prints as its date followed by a zero clock. */
  lemma MidnightFormat(t: Time)
    requires t % DayMs == 0
    ensures FormatMillis(t) == FormatDate(CivilDate(t)) + "T00:00:00.000Z"
  {
    ClockOfDayEnds(t);
    assert PadDigits(0, 2) == "00";
    assert PadDigits(0, 3) == "000";
    assert ClockText(TimeOfDay(0, 0, 0, 0)) == "T00:00:00.000Z";
  }

  /** The last millisecond of a day prints as that day followed by 23:59:59.999. */
  lemma EndOfDayFormat(now: Time)
    ensures FormatMillis(WindowEnd(now)) == FormatDate(CivilDate(now)) + "T23:59:59.999Z"
  {
    var e := WindowEnd(now);
    SameDay(now, e);
    ClockOfDayEnds(e);
    LastMilliText();
  }

  /** The clock of the last millisecond of a day prints as 23:59:59.999. */
  lemma LastMilliText()
    ensures ClockText(TimeOfDay(23, 59, 59, 999)) == "T23:59:59.999Z"
  {
    PaddedLastMilli();
    var t := "T" + "23" + ":" + "59" + ":" + "59" + "." + "999" + "Z";
    assert |t| == 14;
    assert t == "T23:59:59.999Z";
  }

  /** The padded fields of 23:59:59.999. */
  lemma PaddedLastMilli()
    ensures PadDigits(23, 2) == "23" && PadDigits(59, 2) == "59" && PadDigits(999, 3) == "999"
  {
    assert NatToDigits(23) == "23";
    assert NatToDigits(59) == "59";
    assert NatToDigits(999) == "999";
  }

  /** The last millisecond of now's day has now's date. */
  lemma SameDay(now: Time, e: Time)
    requires e == WindowEnd(now)
    ensures CivilDate(e) == CivilDate(now) && e % DayMs == DayMs - 1
  {
    TruncateToDayUnique(e, TruncateToDay(now));
    SameCivilDate(e, now);
  }

  /**
   * With a watermark, the filter names the window in the export API's millisecond layout:
   * it closes at the last millisecond of today and opens at midnight of the watermark's
   * day. The window holds the watermark and now, and opens less than a day before the
   * watermark.
   */
  lemma FilterWindow(last: Time, now: Time)
    ensures FilterExpression(StartDate(Some(last)), FinishDate(now)) ==
      "updated=<" + FormatMillis(WindowEnd(now)) + "&updated=>" + FormatMillis(WindowStart(last))
    ensures WindowStart(last) <= last < WindowStart(last) + DayMs
    ensures now <= WindowEnd(now) < now + DayMs
  {
    var s := WindowStart(last);
    MidnightFormat(s);
    SameCivilDate(s, last);
    var startText := FormatMillis(s);
    assert startText == StartDate(Some(last)) + "T00:00:00.000Z";
    EndOfDayFormat(now);
    var endText := FormatMillis(WindowEnd(now));
    assert endText == FinishDate(now) + "T23:59:59.999Z";
  }

  /** Without a watermark the window opens at midnight of 2000-01-01 and still closes at the end of today. */
  lemma FilterFromHistoryStart(now: Time)
    ensures FilterExpression(StartDate(None), FinishDate(now)) ==
      "updated=<" + FormatMillis(WindowEnd(now)) + "&updated=>" + (DefaultStartDate + "T00:00:00.000Z")
  {
    EndOfDayFormat(now);
  }

  /** What one branch's export exchange leads to: an error, a skip, or a CSV to import. */
  datatype Step = Stop(msg: string) | Skip | Import(dest: string, file: CsvFile)

  /** filepath.Join of the export directory and a file name, without the Clean step that
   * removes repeated separators and "." or ".." elements. */
  function JoinPath(dir: string, name: string): string {
    if dir == "" then name else dir + "/" + name
  }

  /** Where a branch's CSV is saved: transactions_incremental_<branch>_<now as 20060102_150405>.csv. */
  function Destination(exportDir: string, branchId: string, now: Time): string {
    JoinPath(exportDir, "transactions_incremental_" + branchId + "_" + FormatCompact(now) + ".csv")
  }

  /**
   * Steps 2 to 5 for one branch whose watermark is `last`, at time `now`: build the window,
   * create the job, wait at most five minutes for it, and download its CSV.
   */
  function BranchStep(api: ExportApi, exportDir: string, branchId: string, last: Option<Time>, now: Time): Step {
    var startDate := StartDate(last);
    var finishDate := FinishDate(now);
    match CreateCSVExport(branchId, JobTypeTransactionsCsv, FilterExpression(startDate, finishDate),
                          startDate, finishDate, api.create)
    case Err(e) => Stop("create TRANSACTIONS_CSV export for " + branchId + ": " + e)
    case Ok(job) =>
      var final := WaitFrom(job.jobId, now, WaitMax, PollsOf(api, job.jobId), TimingsOf(api, job.jobId), 0);
      WaitFromSettles(job.jobId, now, WaitMax, PollsOf(api, job.jobId), TimingsOf(api, job.jobId), 0);
      if final.err.Some? then
        if final.job.Some? && final.job.value.failureReason == Some(NoRecordsFound) then Skip
        else Stop("wait for TRANSACTIONS_CSV job " + job.jobId + " (" + branchId + "): " + final.err.value)
      else
        var url := final.job.value.tempCsvExternalUrl;
        if url.None? || url.value == "" then Skip
        else match Downloaded(url.value, api.fetch)
          case Err(e) => Stop(branchId + ": download csv: " + e)
          case Ok(file) => Import(Destination(exportDir, branchId, now), file)
  }

  /** Steps 2 to 5 as the loop body runs them: create, WaitForCSVJob, DownloadCSV. */
  method ExportBranch(api: ExportApi, exportDir: string, branchId: string, last: Option<Time>, now: Time)
    returns (step: Step)
    ensures step == BranchStep(api, exportDir, branchId, last, now)
  {
    var startDate := StartDate(last);
    var finishDate := FinishDate(now);
    var filter := FilterExpression(startDate, finishDate);
    var created := CreateCSVExport(branchId, JobTypeTransactionsCsv, filter, startDate, finishDate, api.create);
    if created.Err? {
      return Stop("create TRANSACTIONS_CSV export for " + branchId + ": " + created.msg);
    }
    var job := created.value;
    var final, _, _ := WaitForCSVJob(job.jobId, now, WaitMax, PollsOf(api, job.jobId), TimingsOf(api, job.jobId));
    if final.err.Some? {
      if final.job.Some? && final.job.value.failureReason == Some(NoRecordsFound) {
        return Skip;
      }
      return Stop("wait for TRANSACTIONS_CSV job " + job.jobId + " (" + branchId + "): " + final.err.value);
    }
    WaitFromSettles(job.jobId, now, WaitMax, PollsOf(api, job.jobId), TimingsOf(api, job.jobId), 0);
    var url := final.job.value.tempCsvExternalUrl;
    if url.None? || url.value == "" {
      return Skip;
    }
    var dest := Destination(exportDir, branchId, now);
    var saved, _ := DownloadCSV(url.value, api.fetch);
    if saved.Err? {
      return Stop(branchId + ": download csv: " + saved.msg);
    }
    return Import(dest, saved.value);
  }

  /**
   * What a branch step means. The export asked for is the window of StartDate(last) to
   * FinishDate(now) under its filter. A branch is skipped exactly when the job was created
   * and either ended FAILED with the reason "No records found" or ended DONE without a URL;
   * a CSV comes to be imported only from a job that ended DONE with a URL, and it is what the
   * download saved.
   */
  lemma BranchStepMeaning(api: ExportApi, exportDir: string, branchId: string, last: Option<Time>, now: Time)
    ensures var req := ExportRequest(JobTypeTransactionsCsv, StartDate(last), FinishDate(now),
                                     FilterExpression(StartDate(last), FinishDate(now)));
      var created := CreateCSVExport(branchId, JobTypeTransactionsCsv, req.filterExpression, req.startFilter,
                                     req.finishFilter, api.create);
      var step := BranchStep(api, exportDir, branchId, last, now);
      (created.Err? ==> step.Stop?) &&
      (created.Ok? ==>
        var id := created.value.jobId;
        var final := WaitFrom(id, now, WaitMax, PollsOf(api, id), TimingsOf(api, id), 0);
        (step.Skip? <==>
          (final.job.Some? && final.err.Some? && final.job.value.jobStatus == StatusFailed &&
           final.job.value.failureReason == Some(NoRecordsFound)) ||
          (final.job.Some? && final.err.None? && final.job.value.jobStatus == StatusDone &&
           (final.job.value.tempCsvExternalUrl.None? || final.job.value.tempCsvExternalUrl.value == ""))) &&
        (step.Import? ==>
          final.err.None? && final.job.Some? && final.job.value.jobStatus == StatusDone &&
          final.job.value.tempCsvExternalUrl.Some? && final.job.value.tempCsvExternalUrl.value != "" &&
          Downloaded(final.job.value.tempCsvExternalUrl.value, api.fetch) == Ok(step.file)))
  {
    var startDate := StartDate(last);
    var finishDate := FinishDate(now);
    var created := CreateCSVExport(branchId, JobTypeTransactionsCsv, FilterExpression(startDate, finishDate),
                                   startDate, finishDate, api.create);
    if created.Ok? {
      var id := created.value.jobId;
      WaitFromSettles(id, now, WaitMax, PollsOf(api, id), TimingsOf(api, id), 0);
    }
  }

  /**
   * What a branch step does to the tables `s` (the watermark read already made): a stop
   * fails and a skip passes, both leaving the tables alone; an import of the CSV that parsed
   * as `parsed` is TxImport, its failure prefixed with the file's path.
   */
  function StepRun(step: Step, s: TxRun, faulty: set<nat>, parsed: Result<TransactionCsv.ParsedBatch>, now: Time): (r: TxRun)
    ensures r.round >= s.round
    ensures r.outcome.Fail? ==> r.transactions == s.transactions && r.items == s.items
    ensures step.Stop? ==> r == TxRun(s.transactions, s.items, s.round, Fail(step.msg))
    ensures step.Skip? ==> r == TxRun(s.transactions, s.items, s.round, Pass)
    ensures step.Import? ==> var run := TxImport(s.transactions, s.items, s.round, faulty, parsed, now);
      r.transactions == run.transactions && r.items == run.items && r.round == run.round &&
      r.outcome.Pass? == run.outcome.Pass?
  {
    match step
    case Stop(m) => TxRun(s.transactions, s.items, s.round, Fail(m))
    case Skip => TxRun(s.transactions, s.items, s.round, Pass)
    case Import(dest, file) =>
      var r := TxImport(s.transactions, s.items, s.round, faulty, parsed, now);
      if r.outcome.Fail? then TxRun(r.transactions, r.items, r.round, Fail("import incremental transactions csv " + dest + ": " + r.outcome.msg))
      else r
  }

  /**
   * One branch of the loop from the tables `s`: the watermark read (one round trip), then,
   * when it answered, `step`, the branch step for the watermark it read, run on the tables.
   */
  function BranchRun(faulty: set<nat>, branchId: string, step: Step, s: TxRun,
                     parsed: Result<TransactionCsv.ParsedBatch>, now: Time): (r: TxRun)
    ensures r.round > s.round
    ensures r.outcome.Fail? ==> r.transactions == s.transactions && r.items == s.items
    ensures r.outcome.Pass? ==> s.round !in faulty
  {
    if s.round in faulty then
      TxRun(s.transactions, s.items, s.round + 1, Fail("get transactions_csv watermark for " + branchId + ": " + ConnectionFault))
    else
      StepRun(step, TxRun(s.transactions, s.items, s.round + 1, s.outcome), faulty, parsed, now)
  }

  /**
   * The loop over the first |steps| branches, in configuration order, stopping at the first
   * failed branch: steps[i] is the branch step branch i took and parsed[i] how its CSV
   * parsed, when it had one. The branch loop reads time.Now once per branch, so branch i
   * runs at clock(i).
   */
  function SyncSteps(faulty: set<nat>, branches: seq<BranchConfig>, clock: nat -> Time, s0: TxRun,
                     steps: seq<Step>, parsed: seq<Result<TransactionCsv.ParsedBatch>>): TxRun
    requires |steps| == |parsed| <= |branches|
    decreases |parsed|
  {
    if parsed == [] then s0
    else
      var k := |parsed| - 1;
      var s := SyncSteps(faulty, branches, clock, s0, steps[..k], parsed[..k]);
      if s.outcome.Fail? then s
      else BranchRun(faulty, branches[k].branchId, steps[k], s, parsed[k], clock(k))
  }

  /**
   * A run that came through branch k went through every branch before it, and the tables
   * never leave what the imports made of them: a run that failed at its last branch holds
   * the tables the branches before it left.
   */
  lemma {:induction false} SyncStepsStops(faulty: set<nat>, branches: seq<BranchConfig>, clock: nat -> Time, s0: TxRun,
                                          steps: seq<Step>, parsed: seq<Result<TransactionCsv.ParsedBatch>>, k: nat)
    requires s0.outcome.Pass? && k <= |steps| == |parsed| <= |branches|
    ensures var r := SyncSteps(faulty, branches, clock, s0, steps, parsed);
      r.outcome.Pass? ==> SyncSteps(faulty, branches, clock, s0, steps[..k], parsed[..k]).outcome.Pass?
    ensures |parsed| > 0 ==>
      var r := SyncSteps(faulty, branches, clock, s0, steps, parsed);
      var before := SyncSteps(faulty, branches, clock, s0, steps[..|parsed| - 1], parsed[..|parsed| - 1]);
      r.outcome.Fail? && before.outcome.Pass? ==> r.transactions == before.transactions && r.items == before.items
    decreases |parsed|
  {
    if |parsed| > 0 && k < |parsed| {
      var n := |parsed| - 1;
      SyncStepsStops(faulty, branches, clock, s0, steps[..n], parsed[..n], k);
      assert steps[..n][..k] == steps[..k];
      assert parsed[..n][..k] == parsed[..k];
    } else if k == |parsed| {
      assert steps[..k] == steps && parsed[..k] == parsed;
    }
  }

  /** One more branch of the loop: the run so far passed, so the next branch runs from its tables. */
  lemma SyncStepsSnoc(faulty: set<nat>, branches: seq<BranchConfig>, clock: nat -> Time, s0: TxRun,
                      steps: seq<Step>, parsed: seq<Result<TransactionCsv.ParsedBatch>>,
                      step: Step, p: Result<TransactionCsv.ParsedBatch>)
    requires |steps| == |parsed| < |branches|
    requires SyncSteps(faulty, branches, clock, s0, steps, parsed).outcome.Pass?
    ensures SyncSteps(faulty, branches, clock, s0, steps + [step], parsed + [p]) ==
      BranchRun(faulty, branches[|parsed|].branchId, step, SyncSteps(faulty, branches, clock, s0, steps, parsed),
                p, clock(|parsed|))
  {
    assert (steps + [step])[..|parsed|] == steps;
    assert (parsed + [p])[..|parsed|] == parsed;
  }

  /**
   * A step that downloaded a CSV has it parse as p says. (Stated through the file so that
   * the reader's contract is only unfolded where a parse is looked at.)
   */
  ghost predicate ImportParses(step: Step, sc: Scanners, p: Result<TransactionCsv.ParsedBatch>) {
    forall file | step.Import? && file == step.file :: TransactionCsv.Parses(file, sc, p)
  }

  /** The branch step of branch i, for the watermarks w. */
  function StepAt(api: ExportApi, exportDir: string, w: Watermarks, branches: seq<BranchConfig>, clock: nat -> Time, i: nat): Step
    requires i < |branches|
  {
    BranchStep(api, exportDir, branches[i].branchId, Lookup(w, Key(TransactionsCsv, branches[i].branchId)), clock(i))
  }

  /** The branch steps the first n branches call for, for the watermarks w. */
  function Plan(api: ExportApi, exportDir: string, w: Watermarks, branches: seq<BranchConfig>, clock: nat -> Time, n: nat): (r: seq<Step>)
    requires n <= |branches|
    ensures |r| == n
  {
    if n == 0 then [] else Plan(api, exportDir, w, branches, clock, n - 1) + [StepAt(api, exportDir, w, branches, clock, n - 1)]
  }

  /*
   * The predicates below state an equation about one of the run or step functions through
   * a quantifier over one of its arguments, so that the equation is only unfolded where a
   * term of that function is looked at.
   */

  /** steps are the branch steps Plan calls for. */
  ghost predicate Planned(api: ExportApi, exportDir: string, w: Watermarks, branches: seq<BranchConfig>, clock: nat -> Time,
                          steps: seq<Step>)
  {
    |steps| <= |branches| && forall n | n == |steps| :: steps == Plan(api, exportDir, w, branches, clock, n)
  }

  /** step is the branch step for the watermark last at now. */
  ghost predicate TookStep(api: ExportApi, exportDir: string, branchId: string, last: Option<Time>, now: Time, step: Step) {
    forall l | l == last :: step == BranchStep(api, exportDir, branchId, l, now)
  }

  /** r is StepRun from s. */
  ghost predicate RanStep(step: Step, s: TxRun, faulty: set<nat>, parsed: Result<TransactionCsv.ParsedBatch>, now: Time,
                          r: TxRun) {
    forall q | q == s :: StepRun(step, q, faulty, parsed, now) == r
  }

  /** r is BranchRun from s. */
  ghost predicate RanBranch(faulty: set<nat>, branchId: string, step: Step, s: TxRun,
                            parsed: Result<TransactionCsv.ParsedBatch>, now: Time, r: TxRun) {
    forall q | q == s :: BranchRun(faulty, branchId, step, q, parsed, now) == r
  }

  /** r is SyncSteps from s0. */
  ghost predicate Synced(faulty: set<nat>, branches: seq<BranchConfig>, clock: nat -> Time, s0: TxRun,
                         steps: seq<Step>, parsed: seq<Result<TransactionCsv.ParsedBatch>>, r: TxRun)
    requires |steps| == |parsed| <= |branches|
  {
    forall q | q == s0 :: SyncSteps(faulty, branches, clock, q, steps, parsed) == r
  }

  /** SyncSteps from s0 passes. */
  ghost predicate PassedThrough(faulty: set<nat>, branches: seq<BranchConfig>, clock: nat -> Time, s0: TxRun,
                                steps: seq<Step>, parsed: seq<Result<TransactionCsv.ParsedBatch>>)
    requires |steps| == |parsed| <= |branches|
  {
    forall q | q == s0 :: SyncSteps(faulty, branches, clock, q, steps, parsed).outcome.Pass?
  }

  /** Every CSV the steps downloaded parsed as parsed says. */
  ghost predicate ParsedAsDownloaded(sc: Scanners, steps: seq<Step>, parsed: seq<Result<TransactionCsv.ParsedBatch>>)
    requires |steps| == |parsed|
  {
    forall i :: 0 <= i < |steps| ==> ImportParses(steps[i], sc, parsed[i])
  }

  /**
   * The loop body for one branch, from its watermark read to the import of its CSV: the
   * tables and the error are BranchRun's from the tables before. When the read answered,
   * step is the branch step for the watermark it read, and parsed how the CSV it downloaded
   * parsed.
   */
  method SyncBranch(db: Db, api: ExportApi, exportDir: string, branchId: string, now: Time, sc: Scanners)
    returns (err: Outcome, ghost step: Step, ghost parsed: Result<TransactionCsv.ParsedBatch>)
    modifies db`transactions, db`items, db`round
    ensures old(db.round) in db.faulty ==> err.Fail?
    ensures old(db.round) !in db.faulty ==>
      TookStep(api, exportDir, branchId, Lookup(db.watermarks, Key(TransactionsCsv, branchId)), now, step) &&
      ImportParses(step, sc, parsed)
    ensures RanBranch(db.faulty, branchId, step, TxRun(old(db.transactions), old(db.items), old(db.round), Pass), parsed, now,
                      TxRun(db.transactions, db.items, db.round, err))
  {
    ghost var s := TxRun(db.transactions, db.items, db.round, Pass);
    var last := GetLastUpdated(db, TransactionsCsv, branchId);
    if last.Err? {
      err, step, parsed := Fail("get transactions_csv watermark for " + branchId + ": " + last.msg), Skip, Err("");
    } else {
      err, step, parsed := ExportAndImport(db, api, exportDir, branchId, last.value, now, sc);
    }
    BranchRunCases(db.faulty, branchId, step, s, parsed, now, TxRun(db.transactions, db.items, db.round, err));
  }

  /** The loop body after the watermark read answered `last`: the branch step, then its import. */
  method ExportAndImport(db: Db, api: ExportApi, exportDir: string, branchId: string, last: Option<Time>, now: Time,
                         sc: Scanners)
    returns (err: Outcome, ghost step: Step, ghost parsed: Result<TransactionCsv.ParsedBatch>)
    modifies db`transactions, db`items, db`round
    ensures TookStep(api, exportDir, branchId, last, now, step)
    ensures ImportParses(step, sc, parsed)
    ensures RanStep(step, TxRun(old(db.transactions), old(db.items), old(db.round), Pass), db.faulty, parsed, now,
                    TxRun(db.transactions, db.items, db.round, err))
  {
    var s := ExportBranch(api, exportDir, branchId, last, now);
    step := s;
    err, parsed := RunStep(db, s, sc, now);
  }

  /** The rest of the loop body once the branch step is known: nothing, or the import of its CSV. */
  method RunStep(db: Db, step: Step, sc: Scanners, now: Time)
    returns (err: Outcome, ghost parsed: Result<TransactionCsv.ParsedBatch>)
    modifies db`transactions, db`items, db`round
    ensures step.Import? ==> TransactionCsv.Parses(step.file, sc, parsed)
    ensures StepRun(step, TxRun(old(db.transactions), old(db.items), old(db.round), Pass), db.faulty, parsed, now) ==
      TxRun(db.transactions, db.items, db.round, err)
  {
    parsed := Err("");
    if step.Stop? {
      return Fail(step.msg), parsed;
    }
    if step.Skip? {
      return Pass, parsed;
    }
    var e;
    parsed, e := ImportSingleTransactionsCsv(db, step.file, sc, now);
    if e.Fail? {
      return Fail("import incremental transactions csv " + step.dest + ": " + e.msg), parsed;
    }
    return Pass, parsed;
  }

  /** The branch step the loop took for branch |steps| extends the plan. */
  lemma PlannedSnoc(api: ExportApi, exportDir: string, w: Watermarks, branches: seq<BranchConfig>, clock: nat -> Time,
                    steps: seq<Step>, step: Step)
    requires |steps| < |branches| && Planned(api, exportDir, w, branches, clock, steps)
    requires TookStep(api, exportDir, branches[|steps|].branchId, Lookup(w, Key(TransactionsCsv, branches[|steps|].branchId)),
                      clock(|steps|), step)
    ensures Planned(api, exportDir, w, branches, clock, steps + [step])
  {
    assert Plan(api, exportDir, w, branches, clock, |steps| + 1) ==
      Plan(api, exportDir, w, branches, clock, |steps|) + [StepAt(api, exportDir, w, branches, clock, |steps|)];
  }

  /** One more branch's parse joins the record. */
  lemma ParsedSnoc(sc: Scanners, steps: seq<Step>, parsed: seq<Result<TransactionCsv.ParsedBatch>>,
                   step: Step, p: Result<TransactionCsv.ParsedBatch>)
    requires |steps| == |parsed| && ParsedAsDownloaded(sc, steps, parsed) && ImportParses(step, sc, p)
    ensures ParsedAsDownloaded(sc, steps + [step], parsed + [p])
  {
    var q, r := steps + [step], parsed + [p];
    forall i | 0 <= i < |q| ensures ImportParses(q[i], sc, r[i]) {
      if i < |steps| {
        assert q[i] == steps[i] && r[i] == parsed[i];
      }
    }
  }

  /** One more branch of a run that passed so far: the run goes on from where it stood. */
  lemma SyncedSnoc(faulty: set<nat>, branches: seq<BranchConfig>, clock: nat -> Time, s0: TxRun,
                   steps: seq<Step>, parsed: seq<Result<TransactionCsv.ParsedBatch>>,
                   step: Step, p: Result<TransactionCsv.ParsedBatch>, r: TxRun, r': TxRun)
    requires |steps| == |parsed| < |branches| && r.outcome.Pass?
    requires Synced(faulty, branches, clock, s0, steps, parsed, r)
    requires RanBranch(faulty, branches[|parsed|].branchId, step, r, p, clock(|parsed|), r')
    ensures Synced(faulty, branches, clock, s0, steps + [step], parsed + [p], r')
    ensures PassedThrough(faulty, branches, clock, s0, steps, parsed)
  {
    SyncStepsSnoc(faulty, branches, clock, s0, steps, parsed, step, p);
  }

  /** The loop's branch: a failed watermark read fails it, otherwise its step runs. */
  lemma BranchRunCases(faulty: set<nat>, branchId: string, step: Step, s: TxRun,
                       parsed: Result<TransactionCsv.ParsedBatch>, now: Time, r: TxRun)
    requires s.round in faulty ==>
      r == TxRun(s.transactions, s.items, s.round + 1, Fail("get transactions_csv watermark for " + branchId + ": " + ConnectionFault))
    requires s.round !in faulty ==> RanStep(step, TxRun(s.transactions, s.items, s.round + 1, s.outcome), faulty, parsed, now, r)
    ensures RanBranch(faulty, branchId, step, s, parsed, now, r)
  {
  }

  /**
   * RunIncrementalTransactionsSync. steps and parsed record, per branch reached, the branch
   * step it took and how its downloaded CSV parsed; the tables and the error are those of
   * SyncSteps over the branches reached. A run that succeeds reached every branch, each
   * taking the step its watermark calls for; one that fails stopped at the first failed
   * branch, every branch before it having taken its step and passed. The watermarks are
   * only read.
   */
  method RunIncrementalTransactionsSync(db: Db, api: ExportApi, exportDir: string, branches: seq<BranchConfig>,
                                        clock: nat -> Time, sc: Scanners)
    returns (err: Outcome, ghost steps: seq<Step>, ghost parsed: seq<Result<TransactionCsv.ParsedBatch>>)
    modifies db`transactions, db`items, db`round
    ensures |steps| == |parsed| <= |branches|
    ensures Synced(db.faulty, branches, clock, TxRun(old(db.transactions), old(db.items), old(db.round), Pass), steps, parsed,
                   TxRun(db.transactions, db.items, db.round, err))
    ensures err.Pass? ==>
      |parsed| == |branches| && Planned(api, exportDir, db.watermarks, branches, clock, steps) &&
      ParsedAsDownloaded(sc, steps, parsed)
    ensures err.Fail? ==> 0 < |parsed|
    ensures err.Fail? ==>
      var n := |parsed| - 1;
      Planned(api, exportDir, db.watermarks, branches, clock, steps[..n]) &&
      ParsedAsDownloaded(sc, steps[..n], parsed[..n]) &&
      PassedThrough(db.faulty, branches, clock, TxRun(old(db.transactions), old(db.items), old(db.round), Pass),
                    steps[..n], parsed[..n])
  {
    ghost var s0 := TxRun(db.transactions, db.items, db.round, Pass);
    steps, parsed := [], [];
    var i := 0;
    while i < |branches|
      invariant i == |steps| == |parsed| <= |branches|
      invariant Planned(api, exportDir, db.watermarks, branches, clock, steps)
      invariant ParsedAsDownloaded(sc, steps, parsed)
      invariant Synced(db.faulty, branches, clock, s0, steps, parsed, TxRun(db.transactions, db.items, db.round, Pass))
    {
      ghost var before := TxRun(db.transactions, db.items, db.round, Pass);
      var e, step, p := SyncBranch(db, api, exportDir, branches[i].branchId, clock(i), sc);
      SyncedSnoc(db.faulty, branches, clock, s0, steps, parsed, step, p, before, TxRun(db.transactions, db.items, db.round, e));
      if e.Fail? {
        assert (steps + [step])[..i] == steps && (parsed + [p])[..i] == parsed;
        return e, steps + [step], parsed + [p];
      }
      PlannedSnoc(api, exportDir, db.watermarks, branches, clock, steps, step);
      ParsedSnoc(sc, steps, parsed, step, p);
      steps, parsed := steps + [step], parsed + [p];
      i := i + 1;
    }
    err := Pass;
  }
}
