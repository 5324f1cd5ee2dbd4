/**
 * The one-off reviews bootstrap: when the reviews table is empty, import every archived
 * reviews CSV (the .csv files of the data/reviews directory, in the order the directory listing gives them),
 * skipping files without reviews. A parse error or a failed upsert ends the bootstrap.
 */
module ReviewsBootstrap {
  import opened Wrappers
  import opened Records
  import opened CsvTable
  import opened Chunks
  import opened Upserts
  import opened Store
  import opened ReviewsRepo
  import opened ReviewCsv

  /** An archived CSV file: its path and its content. */
  datatype ArchivedCsv = ArchivedCsv(path: string, file: CsvFile)

  /** The reviews table, the round-trip counter, and how the bootstrap ended so far. */
  datatype BootRun = BootRun(reviews: map<string, Review>, round: nat, outcome: Outcome)

  /** The import of the files from r on, head first; the first error ends it. */
  function ImportFiles(files: seq<ArchivedCsv>, sc: Scanners, faulty: set<nat>, r: BootRun): (r': BootRun)
    ensures r'.round >= r.round
    ensures r.outcome.Fail? ==> r' == r
    decreases |files|
  {
    if files == [] || r.outcome.Fail? then r
    else
      var f := files[0];
      match ReadReviews(f.file, sc)
      case Err(e) => r.(outcome := Fail("parse reviews csv " + f.path + ": " + e))
      case Ok(batch) =>
        if batch.reviews == [] then ImportFiles(files[1..], sc, faulty, r)
        else
          var run := SendAll(ReviewsPolicy(), r.reviews, ChunksOf(batch.reviews, ChunkSize), r.round, faulty);
          SendAllRounds(ReviewsPolicy(), r.reviews, ChunksOf(batch.reviews, ChunkSize), r.round, faulty);
          if run.outcome.Fail? then BootRun(run.table, run.round, Fail("upsert reviews from " + f.path + ": " + run.outcome.msg))
          else ImportFiles(files[1..], sc, faulty, BootRun(run.table, run.round, Pass))
  }

  /**
   * BootstrapReviewsFromCSVsIfNeeded from the table `reviews`: count the stored reviews (one
   * round trip); with any stored, do nothing; otherwise import the files.
   */
  function Bootstrap(files: seq<ArchivedCsv>, sc: Scanners, faulty: set<nat>, reviews: map<string, Review>, round: nat)
    : (r: BootRun)
    ensures r.round > round
    ensures |reviews| > 0 ==> r.reviews == reviews
  {
    if round in faulty then BootRun(reviews, round + 1, Fail("count reviews: " + ConnectionFault))
    else if |reviews| > 0 then BootRun(reviews, round + 1, Pass)
    else ImportFiles(files, sc, faulty, BootRun(reviews, round + 1, Pass))
  }

  /** BootstrapReviewsFromCSVsIfNeeded. */
  method BootstrapReviewsFromCSVsIfNeeded(db: Db, files: seq<ArchivedCsv>, sc: Scanners) returns (err: Outcome)
    modifies db`reviews, db`round
    ensures BootRun(db.reviews, db.round, err) == Bootstrap(files, sc, db.faulty, old(db.reviews), old(db.round))
  {
    var ok := db.RoundTrip();
    if !ok {
      return Fail("count reviews: " + ConnectionFault);
    }
    if |db.reviews| > 0 {
      return Pass;
    }
    if |files| == 0 {
      return Pass;
    }
    ghost var total := ImportFiles(files, sc, db.faulty, BootRun(db.reviews, db.round, Pass));
    for i := 0 to |files|
      invariant total == ImportFiles(files[i..], sc, db.faulty, BootRun(db.reviews, db.round, Pass))
    {
      assert files[i..][1..] == files[i + 1..];
      var f := files[i];
      var batch := ParseReviewsCSV(f.file, sc);
      if batch.Err? {
        return Fail("parse reviews csv " + f.path + ": " + batch.msg);
      }
      if |batch.value.reviews| == 0 {
        continue;
      }
      var e := UpsertMany(db, batch.value.reviews);
      if e.Fail? {
        return Fail("upsert reviews from " + f.path + ": " + e.msg);
      }
    }
    return Pass;
  }

  // ---- what the bootstrap promises ----

  /** A stored review is kept, unchanged. */
  ghost predicate KeepsStored(before: map<string, Review>, after: map<string, Review>) {
    forall id :: id in before ==> id in after && after[id] == before[id]
  }

  /** The import never changes a stored review, whatever fails on the way. */
  lemma {:induction false} ImportKeepsStored(files: seq<ArchivedCsv>, sc: Scanners, faulty: set<nat>, r: BootRun)
    ensures KeepsStored(r.reviews, ImportFiles(files, sc, faulty, r).reviews)
    decreases |files|
  {
    if files != [] && r.outcome.Pass? {
      var batch := ReadReviews(files[0].file, sc);
      if batch.Ok? && batch.value.reviews != [] {
        var run := SendAll(ReviewsPolicy(), r.reviews, ChunksOf(batch.value.reviews, ChunkSize), r.round, faulty);
        UpsertManyKeepsStored(r.reviews, batch.value.reviews, r.round, faulty);
        if run.outcome.Pass? {
          ImportKeepsStored(files[1..], sc, faulty, BootRun(run.table, run.round, Pass));
        }
      } else if batch.Ok? {
        ImportKeepsStored(files[1..], sc, faulty, r);
      }
    }
  }

  /** The file parses, and (some review with) the id of each of its reviews is stored. */
  ghost predicate FileStored(f: ArchivedCsv, sc: Scanners, reviews: map<string, Review>) {
    ReadReviews(f.file, sc).Ok? &&
    forall i :: 0 <= i < |ReadReviews(f.file, sc).value.reviews| ==>
      ReadReviews(f.file, sc).value.reviews[i].reviewId in reviews
  }

  /** A stored file stays stored while stored reviews are kept. */
  lemma FileStoredKept(f: ArchivedCsv, sc: Scanners, before: map<string, Review>, after: map<string, Review>)
    requires FileStored(f, sc, before) && KeepsStored(before, after)
    ensures FileStored(f, sc, after)
  {
  }

  /** The first file of an import that passed parsed, and the rest of the import runs on from a state that stores it. */
  lemma ImportFirst(files: seq<ArchivedCsv>, sc: Scanners, faulty: set<nat>, r: BootRun) returns (next: BootRun)
    requires files != [] && r.outcome.Pass? && ImportFiles(files, sc, faulty, r).outcome.Pass?
    ensures next.outcome.Pass? && FileStored(files[0], sc, next.reviews)
    ensures ImportFiles(files, sc, faulty, r) == ImportFiles(files[1..], sc, faulty, next)
  {
    var rows := ReadReviews(files[0].file, sc).value.reviews;
    next := r;
    if rows != [] {
      var run := SendAll(ReviewsPolicy(), r.reviews, ChunksOf(rows, ChunkSize), r.round, faulty);
      UpsertManyOutcome(r.reviews, rows, r.round, faulty);
      ReviewsStatement(r.reviews, rows);
      next := BootRun(run.table, run.round, Pass);
      forall i | 0 <= i < |rows| ensures rows[i].reviewId in next.reviews {
        assert rows[i].reviewId in ReviewIds(rows);
      }
    }
  }

  /** An import that passed parsed every file, and stored the ids of the reviews of every file. */
  lemma {:induction false} ImportStoresAll(files: seq<ArchivedCsv>, sc: Scanners, faulty: set<nat>, r: BootRun)
    requires r.outcome.Pass? && ImportFiles(files, sc, faulty, r).outcome.Pass?
    ensures forall j :: 0 <= j < |files| ==> FileStored(files[j], sc, ImportFiles(files, sc, faulty, r).reviews)
    decreases |files|
  {
    if files != [] {
      var next := ImportFirst(files, sc, faulty, r);
      var after := ImportFiles(files[1..], sc, faulty, next).reviews;
      ImportStoresAll(files[1..], sc, faulty, next);
      ImportKeepsStored(files[1..], sc, faulty, next);
      FileStoredKept(files[0], sc, next.reviews, after);
      forall j | 1 <= j < |files| ensures FileStored(files[j], sc, after) {
        assert files[1..][j - 1] == files[j];
      }
    }
  }

  /**
   * The bootstrap only ever imports into an empty table: with any review stored it changes
   * nothing but the round-trip counter; and when it passes on an empty table every archived
   * file parsed and the id of every review in it is stored.
   */
  lemma BootstrapMeaning(files: seq<ArchivedCsv>, sc: Scanners, faulty: set<nat>, reviews: map<string, Review>, round: nat)
    ensures var r := Bootstrap(files, sc, faulty, reviews, round);
      |reviews| > 0 ==> r.reviews == reviews && r.round == round + 1
    ensures var r := Bootstrap(files, sc, faulty, reviews, round);
      |reviews| == 0 && r.outcome.Pass? ==> forall j :: 0 <= j < |files| ==> FileStored(files[j], sc, r.reviews)
  {
    if |reviews| == 0 && round !in faulty && Bootstrap(files, sc, faulty, reviews, round).outcome.Pass? {
      ImportStoresAll(files, sc, faulty, BootRun(reviews, round + 1, Pass));
    }
  }
}
