/**
 * ParseReviewsCSV: a reviews CSV previously written by writeReviewsCSV, read back by its
 * header into reviews ready to upsert, in file order, skipping rows without a review_id or
 * a branch_id.
 */
module ReviewCsv {
  import opened Wrappers
  import opened Text
  import opened Clock
  import opened Records
  import opened CsvTable

  datatype ParsedReviews = ParsedReviews(reviews: seq<Review>)

  // The column names the reader looks up and the writer writes.
  const ReviewIdColumn := "review_id"
  const BranchIdColumn := "branch_id"
  const ClientIdColumn := "client_id"
  const ClientFirstNameColumn := "client_first_name"
  const ClientLastNameColumn := "client_last_name"
  const ReviewDateColumn := "review_date"
  const VisitDateColumn := "visit_date"
  const StaffIdColumn := "staff_id"
  const StaffFirstNameColumn := "staff_first_name"
  const StaffLastNameColumn := "staff_last_name"
  const TextColumn := "text"
  const RatingColumn := "rating"
  const FacebookReviewColumn := "facebook_review"
  const TwitterReviewColumn := "twitter_review"

  /** The two columns a row must carry to be read at all: review_id, then branch_id. */
  const ReviewKeys: seq<string> := [ReviewIdColumn, BranchIdColumn]

  lemma ReviewKeysOf(idx: map<string, nat>, rec: seq<string>)
    ensures HasKeys(idx, rec, ReviewKeys) <==>
      Get(idx, rec, ReviewIdColumn) != "" && Get(idx, rec, BranchIdColumn) != ""
  {
    assert ReviewKeys[0] == ReviewIdColumn && ReviewKeys[1] == BranchIdColumn;
  }

  /**
   * The reviews' parseDate: nil for "", otherwise the first of "2006-01-02", RFC3339 and
   * "2006-01-02T15:04:05" that fits, nil when none does.
   */
  function ParseReviewDate(sc: Scanners, s: string): (r: Option<Time>)
    ensures TrimSpace(s) == "" ==> r.None?
  {
    var t := TrimSpace(s);
    if t == "" then None
    else match ParseDate(t)
      case Some(d) => Some(DateToTime(d))
      case None => sc.isoStamp(t)
  }

  /** The review of one kept record. */
  function ReviewOf(sc: Scanners, idx: map<string, nat>, rec: seq<string>): Review {
    Review(
      Get(idx, rec, ReviewIdColumn),
      Get(idx, rec, BranchIdColumn),
      Get(idx, rec, ClientIdColumn),
      Get(idx, rec, ClientFirstNameColumn),
      Get(idx, rec, ClientLastNameColumn),
      ParseReviewDate(sc, Get(idx, rec, ReviewDateColumn)),
      ParseReviewDate(sc, Get(idx, rec, VisitDateColumn)),
      Get(idx, rec, StaffIdColumn),
      Get(idx, rec, StaffFirstNameColumn),
      Get(idx, rec, StaffLastNameColumn),
      Get(idx, rec, TextColumn),
      ParseIntOrZero(Get(idx, rec, RatingColumn)),
      ParseBool(Get(idx, rec, FacebookReviewColumn)),
      ParseBool(Get(idx, rec, TwitterReviewColumn)))
  }

  function ReviewsOf(sc: Scanners, idx: map<string, nat>, recs: seq<seq<string>>): seq<Review> {
    seq(|recs|, i requires 0 <= i < |recs| => ReviewOf(sc, idx, recs[i]))
  }

  lemma ReviewsOfSnoc(sc: Scanners, idx: map<string, nat>, recs: seq<seq<string>>, rec: seq<string>)
    ensures ReviewsOf(sc, idx, recs + [rec]) == ReviewsOf(sc, idx, recs) + [ReviewOf(sc, idx, rec)]
  {
  }

  /**
   * What the reader returns: the header error, the error of the first line that fails with
   * the number of records read before it, or the review of every kept row in file order.
   */
  function ReadReviews(file: CsvFile, sc: Scanners): Result<ParsedReviews> {
    match file.header
    case Broken(reason) => Err("read header: " + reason)
    case Record(header) =>
      var idx := HeaderIndex(header);
      match FirstBroken(file.body, |file.body|)
      case Some(i) => Err("read row " + Itoa(i) + ": " + file.body[i].reason)
      case None => Ok(ParsedReviews(ReviewsOf(sc, idx, KeptRecords(idx, file.body, |file.body|, ReviewKeys))))
  }

  method ParseReviewsCSV(file: CsvFile, sc: Scanners) returns (r: Result<ParsedReviews>)
    ensures r == ReadReviews(file, sc)
  {
    if file.header.Broken? {
      return Err("read header: " + file.header.reason);
    }
    var idx := BuildIndex(file.header.fields);
    var body := file.body;
    var out: seq<Review> := [];
    var row := 0;
    ghost var recs: seq<seq<string>> := [];
    while row < |body|
      invariant row <= |body|
      invariant FirstBroken(body, row).None?
      invariant recs == KeptRecords(idx, body, row, ReviewKeys)
      invariant out == ReviewsOf(sc, idx, recs)
    {
      if body[row].Broken? {
        FirstBrokenAt(body, row, |body|);
        return Err("read row " + Itoa(row) + ": " + body[row].reason);
      }
      var rec := body[row].fields;
      KeptRecordsStep(idx, body, row, ReviewKeys);
      ReviewKeysOf(idx, rec);
      row := row + 1;
      var reviewId := Get(idx, rec, ReviewIdColumn);
      if reviewId == "" {
        continue;
      }
      var branchId := Get(idx, rec, BranchIdColumn);
      if branchId == "" {
        continue;
      }
      ReviewsOfSnoc(sc, idx, recs, rec);
      recs := recs + [rec];
      out := out + [ReviewOf(sc, idx, rec)];
    }
    r := Ok(ParsedReviews(out));
  }

  // ---- what the parsed reviews satisfy ----

  /** Every review read carries a review_id and a branch_id. */
  lemma ReviewsHaveIds(file: CsvFile, sc: Scanners)
    requires ReadReviews(file, sc).Ok?
    ensures forall rv :: rv in ReadReviews(file, sc).value.reviews ==> rv.reviewId != "" && rv.branchId != ""
  {
    var idx := HeaderIndex(file.header.fields);
    var recs := KeptRecords(idx, file.body, |file.body|, ReviewKeys);
    KeptRecordsKeyed(idx, file.body, |file.body|, ReviewKeys);
    forall i | 0 <= i < |recs|
      ensures ReviewOf(sc, idx, recs[i]).reviewId != "" && ReviewOf(sc, idx, recs[i]).branchId != ""
    {
      ReviewKeysOf(idx, recs[i]);
    }
  }

  /** A reader error names the first line encoding/csv failed on; every line before it was a record. */
  lemma ReadReviewsError(file: CsvFile, sc: Scanners)
    requires file.header.Record? && ReadReviews(file, sc).Err?
    ensures exists i: nat :: (i < |file.body| && file.body[i].Broken? &&
      (forall k :: 0 <= k < i ==> file.body[k].Record?) &&
      ReadReviews(file, sc).msg == "read row " + Itoa(i) + ": " + file.body[i].reason)
  {
    FirstBrokenIsFirst(file.body, |file.body|);
    var i := FirstBroken(file.body, |file.body|).value;
    assert ReadReviews(file, sc).msg == "read row " + Itoa(i) + ": " + file.body[i].reason;
  }
}
