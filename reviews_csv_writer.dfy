/**
 * writeReviewsCSV: the fixed lower-case header, then one record per review. Its partner is
 * ParseReviewsCSV: what the writer writes, the reader reads back.
 */
module ReviewCsvWriter {
  import opened Wrappers
  import opened Text
  import opened Clock
  import opened Records
  import opened CsvTable
  import opened ReviewCsv

  /** The header, in the order the record fields follow it. */
  const ReviewHeader: seq<string> := [
    ReviewIdColumn, BranchIdColumn, ClientIdColumn, ClientFirstNameColumn, ClientLastNameColumn,
    ReviewDateColumn, VisitDateColumn, StaffIdColumn, StaffFirstNameColumn, StaffLastNameColumn,
    TextColumn, RatingColumn, FacebookReviewColumn, TwitterReviewColumn]

  /** dateFmt: "" for nil, otherwise the UTC date as "2006-01-02". */
  function DateCell(t: Option<Time>): string {
    match t
    case None => ""
    case Some(t) => FormatDate(CivilDate(t))
  }

  /** The record written for one review. */
  function ReviewRecord(rv: Review): (rec: seq<string>)
    ensures |rec| == |ReviewHeader|
  {
    [rv.reviewId, rv.branchId, rv.clientId, rv.clientFirstName, rv.clientLastName,
     DateCell(rv.reviewDate), DateCell(rv.visitDate), rv.staffId, rv.staffFirstName,
     rv.staffLastName, rv.text, Itoa(rv.rating), FormatBool(rv.facebookReview),
     FormatBool(rv.twitterReview)]
  }

  function WrittenLines(rows: seq<Review>): seq<Line> {
    seq(|rows|, i requires 0 <= i < |rows| => Record(ReviewRecord(rows[i])))
  }

  /** The file the writer leaves behind: the header line, then one line per review in order. */
  function Written(rows: seq<Review>): CsvFile {
    CsvFile(Record(ReviewHeader), WrittenLines(rows))
  }

  method WriteReviewsCSV(rows: seq<Review>) returns (file: CsvFile)
    ensures file == Written(rows)
  {
    var lines: seq<Line> := [];
    var i := 0;
    while i < |rows|
      invariant i <= |rows|
      invariant lines == WrittenLines(rows[..i])
    {
      assert rows[..i + 1] == rows[..i] + [rows[i]];
      lines := lines + [Record(ReviewRecord(rows[i]))];
      i := i + 1;
    }
    assert rows[..|rows|] == rows;
    file := CsvFile(Record(ReviewHeader), lines);
  }

  // ---- the round trip ----

  /** A review the reader keeps: both key columns non-empty. */
  predicate Keyed(rv: Review) {
    rv.reviewId != "" && rv.branchId != ""
  }

  /**
   * A review the file represents exactly, up to the day: a date falls in the years 0 to
   * 9999 that "2006-01-02" spells in four digits, and the rating is an int64.
   */
  predicate Writable(rv: Review) {
    (rv.reviewDate.Some? ==> 0 <= CivilDate(rv.reviewDate.value).year <= 9999) &&
    (rv.visitDate.Some? ==> 0 <= CivilDate(rv.visitDate.value).year <= 9999) &&
    MinInt64 <= rv.rating <= MaxInt64
  }

  function DayOf(t: Option<Time>): Option<Time> {
    match t
    case None => None
    case Some(t) => Some(TruncateToDay(t))
  }

  /** The review as it reads back: its dates cut to their UTC midnight. */
  function AsStored(rv: Review): Review {
    rv.(reviewDate := DayOf(rv.reviewDate), visitDate := DayOf(rv.visitDate))
  }

  /** The reviews the reader keeps of rows, in order, as they read back. */
  function StoredOf(rows: seq<Review>): seq<Review> {
    if rows == [] then []
    else StoredOf(rows[..|rows| - 1]) + (if Keyed(rows[|rows| - 1]) then [AsStored(rows[|rows| - 1])] else [])
  }

  /** Every header name is already lower-case and trimmed. */
  lemma PlainName(s: string)
    requires s != [] && forall i :: 0 <= i < |s| ==> 'a' <= s[i] <= 'z' || s[i] == '_'
    ensures ColumnName(s) == s
  {
    ToLowerOfLower(s);
    TrimSpaceOfTrimmed(s);
  }

  lemma HeaderPlain()
    ensures forall k :: 0 <= k < |ReviewHeader| ==> ColumnName(ReviewHeader[k]) == ReviewHeader[k]
  {
    forall k | 0 <= k < |ReviewHeader|
      ensures ColumnName(ReviewHeader[k]) == ReviewHeader[k]
    {
      PlainName(ReviewHeader[k]);
    }
  }

  /** No two header names are the same: equal lengths only where the first letters differ. */
  lemma HeaderDistinct()
    ensures forall k, l :: 0 <= k < l < |ReviewHeader| ==> ReviewHeader[k] != ReviewHeader[l]
  {
  }

  /** idx finds each header name at its own position. */
  predicate FindsColumns(idx: map<string, nat>) {
    forall k :: 0 <= k < |ReviewHeader| ==> ReviewHeader[k] in idx && idx[ReviewHeader[k]] == k
  }

  /** Reading the written header finds each column at its own position. */
  lemma WrittenHeaderFindsColumns()
    ensures FindsColumns(HeaderIndex(ReviewHeader))
  {
    HeaderPlain();
    HeaderDistinct();
    forall k | 0 <= k < |ReviewHeader|
      ensures ReviewHeader[k] in HeaderIndex(ReviewHeader) && HeaderIndex(ReviewHeader)[ReviewHeader[k]] == k
    {
      IndexOfPlainHeader(ReviewHeader, k);
    }
  }

  lemma ColumnAt(idx: map<string, nat>, rec: seq<string>, k: nat)
    requires FindsColumns(idx) && k < |ReviewHeader| == |rec|
    ensures Get(idx, rec, ReviewHeader[k]) == rec[k]
  {
  }

  /** A written date reads back as its UTC midnight. */
  lemma DateCellRoundTrip(sc: Scanners, t: Option<Time>)
    requires t.Some? ==> 0 <= CivilDate(t.value).year <= 9999
    ensures ParseReviewDate(sc, DateCell(t)) == DayOf(t)
  {
    if t.Some? {
      var d := CivilDate(t.value);
      ParseDayOfFormat(d);
      assert DateToTime(d) == (t.value / DayMs) * DayMs;
    }
  }

  /** One written record reads back as its review, dates cut to the day. */
  lemma RecordRoundTrip(sc: Scanners, idx: map<string, nat>, rv: Review)
    requires FindsColumns(idx) && Writable(rv)
    ensures ReviewOf(sc, idx, ReviewRecord(rv)) == AsStored(rv)
    ensures HasKeys(idx, ReviewRecord(rv), ReviewKeys) <==> Keyed(rv)
  {
    var rec := ReviewRecord(rv);
    ColumnAt(idx, rec, 0);
    ColumnAt(idx, rec, 1);
    ColumnAt(idx, rec, 2);
    ColumnAt(idx, rec, 3);
    ColumnAt(idx, rec, 4);
    ColumnAt(idx, rec, 5);
    ColumnAt(idx, rec, 6);
    ColumnAt(idx, rec, 7);
    ColumnAt(idx, rec, 8);
    ColumnAt(idx, rec, 9);
    ColumnAt(idx, rec, 10);
    ColumnAt(idx, rec, 11);
    ColumnAt(idx, rec, 12);
    ColumnAt(idx, rec, 13);
    DateCellRoundTrip(sc, rv.reviewDate);
    DateCellRoundTrip(sc, rv.visitDate);
    ParseIntOfItoa(rv.rating);
    ReviewKeysOf(idx, rec);
  }

  /** The kept records of the first n written lines are the records of the keyed reviews among them. */
  lemma {:induction false} KeptWritten(sc: Scanners, idx: map<string, nat>, rows: seq<Review>, n: nat)
    requires FindsColumns(idx) && n <= |rows| && forall i :: 0 <= i < |rows| ==> Writable(rows[i])
    ensures ReviewsOf(sc, idx, KeptRecords(idx, WrittenLines(rows), n, ReviewKeys)) == StoredOf(rows[..n])
  {
    var body := WrittenLines(rows);
    if n > 0 {
      KeptWritten(sc, idx, rows, n - 1);
      var rv := rows[n - 1];
      var rec := ReviewRecord(rv);
      var recs := KeptRecords(idx, body, n - 1, ReviewKeys);
      assert body[n - 1] == Record(rec);
      assert KeptRecords(idx, body, n, ReviewKeys) == if HasKeys(idx, rec, ReviewKeys) then recs + [rec] else recs;
      RecordRoundTrip(sc, idx, rv);
      StoredOfSnoc(rows, n);
      if Keyed(rv) {
        ReviewsOfSnoc(sc, idx, recs, rec);
        assert KeptRecords(idx, body, n, ReviewKeys) == recs + [rec];
        assert StoredOf(rows[..n]) == StoredOf(rows[..n - 1]) + [AsStored(rv)];
      } else {
        assert KeptRecords(idx, body, n, ReviewKeys) == recs;
        assert StoredOf(rows[..n]) == StoredOf(rows[..n - 1]);
      }
    }
  }

  lemma StoredOfSnoc(rows: seq<Review>, n: nat)
    requires 0 < n <= |rows|
    ensures StoredOf(rows[..n]) == StoredOf(rows[..n - 1]) + (if Keyed(rows[n - 1]) then [AsStored(rows[n - 1])] else [])
  {
    assert rows[..n][..n - 1] == rows[..n - 1];
  }

  /**
   * The round trip: reading what the writer wrote gives back, in order, every review that
   * has both ids, with its dates cut to their UTC midnight and nothing else changed.
   */
  lemma ReadWritten(sc: Scanners, rows: seq<Review>)
    requires forall i :: 0 <= i < |rows| ==> Writable(rows[i])
    ensures ReadReviews(Written(rows), sc) == Ok(ParsedReviews(StoredOf(rows)))
  {
    var body := WrittenLines(rows);
    FirstBrokenIsFirst(body, |body|);
    WrittenHeaderFindsColumns();
    KeptWritten(sc, HeaderIndex(ReviewHeader), rows, |rows|);
    TakeAll(rows);
  }

  lemma TakeAll<T>(s: seq<T>)
    ensures s[..|s|] == s
  {
  }

  /** Reviews with both ids and whole-day dates read back exactly. */
  lemma ReadWrittenExact(sc: Scanners, rows: seq<Review>)
    requires forall i :: 0 <= i < |rows| ==> Writable(rows[i]) && Keyed(rows[i]) && AsStored(rows[i]) == rows[i]
    ensures ReadReviews(Written(rows), sc) == Ok(ParsedReviews(rows))
  {
    ReadWritten(sc, rows);
    StoredOfExact(rows);
  }

  lemma {:induction false} StoredOfExact(rows: seq<Review>)
    requires forall i :: 0 <= i < |rows| ==> Keyed(rows[i]) && AsStored(rows[i]) == rows[i]
    ensures StoredOf(rows) == rows
  {
    if rows != [] {
      StoredOfExact(rows[..|rows| - 1]);
    }
  }
}
