/**
 * What the three CSV readers share: a file as encoding/csv hands it over (records, or a read
 * error in their place), the header index every reader builds, the `get` closure, and the
 * scalar parsers.
 */
module CsvTable {
  import opened Wrappers
  import opened Text
  import opened Clock
  import opened Records

  /** One r.Read(): a record, or an error (bad quoting, a wrong field count, an I/O error). */
  datatype Line = Record(fields: seq<string>) | Broken(reason: string)

  /** A CSV file: its first line, read as the header, then the rest up to io.EOF. */
  datatype CsvFile = CsvFile(header: Line, body: seq<Line>)

  /**
   * The parsers the model does not spell out: strconv.ParseFloat, and time.Parse over the
   * clock layouts, the readers' timestamp layouts and the ISO layouts of the reviews reader.
   * Each is handed a trimmed, non-empty string.
   */
  datatype Scanners = Scanners(
    float: string -> Option<real>,
    clock: string -> Option<Time>,
    stamp: string -> Option<Time>,
    isoStamp: string -> Option<Time>)

  /** The key a header cell is indexed under. */
  function ColumnName(h: string): string {
    TrimSpace(ToLower(h))
  }

  /** The names the header's cells are indexed under, position by position. */
  function ColumnNames(header: seq<string>): (names: seq<string>)
    ensures |names| == |header|
    ensures forall i :: 0 <= i < |header| ==> names[i] == ColumnName(header[i])
  {
    seq(|header|, i requires 0 <= i < |header| => ColumnName(header[i]))
  }

  /**
   * The header index: each name maps to the last position whose cell it names (the loop
   * writes positions in order, so a later duplicate overwrites an earlier one).
   */
  function HeaderIndex(header: seq<string>): (idx: map<string, nat>)
    ensures var names := ColumnNames(header);
      (forall i :: 0 <= i < |names| ==> names[i] in idx && idx[names[i]] >= i) &&
      (forall n :: n in idx ==> idx[n] < |names| && names[idx[n]] == n)
  {
    PositionsFacts(ColumnNames(header), |header|);
    PositionsUpTo(ColumnNames(header), |header|)
  }

  /** Each of the first n names mapped to the last of those n positions that carries it. */
  function PositionsUpTo(names: seq<string>, n: nat): map<string, nat>
    requires n <= |names|
  {
    if n == 0 then map[] else PositionsUpTo(names, n - 1)[names[n - 1] := n - 1]
  }

  lemma {:induction false} PositionsFacts(names: seq<string>, n: nat)
    requires n <= |names|
    ensures var idx := PositionsUpTo(names, n);
      (forall i :: 0 <= i < n ==> names[i] in idx && idx[names[i]] >= i) &&
      (forall nm :: nm in idx ==> idx[nm] < n && names[idx[nm]] == nm)
  {
    if n > 0 {
      PositionsFacts(names, n - 1);
    }
  }

  /** The header loop of the readers: each position in turn written under its name. */
  method IndexPositions(names: seq<string>) returns (idx: map<string, nat>)
    ensures idx == PositionsUpTo(names, |names|)
  {
    idx := map[];
    var i := 0;
    while i < |names|
      invariant 0 <= i <= |names|
      invariant idx == PositionsUpTo(names, i)
    {
      idx := idx[names[i] := i];
      i := i + 1;
    }
  }

  /** The readers' header index, built by the loop over the normalised header cells. */
  method BuildIndex(header: seq<string>) returns (idx: map<string, nat>)
    ensures idx == HeaderIndex(header)
  {
    idx := IndexPositions(ColumnNames(header));
  }

  /** The `get` closure: the field of an indexed column, or "" for an unknown column or a short row. */
  function Get(idx: map<string, nat>, rec: seq<string>, name: string): string {
    if name !in idx || idx[name] >= |rec| then "" else rec[idx[name]]
  }

  /** A column named by the header reads as the record's field under the last cell naming it. */
  lemma GetNamed(header: seq<string>, rec: seq<string>, name: string, i: nat)
    requires i < |header| && i < |rec| && ColumnName(header[i]) == name
    requires forall k :: i < k < |header| ==> ColumnName(header[k]) != name
    ensures Get(HeaderIndex(header), rec, name) == rec[i]
  {
    var names := ColumnNames(header);
    PositionsFacts(names, |names|);
    var idx := PositionsUpTo(names, |names|);
    assert names[i] == name && idx[name] >= i;
  }

  /** A column no header cell names, or one beyond the end of a short record, reads as "". */
  lemma GetMissing(header: seq<string>, rec: seq<string>, name: string)
    requires forall k :: 0 <= k < |header| ==> ColumnName(header[k]) != name || k >= |rec|
    ensures Get(HeaderIndex(header), rec, name) == ""
  {
    var names := ColumnNames(header);
    var idx := HeaderIndex(header);
    if name in idx {
      assert names[idx[name]] == name;
    }
  }

  /** In a header of distinct, already-normalised names, each name is found at its own position. */
  lemma IndexOfPlainHeader(header: seq<string>, i: nat)
    requires i < |header|
    requires forall k :: 0 <= k < |header| ==> ColumnName(header[k]) == header[k]
    requires forall k, l :: 0 <= k < l < |header| ==> header[k] != header[l]
    ensures header[i] in HeaderIndex(header) && HeaderIndex(header)[header[i]] == i
  {
    var names := ColumnNames(header);
    assert names[i] == header[i];
    var j := HeaderIndex(header)[header[i]];
    assert names[j] == header[j];
  }

  // ---- the row loop ----

  /** The first line encoding/csv fails on among the first n, if any. */
  function FirstBroken(body: seq<Line>, n: nat): (r: Option<nat>)
    requires n <= |body|
    ensures r.Some? ==> r.value < n && body[r.value].Broken?
  {
    if n == 0 then None
    else match FirstBroken(body, n - 1)
      case Some(i) => Some(i)
      case None => if body[n - 1].Broken? then Some(n - 1) else None
  }

  /** Once a broken line is the first one, it stays the first however many lines follow. */
  lemma {:induction false} FirstBrokenAt(body: seq<Line>, n: nat, m: nat)
    requires n < m <= |body| && FirstBroken(body, n).None? && body[n].Broken?
    ensures FirstBroken(body, m) == Some(n)
  {
    if m > n + 1 {
      FirstBrokenAt(body, n, m - 1);
    }
  }

  /** FirstBroken names the first line that failed: every line before it is a record. */
  lemma {:induction false} FirstBrokenIsFirst(body: seq<Line>, n: nat)
    requires n <= |body|
    ensures FirstBroken(body, n).None? <==> forall i :: 0 <= i < n ==> body[i].Record?
    ensures FirstBroken(body, n).Some? ==> forall i :: 0 <= i < FirstBroken(body, n).value ==> body[i].Record?
  {
    if n > 0 {
      FirstBrokenIsFirst(body, n - 1);
    }
  }

  /** A record the readers keep: every one of the key columns reads non-empty. */
  predicate HasKeys(idx: map<string, nat>, rec: seq<string>, keys: seq<string>) {
    forall k :: 0 <= k < |keys| ==> Get(idx, rec, keys[k]) != ""
  }

  /** The records among the first n lines that the row loop keeps, in file order. */
  function KeptRecords(idx: map<string, nat>, body: seq<Line>, n: nat, keys: seq<string>): seq<seq<string>>
    requires n <= |body|
  {
    if n == 0 then []
    else
      var recs := KeptRecords(idx, body, n - 1, keys);
      match body[n - 1]
      case Broken(_) => recs
      case Record(rec) => if HasKeys(idx, rec, keys) then recs + [rec] else recs
  }

  /** What reading line n adds to the loop's state, when it is a record. */
  lemma KeptRecordsStep(idx: map<string, nat>, body: seq<Line>, n: nat, keys: seq<string>)
    requires n < |body| && body[n].Record? && FirstBroken(body, n).None?
    ensures FirstBroken(body, n + 1).None?
    ensures KeptRecords(idx, body, n + 1, keys) ==
      if HasKeys(idx, body[n].fields, keys) then KeptRecords(idx, body, n, keys) + [body[n].fields]
      else KeptRecords(idx, body, n, keys)
  {
  }

  /** Every kept record has its keys, and comes from some line, in order. */
  lemma {:induction false} KeptRecordsKeyed(idx: map<string, nat>, body: seq<Line>, n: nat, keys: seq<string>)
    requires n <= |body|
    ensures |KeptRecords(idx, body, n, keys)| <= n
    ensures forall i :: 0 <= i < |KeptRecords(idx, body, n, keys)| ==> HasKeys(idx, KeptRecords(idx, body, n, keys)[i], keys)
  {
    if n > 0 {
      KeptRecordsKeyed(idx, body, n - 1, keys);
    }
  }

  /** When every line is a record with its keys, each of them is kept, in file order. */
  lemma {:induction false} KeptRecordsAll(idx: map<string, nat>, body: seq<Line>, n: nat, keys: seq<string>)
    requires n <= |body|
    requires forall i :: 0 <= i < n ==> body[i].Record? && HasKeys(idx, body[i].fields, keys)
    ensures |KeptRecords(idx, body, n, keys)| == n
    ensures forall i :: 0 <= i < n ==> KeptRecords(idx, body, n, keys)[i] == body[i].fields
  {
    if n > 0 {
      KeptRecordsAll(idx, body, n - 1, keys);
    }
  }

  /** A record missing a key is skipped: the kept records are those of the lines before it. */
  lemma KeptRecordsSkip(idx: map<string, nat>, body: seq<Line>, n: nat, keys: seq<string>, k: nat)
    requires n < |body| && body[n].Record? && k < |keys| && Get(idx, body[n].fields, keys[k]) == ""
    ensures KeptRecords(idx, body, n + 1, keys) == KeptRecords(idx, body, n, keys)
  {
  }

  // ---- scalar parsers ----

  /**
   * parseInt of the readers that keep Atoi's value even on error: "" is 0, a syntax error 0,
   * and a number beyond int64 the bound on its side.
   */
  function ParseIntLoose(s: string): (r: int)
    ensures TrimSpace(s) == "" ==> r == 0
    ensures TrimSpace(s) != "" ==> r == Atoi(TrimSpace(s)).value
    ensures MinInt64 <= r <= MaxInt64
  {
    var t := TrimSpace(s);
    if t == "" then 0 else Atoi(t).value
  }

  /** parseInt of the reviews reader: "" and anything Atoi rejects are 0. */
  function ParseIntOrZero(s: string): (r: int)
    ensures var t := TrimSpace(s); (t == "" || !Atoi(t).ok) ==> r == 0
    ensures var t := TrimSpace(s); t != "" && Atoi(t).ok ==> r == Atoi(t).value
  {
    var t := TrimSpace(s);
    if t == "" then 0 else var a := Atoi(t); if a.ok then a.value else 0
  }

  /** parseIntPtr: nil for "" or anything Atoi rejects. */
  function ParseIntPtr(s: string): (r: Option<int>)
    ensures r.None? <==> TrimSpace(s) == "" || !Atoi(TrimSpace(s)).ok
    ensures r.Some? ==> r.value == Atoi(TrimSpace(s)).value
  {
    var t := TrimSpace(s);
    if t == "" then None else var a := Atoi(t); if a.ok then Some(a.value) else None
  }

  /**
   * The loose and the strict parseInt differ only on a cell Atoi rejects as out of range:
   * there the loose one keeps the int64 bound where the strict one reads 0.
   */
  lemma LooseDiffersOnRange(s: string)
    ensures ParseIntLoose(s) != ParseIntOrZero(s) ==>
      !Atoi(TrimSpace(s)).ok && ParseIntOrZero(s) == 0 && ParseIntLoose(s) in {MinInt64, MaxInt64}
  {
  }

  /** parseFloat of the transactions reader: "" is 0, and a rejected number reads as 0. */
  function ParseFloatLoose(sc: Scanners, s: string): (r: real)
    ensures TrimSpace(s) == "" ==> r == 0.0
  {
    var t := TrimSpace(s);
    if t == "" then 0.0 else sc.float(t).GetOr(0.0)
  }

  /** parseFloatPtr: nil for "" or anything ParseFloat rejects. */
  function ParseFloatPtr(sc: Scanners, s: string): (r: Option<real>)
    ensures TrimSpace(s) == "" ==> r.None?
  {
    var t := TrimSpace(s);
    if t == "" then None else sc.float(t)
  }

  /** parseDate with the single layout "2006-01-02": the UTC midnight of the date it names. */
  function ParseDay(s: string): (r: Option<Time>)
    ensures TrimSpace(s) == "" ==> r.None?
    ensures r.Some? ==> r.value % DayMs == 0
  {
    var t := TrimSpace(s);
    if t == "" then None
    else match ParseDate(t)
      case None => None
      case Some(d) => assert DateToTime(d) == TruncateToDay(DateToTime(d)) by { CivilDateOfDate(d); } Some(DateToTime(d))
  }

  /** parseClock and parseTS: nil for "", otherwise the first layout that fits. */
  function ParseClock(sc: Scanners, s: string): (r: Option<Time>)
    ensures TrimSpace(s) == "" ==> r.None?
  {
    var t := TrimSpace(s);
    if t == "" then None else sc.clock(t)
  }

  function ParseStamp(sc: Scanners, s: string): (r: Option<Time>)
    ensures TrimSpace(s) == "" ==> r.None?
  {
    var t := TrimSpace(s);
    if t == "" then None else sc.stamp(t)
  }

  /** How a reader converts a column it carries through: one of its parse helpers, or none. */
  datatype Kind = AsText | AsFloat | AsInt | AsBool | AsDay | AsClock | AsStamp | AsIntPtr | AsFloatPtr

  /** The value a field takes under a column kind. */
  function CellOf(sc: Scanners, kind: Kind, s: string): Cell {
    match kind
    case AsText => Text(s)
    case AsFloat => Number(ParseFloatLoose(sc, s))
    case AsInt => Integer(ParseIntLoose(s))
    case AsBool => Flag(ParseBool(s))
    case AsDay => Moment(ParseDay(s))
    case AsClock => Moment(ParseClock(sc, s))
    case AsStamp => Moment(ParseStamp(sc, s))
    case AsIntPtr => MaybeInteger(ParseIntPtr(s))
    case AsFloatPtr => MaybeNumber(ParseFloatPtr(sc, s))
  }

  /** The value an absent column, or an empty field, takes under each kind. */
  function EmptyCell(kind: Kind): Cell {
    match kind
    case AsText => Text("")
    case AsFloat => Number(0.0)
    case AsInt => Integer(0)
    case AsBool => Flag(false)
    case AsIntPtr => MaybeInteger(None)
    case AsFloatPtr => MaybeNumber(None)
    case _ => Moment(None)
  }

  lemma CellOfEmpty(sc: Scanners, kind: Kind)
    ensures CellOf(sc, kind, "") == EmptyCell(kind)
  {
    assert TrimSpace("") == "";
    assert ToLower("") == "";
  }

  /**
   * The carried-through columns of one record: every column the header names and kindOf
   * lists, read with `get` and converted by its kind. A listed column the header does not
   * name is absent, where the Go struct leaves the field at its zero value (FieldOr).
   */
  function PayloadOf(sc: Scanners, idx: map<string, nat>, rec: seq<string>, kindOf: string -> Option<Kind>): Payload {
    map c | c in idx && kindOf(c).Some? :: CellOf(sc, kindOf(c).value, Get(idx, rec, c))
  }

  /** A payload field as the Go struct holds it: the zero value when the column was absent. */
  function FieldOr(p: Payload, c: string, kind: Kind): Cell {
    if c in p then p[c] else EmptyCell(kind)
  }

  /** A listed column the header names reads as the field under its last naming cell. */
  lemma PayloadOfNamed(sc: Scanners, header: seq<string>, rec: seq<string>, kindOf: string -> Option<Kind>,
                       c: string, i: nat)
    requires i < |header| && i < |rec| && ColumnName(header[i]) == c && kindOf(c).Some?
    requires forall k :: i < k < |header| ==> ColumnName(header[k]) != c
    ensures c in PayloadOf(sc, HeaderIndex(header), rec, kindOf)
    ensures PayloadOf(sc, HeaderIndex(header), rec, kindOf)[c] == CellOf(sc, kindOf(c).value, rec[i])
  {
    GetNamed(header, rec, c, i);
    var names := ColumnNames(header);
    PositionsFacts(names, |names|);
    assert names[i] == c;
  }

  /** A listed column no header cell names reads as its kind's empty value. */
  lemma PayloadOfMissing(sc: Scanners, header: seq<string>, rec: seq<string>, kindOf: string -> Option<Kind>, c: string)
    requires kindOf(c).Some?
    requires forall k :: 0 <= k < |header| ==> ColumnName(header[k]) != c
    ensures FieldOr(PayloadOf(sc, HeaderIndex(header), rec, kindOf), c, kindOf(c).value) == EmptyCell(kindOf(c).value)
  {
    var names := ColumnNames(header);
    PositionsFacts(names, |names|);
  }

  /** %d read back by parseIntPtr, parseInt and the reviews' parseInt gives the number, for every int64. */
  lemma ParseIntOfItoa(x: int)
    requires MinInt64 <= x <= MaxInt64
    ensures ParseIntPtr(Itoa(x)) == Some(x) && ParseIntLoose(Itoa(x)) == x && ParseIntOrZero(Itoa(x)) == x
  {
    ItoaTrimmed(x);
    AtoiItoa(x);
  }

  /** A date written as YYYY-MM-DD reads back as its midnight. */
  lemma ParseDayOfFormat(d: Date)
    requires ValidDate(d) && 0 <= d.year <= 9999
    ensures ParseDay(FormatDate(d)) == Some(DateToTime(d))
  {
    var s := FormatDate(d);
    ParseFormatDate(d);
    PadDigitsExact(d.year, 4);
    assert s[0] != '-' && IsDigit(s[0]) && IsDigit(s[|s| - 1]);
    TrimSpaceOfTrimmed(s);
  }
}
