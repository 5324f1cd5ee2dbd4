/**
 * ParseClientsCSV: a Phorest clients export read by its header, rows without a client_id
 * skipped, and one client per client_id, the newest of its rows by the updated_at column.
 */
module ClientCsv {
  import opened Wrappers
  import opened Text
  import opened Clock
  import opened Records
  import opened CsvTable
  import opened Dedup

  datatype ParsedClients = ParsedClients(clients: seq<Client>)

  /** The client columns other than client_id, created_at and updated_at, with their parse helpers. */
  function ClientKind(c: string): Option<Kind> {
    match c
    case "version" => Some(AsInt)
    case "first_name" => Some(AsText)
    case "last_name" => Some(AsText)
    case "mobile" => Some(AsText)
    case "linked_client_mobile" => Some(AsText)
    case "land_line" => Some(AsText)
    case "email" => Some(AsText)
    case "birth_date" => Some(AsDay)
    case "gender" => Some(AsText)
    case "sms_marketing_consent" => Some(AsBool)
    case "email_marketing_consent" => Some(AsBool)
    case "sms_reminder_consent" => Some(AsBool)
    case "email_reminder_consent" => Some(AsBool)
    case "archived" => Some(AsBool)
    case "deleted" => Some(AsBool)
    case "banned" => Some(AsBool)
    case "merged_to_client_id" => Some(AsText)
    case "street_address_1" => Some(AsText)
    case "street_address_2" => Some(AsText)
    case "city" => Some(AsText)
    case "state" => Some(AsText)
    case "postal_code" => Some(AsText)
    case "country" => Some(AsText)
    case "client_since" => Some(AsDay)
    case "first_visit" => Some(AsDay)
    case "last_visit" => Some(AsDay)
    case "notes" => Some(AsText)
    case "photo_url" => Some(AsText)
    case "preferred_staff_id" => Some(AsText)
    case "credit_account_credit_days" => Some(AsIntPtr)
    case "credit_account_credit_limit" => Some(AsFloatPtr)
    case "loyalty_card_serial_number" => Some(AsText)
    case "external_id" => Some(AsText)
    case "creating_branch_id" => Some(AsText)
    case "client_category_ids" => Some(AsText)
    case _ => None
  }

  /** The key column a row must carry to be read at all. */
  const ClientKeys: seq<string> := ["client_id"]

  lemma ClientKeysOf(idx: map<string, nat>, rec: seq<string>)
    ensures HasKeys(idx, rec, ClientKeys) <==> Get(idx, rec, "client_id") != ""
  {
    assert ClientKeys[0] == "client_id";
  }

  /** The client of one kept record: UpdatedAtPhorest from updated_at, CreatedAtPhorest from created_at. */
  function ClientOf(sc: Scanners, idx: map<string, nat>, rec: seq<string>): Client {
    Client(
      Get(idx, rec, "client_id"),
      ParseStamp(sc, Get(idx, rec, "created_at")),
      ParseStamp(sc, Get(idx, rec, "updated_at")),
      PayloadOf(sc, idx, rec, ClientKind))
  }

  /** A client offered to byID, keyed by its id and stamped by its UpdatedAtPhorest. */
  function KeyedClient(c: Client): Keyed<Client> {
    Keyed(c.clientId, c.updatedAtPhorest, c)
  }

  /** The clients of the kept records, in file order, as offered to byID. */
  function OffersOf(sc: Scanners, idx: map<string, nat>, recs: seq<seq<string>>): seq<Keyed<Client>> {
    seq(|recs|, i requires 0 <= i < |recs| => KeyedClient(ClientOf(sc, idx, recs[i])))
  }

  lemma OffersOfSnoc(sc: Scanners, idx: map<string, nat>, recs: seq<seq<string>>, rec: seq<string>)
    ensures OffersOf(sc, idx, recs + [rec]) == OffersOf(sc, idx, recs) + [KeyedClient(ClientOf(sc, idx, rec))]
  {
  }

  /** The output lists every kept client once, each under its own id, in some order. */
  ghost predicate ListsKept(out: seq<Client>, kept: map<string, Keyed<Client>>) {
    (forall i :: 0 <= i < |out| ==> out[i].clientId in kept && kept[out[i].clientId].value == out[i]) &&
    (forall i, j :: 0 <= i < j < |out| ==> out[i].clientId != out[j].clientId) &&
    (forall k :: k in kept ==> exists i :: 0 <= i < |out| && out[i].clientId == k)
  }

  ghost predicate ReadsBody(sc: Scanners, idx: map<string, nat>, body: seq<Line>, r: Result<ParsedClients>) {
    match FirstBroken(body, |body|)
    case Some(i) => r == Err("read row " + Itoa(i) + ": " + body[i].reason)
    case None =>
      r.Ok? && ListsKept(r.value.clients, Kept(OffersOf(sc, idx, KeptRecords(idx, body, |body|, ClientKeys))))
  }

  /**
   * What the reader promises: the header error, the error of the first line that fails with
   * the number of records read before it, or one client per client_id of the file, each the
   * kept one, in Go's map order.
   */
  ghost predicate Parses(file: CsvFile, sc: Scanners, r: Result<ParsedClients>) {
    match file.header
    case Broken(reason) => r == Err("read header: " + reason)
    case Record(header) => ReadsBody(sc, HeaderIndex(header), file.body, r)
  }

  /** Every kept client is keyed by its own client id. */
  lemma KeptClientsKeyed(offers: seq<Keyed<Client>>, k: string)
    requires forall i :: 0 <= i < |offers| ==> offers[i].id == offers[i].value.clientId
    requires k in Kept(offers)
    ensures Kept(offers)[k].value.clientId == k
  {
    var j := KeptUpToChosen(offers, |offers|, k);
  }

  /** The switch of the row loop: keep the newest client per id, the first on a tie. */
  method OfferClient(byID: map<string, Keyed<Client>>, c: Keyed<Client>) returns (m: map<string, Keyed<Client>>)
    ensures m == Offer(byID, c)
  {
    m := byID;
    var clientId := c.id;
    if clientId in byID {
      var existing := byID[clientId];
      if existing.stamp.None? && c.stamp.Some? {
        m := byID[clientId := c];
      } else if existing.stamp.Some? && c.stamp.Some? && c.stamp.value > existing.stamp.value {
        m := byID[clientId := c];
      }
    } else {
      m := byID[clientId := c];
    }
  }

  /** The read-out of byID into the output slice. */
  method ListClients(ghost offers: seq<Keyed<Client>>, byID: map<string, Keyed<Client>>) returns (out: seq<Client>)
    requires forall i :: 0 <= i < |offers| ==> offers[i].id == offers[i].value.clientId
    requires byID == Kept(offers)
    ensures ListsKept(out, byID)
  {
    var ids;
    out, ids := Values(byID);
    forall i | 0 <= i < |ids|
      ensures out[i].clientId == ids[i]
    {
      KeptClientsKeyed(offers, ids[i]);
    }
  }

  /** The row loop over the records after the header. */
  method ReadRows(sc: Scanners, idx: map<string, nat>, body: seq<Line>) returns (r: Result<ParsedClients>)
    ensures ReadsBody(sc, idx, body, r)
  {
    var byID: map<string, Keyed<Client>> := map[];
    var row := 0;
    ghost var recs: seq<seq<string>> := [];
    while row < |body|
      invariant row <= |body|
      invariant FirstBroken(body, row).None?
      invariant recs == KeptRecords(idx, body, row, ClientKeys)
      invariant byID == Kept(OffersOf(sc, idx, recs))
    {
      if body[row].Broken? {
        FirstBrokenAt(body, row, |body|);
        return Err("read row " + Itoa(row) + ": " + body[row].reason);
      }
      var rec := body[row].fields;
      KeptRecordsStep(idx, body, row, ClientKeys);
      row := row + 1;
      var clientId := Get(idx, rec, "client_id");
      ClientKeysOf(idx, rec);
      if clientId == "" {
        continue;
      }
      var c := ClientOf(sc, idx, rec);
      OffersOfSnoc(sc, idx, recs, rec);
      KeptSnoc(OffersOf(sc, idx, recs), KeyedClient(c));
      recs := recs + [rec];
      byID := OfferClient(byID, KeyedClient(c));
    }
    var out := ListClients(OffersOf(sc, idx, recs), byID);
    r := Ok(ParsedClients(out));
  }

  method ParseClientsCSV(file: CsvFile, sc: Scanners) returns (r: Result<ParsedClients>)
    ensures Parses(file, sc, r)
  {
    if file.header.Broken? {
      return Err("read header: " + file.header.reason);
    }
    var idx := BuildIndex(file.header.fields);
    r := ReadRows(sc, idx, file.body);
  }

  // ---- what the parsed clients satisfy ----

  /** One client per distinct client_id of the kept rows: none missing, none twice, none invented. */
  lemma OneClientPerId(sc: Scanners, idx: map<string, nat>, recs: seq<seq<string>>, out: seq<Client>)
    requires ListsKept(out, Kept(OffersOf(sc, idx, recs)))
    ensures forall i :: 0 <= i < |recs| ==> exists j :: 0 <= j < |out| && out[j].clientId == Get(idx, recs[i], "client_id")
    ensures forall j :: 0 <= j < |out| ==> exists i :: 0 <= i < |recs| && Get(idx, recs[i], "client_id") == out[j].clientId
  {
    var offers := OffersOf(sc, idx, recs);
    KeptKeys(offers);
    forall i | 0 <= i < |recs|
      ensures exists j :: 0 <= j < |out| && out[j].clientId == Get(idx, recs[i], "client_id")
    {
      assert offers[i].id in IdsUpTo(offers, |offers|);
    }
    forall j | 0 <= j < |out|
      ensures exists i :: 0 <= i < |recs| && Get(idx, recs[i], "client_id") == out[j].clientId
    {
      var k := out[j].clientId;
      assert k in IdsUpTo(offers, |offers|);
      var i :| 0 <= i < |offers| && offers[i].id == k;
      assert Get(idx, recs[i], "client_id") == k;
    }
  }

  /**
   * Each client is the first of the newest rows of its id: no row of that id has a newer
   * updated_at, and the kept timestamp is nil only when every one of them is.
   */
  lemma ClientIsNewestRow(sc: Scanners, idx: map<string, nat>, recs: seq<seq<string>>, out: seq<Client>, j: nat)
    requires ListsKept(out, Kept(OffersOf(sc, idx, recs))) && j < |out|
    ensures exists c: nat :: (c < |recs| && Chosen(OffersOf(sc, idx, recs), out[j].clientId, c) &&
                              out[j] == ClientOf(sc, idx, recs[c]))
    ensures forall i :: 0 <= i < |recs| && Get(idx, recs[i], "client_id") == out[j].clientId ==>
      NoNewer(ParseStamp(sc, Get(idx, recs[i], "updated_at")), out[j].updatedAtPhorest)
  {
    var offers := OffersOf(sc, idx, recs);
    var k := out[j].clientId;
    var c := KeptUpToChosen(offers, |offers|, k);
    ChosenIsNewest(offers, k, c);
    assert out[j] == offers[c].value;
    forall i | 0 <= i < |recs| && Get(idx, recs[i], "client_id") == k
      ensures NoNewer(ParseStamp(sc, Get(idx, recs[i], "updated_at")), out[j].updatedAtPhorest)
    {
      assert offers[i].id == k;
    }
  }
}
