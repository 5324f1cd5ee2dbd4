/**
 * ParseTransactionsCSV: a Phorest transactions export read by its header, one line item per
 * row with a transaction_id, and one transaction header per transaction_id, taken from the
 * newest of its rows by purchase_updated_at.
 */
module TransactionCsv {
  import opened Wrappers
  import opened Text
  import opened Clock
  import opened Records
  import opened CsvTable
  import opened Dedup

  datatype ParsedBatch = ParsedBatch(transactions: seq<Transaction>, items: seq<Item>)

  /** The columns the items upsert never rewrites on conflict, with their parse helpers. */
  function FrozenKind(c: string): Option<Kind> {
    match c
    case "purchase_voucher_discount_percentage" => Some(AsFloat)
    case "purchase_online_deposit" => Some(AsFloat)
    case "purchase_online_discount_amount" => Some(AsFloat)
    case "service_id" => Some(AsText)
    case "service_name" => Some(AsText)
    case "service_category_id" => Some(AsText)
    case "service_category_name" => Some(AsText)
    case "package_id" => Some(AsText)
    case "package_name" => Some(AsText)
    case "special_offer_id" => Some(AsText)
    case "special_offer_name" => Some(AsText)
    case "product_id" => Some(AsText)
    case "product_name" => Some(AsText)
    case "product_brand_id" => Some(AsText)
    case "product_brand_name" => Some(AsText)
    case "product_category_id" => Some(AsText)
    case "product_category_name" => Some(AsText)
    case "product_barcode" => Some(AsText)
    case "product_code" => Some(AsText)
    case "course_id" => Some(AsText)
    case "course_name" => Some(AsText)
    case "client_course_name" => Some(AsText)
    case "voucher_serial" => Some(AsText)
    case "service_reward_id" => Some(AsText)
    case "service_reward_name" => Some(AsText)
    case "product_reward_id" => Some(AsText)
    case "product_reward_name" => Some(AsText)
    case _ => None
  }

  /** The other line columns. parseInt and parseInt64 agree on a 64-bit platform: both are AsInt. */
  function LineKind(c: string): Option<Kind> {
    match c
    case "item_type" => Some(AsText)
    case "description" => Some(AsText)
    case "quantity" => Some(AsFloat)
    case "unit_price" => Some(AsFloat)
    case "original_price" => Some(AsFloat)
    case "discount_type" => Some(AsFloat)
    case "discount_value" => Some(AsFloat)
    case "item_online_deposit" => Some(AsFloat)
    case "item_online_discount" => Some(AsFloat)
    case "loyalty_points_awarded" => Some(AsFloat)
    case "tax_rate" => Some(AsFloat)
    case "total_amount" => Some(AsFloat)
    case "total_amount_pre_vouch_disc" => Some(AsFloat)
    case "net_total_amount" => Some(AsFloat)
    case "gross_total_amount" => Some(AsFloat)
    case "net_price" => Some(AsFloat)
    case "gross_price" => Some(AsFloat)
    case "discount_amount" => Some(AsFloat)
    case "tax_amount" => Some(AsFloat)
    case "staff_tips" => Some(AsFloat)
    case "product_cost_price" => Some(AsFloat)
    case "service_cost" => Some(AsFloat)
    case "service_cost_type" => Some(AsText)
    case "gross_total_with_discount" => Some(AsFloat)
    case "gross_total_with_discount_minus_tax" => Some(AsFloat)
    case "simple_discount_amount" => Some(AsFloat)
    case "membership_benefit_used" => Some(AsInt)
    case "membership_discount_amount" => Some(AsFloat)
    case "deal" => Some(AsFloat)
    case "session_net_amount" => Some(AsFloat)
    case "session_gross_amount" => Some(AsFloat)
    case "phorest_tips" => Some(AsFloat)
    case "payment_type" => Some(AsText)
    case "payment_type_ids" => Some(AsText)
    case "payment_type_amounts" => Some(AsFloat)
    case "payment_type_codes" => Some(AsText)
    case "payment_type_names" => Some(AsText)
    case "payment_type_voucher_serials" => Some(AsText)
    case "payment_type_prepaid_tax_amounts" => Some(AsText)
    case "outstanding_balance_pmt" => Some(AsInt)
    case "open_sale" => Some(AsBool)
    case "open_sale_type" => Some(AsText)
    case "purchase_type" => Some(AsText)
    case "online_booking" => Some(AsInt)
    case "void" => Some(AsInt)
    case "voided_transaction_id" => Some(AsText)
    case "void_reason" => Some(AsText)
    case "department_id" => Some(AsText)
    case "department_name" => Some(AsText)
    case "staff_id" => Some(AsText)
    case "staff_first_name" => Some(AsText)
    case "staff_last_name" => Some(AsText)
    case "staff_category_id" => Some(AsText)
    case "staff_category_name" => Some(AsText)
    case "is_requested_staff" => Some(AsInt)
    case "primary_staff_id" => Some(AsText)
    case "preferred_staff_id" => Some(AsText)
    case "preferred_staff_name" => Some(AsText)
    case "appointment_id" => Some(AsText)
    case "appointment_date" => Some(AsDay)
    case "appointment_created" => Some(AsStamp)
    case "appointment_rating" => Some(AsInt)
    case "client_birthday" => Some(AsDay)
    case "client_gender" => Some(AsText)
    case "client_email" => Some(AsText)
    case "client_first_visit" => Some(AsDay)
    case "appt_client_id" => Some(AsText)
    case "appt_client_first_name" => Some(AsText)
    case "appt_client_last_name" => Some(AsText)
    case "appt_client_birthday" => Some(AsDay)
    case "appt_client_gender" => Some(AsText)
    case "appt_client_email" => Some(AsText)
    case "appt_client_first_visit" => Some(AsDay)
    case "internet_category_ids" => Some(AsText)
    case "internet_category_names" => Some(AsText)
    case "branch_product_id" => Some(AsText)
    case "fixed_discount_id" => Some(AsText)
    case "fixed_discount_name" => Some(AsText)
    case "client_course_id" => Some(AsText)
    case "creating_user" => Some(AsText)
    case "tax_rate_name" => Some(AsText)
    case "sale_fee_id" => Some(AsText)
    case _ => None
  }

  /** The line item of one record whose transaction_id is set. */
  function ItemOf(sc: Scanners, idx: map<string, nat>, rec: seq<string>): Item {
    Item(
      Get(idx, rec, "transaction_item_id"),
      Get(idx, rec, "transaction_id"),
      SaleEcho(
        Get(idx, rec, "branch_id"),
        Get(idx, rec, "branch_name"),
        Get(idx, rec, "client_id"),
        Get(idx, rec, "client_first_name"),
        Get(idx, rec, "client_last_name"),
        Get(idx, rec, "client_source"),
        ParseDay(Get(idx, rec, "purchased_date")),
        ParseClock(sc, Get(idx, rec, "purchase_time"))),
      PayloadOf(sc, idx, rec, FrozenKind),
      PayloadOf(sc, idx, rec, LineKind),
      ParseStamp(sc, Get(idx, rec, "purchase_updated_at")))
  }

  /** txNew: the header a line proposes for its transaction, keyed and stamped for the de-duplication. */
  function HeaderOf(item: Item): Keyed<Transaction> {
    Keyed(item.transactionId, item.updatedAtPhorest,
      Transaction(item.transactionId, item.sale, item.updatedAtPhorest))
  }

  function HeadersOf(items: seq<Item>): (hs: seq<Keyed<Transaction>>)
    ensures |hs| == |items|
    ensures forall i :: 0 <= i < |items| ==> hs[i] == HeaderOf(items[i])
  {
    seq(|items|, i requires 0 <= i < |items| => HeaderOf(items[i]))
  }

  /** The key column a row must carry to be read at all. */
  const TxKeys: seq<string> := ["transaction_id"]

  lemma TxKeysOf(idx: map<string, nat>, rec: seq<string>)
    ensures HasKeys(idx, rec, TxKeys) <==> Get(idx, rec, "transaction_id") != ""
  {
    assert TxKeys[0] == "transaction_id";
  }

  /** One item per kept record, in file order. */
  function ItemsOf(sc: Scanners, idx: map<string, nat>, recs: seq<seq<string>>): seq<Item> {
    seq(|recs|, i requires 0 <= i < |recs| => ItemOf(sc, idx, recs[i]))
  }

  lemma ItemsOfSnoc(sc: Scanners, idx: map<string, nat>, recs: seq<seq<string>>, rec: seq<string>)
    ensures ItemsOf(sc, idx, recs + [rec]) == ItemsOf(sc, idx, recs) + [ItemOf(sc, idx, rec)]
  {
  }

  /** The transactions slice lists every kept header once, each under its own id, in some order. */
  ghost predicate ListsKept(txs: seq<Transaction>, kept: map<string, Keyed<Transaction>>) {
    (forall i :: 0 <= i < |txs| ==> txs[i].transactionId in kept && kept[txs[i].transactionId].value == txs[i]) &&
    (forall i, j :: 0 <= i < j < |txs| ==> txs[i].transactionId != txs[j].transactionId) &&
    (forall k :: k in kept ==> exists i :: 0 <= i < |txs| && txs[i].transactionId == k)
  }

  /** What the row loop promises for the records after the header, once the index is built. */
  ghost predicate ReadsBody(sc: Scanners, idx: map<string, nat>, body: seq<Line>, r: Result<ParsedBatch>) {
    match FirstBroken(body, |body|)
    case Some(i) => r == Err("read row " + Itoa(i) + ": " + body[i].reason)
    case None =>
      var items := ItemsOf(sc, idx, KeptRecords(idx, body, |body|, TxKeys));
      r.Ok? && r.value.items == items && ListsKept(r.value.transactions, Kept(HeadersOf(items)))
  }

  /**
   * What the reader promises: the header error, the error of the first line that fails with
   * the number of records read before it, or the items of the file and one header per
   * transaction id, each the kept one, in Go's map order.
   */
  ghost predicate Parses(file: CsvFile, sc: Scanners, r: Result<ParsedBatch>) {
    match file.header
    case Broken(reason) => r == Err("read header: " + reason)
    case Record(header) => ReadsBody(sc, HeaderIndex(header), file.body, r)
  }

  /** One more line offers its header to the map. */
  lemma KeptHeadersSnoc(items: seq<Item>, item: Item)
    ensures Kept(HeadersOf(items + [item])) == Offer(Kept(HeadersOf(items)), HeaderOf(item))
  {
    assert HeadersOf(items + [item]) == HeadersOf(items) + [HeaderOf(item)];
    KeptSnoc(HeadersOf(items), HeaderOf(item));
  }

  /** Every kept header is keyed by its own transaction id. */
  lemma KeptHeadersKeyed(items: seq<Item>, k: string)
    requires k in Kept(HeadersOf(items))
    ensures Kept(HeadersOf(items))[k].value.transactionId == k
  {
    var j := KeptUpToChosen(HeadersOf(items), |items|, k);
  }

  /** The switch of the row loop: keep the newest header per id, the first on a tie. */
  method OfferHeader(txByID: map<string, Keyed<Transaction>>, txNew: Keyed<Transaction>)
    returns (m: map<string, Keyed<Transaction>>)
    ensures m == Offer(txByID, txNew)
  {
    m := txByID;
    var transactionId := txNew.id;
    if transactionId in txByID {
      var existing := txByID[transactionId];
      if existing.stamp.None? && txNew.stamp.Some? {
        m := txByID[transactionId := txNew];
      } else if existing.stamp.Some? && txNew.stamp.Some? && txNew.stamp.value > existing.stamp.value {
        m := txByID[transactionId := txNew];
      }
    } else {
      m := txByID[transactionId := txNew];
    }
  }

  /** The read-out of txByID into the transactions slice. */
  method ListHeaders(items: seq<Item>, txByID: map<string, Keyed<Transaction>>) returns (txs: seq<Transaction>)
    requires txByID == Kept(HeadersOf(items))
    ensures ListsKept(txs, txByID)
  {
    var ids;
    txs, ids := Values(txByID);
    forall i | 0 <= i < |ids|
      ensures txs[i].transactionId == ids[i]
    {
      KeptHeadersKeyed(items, ids[i]);
    }
  }

  /** The row loop over the records after the header. */
  method ReadRows(sc: Scanners, idx: map<string, nat>, body: seq<Line>) returns (r: Result<ParsedBatch>)
    ensures ReadsBody(sc, idx, body, r)
  {
    var items: seq<Item> := [];
    var txByID: map<string, Keyed<Transaction>> := map[];
    var row := 0;
    ghost var recs: seq<seq<string>> := [];
    while row < |body|
      invariant row <= |body|
      invariant FirstBroken(body, row).None?
      invariant recs == KeptRecords(idx, body, row, TxKeys)
      invariant items == ItemsOf(sc, idx, recs)
      invariant txByID == Kept(HeadersOf(items))
    {
      if body[row].Broken? {
        FirstBrokenAt(body, row, |body|);
        return Err("read row " + Itoa(row) + ": " + body[row].reason);
      }
      var rec := body[row].fields;
      KeptRecordsStep(idx, body, row, TxKeys);
      row := row + 1;
      var transactionId := Get(idx, rec, "transaction_id");
      TxKeysOf(idx, rec);
      if transactionId == "" {
        continue;
      }
      var item := ItemOf(sc, idx, rec);
      ItemsOfSnoc(sc, idx, recs, rec);
      KeptHeadersSnoc(items, item);
      recs := recs + [rec];
      items := items + [item];
      txByID := OfferHeader(txByID, HeaderOf(item));
    }
    var transactions := ListHeaders(items, txByID);
    r := Ok(ParsedBatch(transactions, items));
  }

  method ParseTransactionsCSV(file: CsvFile, sc: Scanners) returns (r: Result<ParsedBatch>)
    ensures Parses(file, sc, r)
  {
    if file.header.Broken? {
      return Err("read header: " + file.header.reason);
    }
    var idx := BuildIndex(file.header.fields);
    r := ReadRows(sc, idx, file.body);
  }

  // ---- what the parsed batch satisfies ----

  /** Every item's transaction has a header, and only one: the ids of the headers are distinct. */
  lemma HeadersCoverItems(txs: seq<Transaction>, items: seq<Item>)
    requires ListsKept(txs, Kept(HeadersOf(items)))
    ensures forall i :: 0 <= i < |items| ==> exists j :: 0 <= j < |txs| && txs[j].transactionId == items[i].transactionId
    ensures forall j1, j2 :: 0 <= j1 < j2 < |txs| ==> txs[j1].transactionId != txs[j2].transactionId
  {
    var hs := HeadersOf(items);
    KeptKeys(hs);
    forall i | 0 <= i < |items|
      ensures exists j :: 0 <= j < |txs| && txs[j].transactionId == items[i].transactionId
    {
      assert hs[i].id in IdsUpTo(hs, |hs|);
    }
  }

  /** Every header's transaction id is the id of some item. */
  lemma HeadersFromItems(txs: seq<Transaction>, items: seq<Item>)
    requires ListsKept(txs, Kept(HeadersOf(items)))
    ensures forall j :: 0 <= j < |txs| ==> exists i :: 0 <= i < |items| && items[i].transactionId == txs[j].transactionId
  {
    var hs := HeadersOf(items);
    KeptKeys(hs);
    forall j | 0 <= j < |txs|
      ensures exists i :: 0 <= i < |items| && items[i].transactionId == txs[j].transactionId
    {
      var k := txs[j].transactionId;
      assert k in IdsUpTo(hs, |hs|);
      var i :| 0 <= i < |hs| && hs[i].id == k;
      assert items[i].transactionId == k;
    }
  }

  /**
   * Each header is copied from one line of its transaction, the first of its newest lines:
   * its timestamp is the newest of the transaction's line timestamps, and nil only when all are.
   */
  lemma HeaderIsNewestLine(txs: seq<Transaction>, items: seq<Item>, j: nat)
    requires ListsKept(txs, Kept(HeadersOf(items))) && j < |txs|
    ensures exists c: nat :: (c < |items| && Chosen(HeadersOf(items), txs[j].transactionId, c) &&
                              txs[j] == Transaction(items[c].transactionId, items[c].sale, items[c].updatedAtPhorest))
    ensures forall i :: 0 <= i < |items| && items[i].transactionId == txs[j].transactionId ==>
      NoNewer(items[i].updatedAtPhorest, txs[j].updatedAtPhorest)
    ensures txs[j].updatedAtPhorest.None? <==>
      forall i :: 0 <= i < |items| && items[i].transactionId == txs[j].transactionId ==> items[i].updatedAtPhorest.None?
  {
    var hs := HeadersOf(items);
    var k := txs[j].transactionId;
    var c := KeptUpToChosen(hs, |hs|, k);
    ChosenIsNewest(hs, k, c);
    assert txs[j] == hs[c].value;
  }

  /** Every item comes from a kept row and carries that row's transaction_id, which is not empty. */
  lemma ItemsHaveIds(sc: Scanners, idx: map<string, nat>, recs: seq<seq<string>>)
    requires forall i :: 0 <= i < |recs| ==> HasKeys(idx, recs[i], TxKeys)
    ensures forall i :: 0 <= i < |recs| ==> ItemsOf(sc, idx, recs)[i].transactionId == Get(idx, recs[i], "transaction_id") != ""
  {
    forall i | 0 <= i < |recs|
      ensures ItemsOf(sc, idx, recs)[i].transactionId == Get(idx, recs[i], "transaction_id") != ""
    {
      assert HasKeys(idx, recs[i], TxKeys);
      assert TxKeys[0] == "transaction_id";
    }
  }
}
