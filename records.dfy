/**
 * The rows of the sync engine's tables and the three timestamp rules the engine applies to
 * them: the newest-wins WHERE of the conditional upserts, the within-file de-duplication
 * rule of the CSV readers, and Postgres' GREATEST, which ignores NULL.
 */
module Records {
  import opened Wrappers
  import opened Clock

  /** A parsed CSV value kept in a column that no rule of the engine looks at. */
  datatype Cell =
    | Text(text: string)
    | Number(number: real)
    | Integer(integer: int)
    | Flag(flag: bool)
    | Moment(moment: Option<Time>)
    | MaybeInteger(maybeInteger: Option<int>)
    | MaybeNumber(maybeNumber: Option<real>)

  /** Column name to value, for the columns carried through unchanged. */
  type Payload = map<string, Cell>

  /**
   * The WHERE of the conditional upserts: `stored IS NULL OR incoming > stored`.
   * A NULL incoming timestamp makes the comparison NULL, so it never wins over a stored one.
   */
  predicate Accepts(stored: Option<Time>, incoming: Option<Time>) {
    stored.None? || (incoming.Some? && incoming.value > stored.value)
  }

  /**
   * The readers' de-duplication switch: a later row with the same id replaces the kept one
   * iff the kept timestamp is nil and the new one is not, or both are set and the new one is
   * strictly after. A nil newcomer, or a tie, keeps the first row.
   */
  predicate Supersedes(kept: Option<Time>, next: Option<Time>) {
    next.Some? && (kept.None? || next.value > kept.value)
  }

  /** GREATEST(a, b) of Postgres: the larger of the two, where NULL counts as absent. */
  function Greatest(a: Option<Time>, b: Option<Time>): (r: Option<Time>)
    ensures r.None? <==> a.None? && b.None?
    ensures a.Some? ==> r.Some? && r.value >= a.value
    ensures b.Some? ==> r.Some? && r.value >= b.value
    ensures r == a || r == b
  {
    match (a, b)
    case (None, _) => b
    case (_, None) => a
    case (Some(x), Some(y)) => if x >= y then a else b
  }

  /** r is the largest instant of s, or None when s is empty. */
  ghost predicate IsLatest(s: set<Time>, r: Option<Time>) {
    (r.None? <==> s == {}) && (r.Some? ==> r.value in s && forall y :: y in s ==> y <= r.value)
  }

  lemma LatestUnique(s: set<Time>, a: Option<Time>, b: Option<Time>)
    requires IsLatest(s, a) && IsLatest(s, b)
    ensures a == b
  {
    if a.Some? {
      assert a.value <= b.value && b.value <= a.value;
    }
  }

  /** Greatest is the least upper bound: commutative, associative and idempotent. */
  lemma GreatestLaws(a: Option<Time>, b: Option<Time>, c: Option<Time>)
    ensures Greatest(a, b) == Greatest(b, a)
    ensures Greatest(Greatest(a, b), c) == Greatest(a, Greatest(b, c))
    ensures Greatest(a, a) == a
  {
  }

  /** The newest-wins rule never lets a row move its timestamp backwards or to NULL. */
  lemma AcceptsNeverRegresses(stored: Option<Time>, incoming: Option<Time>)
    requires stored.Some? && Accepts(stored, incoming)
    ensures incoming.Some? && incoming.value > stored.value
  {
  }

  // ---- clients ----

  /** A Phorest client as read from the export: its id, its two upstream timestamps, the rest. */
  datatype Client = Client(
    clientId: string,
    createdAtPhorest: Option<Time>,
    updatedAtPhorest: Option<Time>,
    attributes: Payload)

  /** A stored client: the record plus the row's own created_at / updated_at. */
  datatype ClientRow = ClientRow(client: Client, createdAt: Time, updatedAt: Time)

  // ---- transactions ----

  /** The sale-level columns every line of a sale repeats, and which its header keeps. */
  datatype SaleEcho = SaleEcho(
    branchId: string,
    branchName: string,
    clientId: string,
    clientFirstName: string,
    clientLastName: string,
    clientSource: string,
    purchasedDate: Option<Time>,
    purchaseTime: Option<Time>)

  /** A transaction header. */
  datatype Transaction = Transaction(transactionId: string, sale: SaleEcho, updatedAtPhorest: Option<Time>)

  datatype TransactionRow = TransactionRow(header: Transaction, createdAt: Time, updatedAt: Time)

  /**
   * A transaction line: its own id, its sale's id, the echoed sale columns, the columns the
   * conflict update leaves alone (the purchase-level discount columns and the service, package,
   * special-offer, product, course, voucher and reward columns), and the other line columns.
   */
  datatype Item = Item(
    itemId: string,
    transactionId: string,
    sale: SaleEcho,
    frozen: Payload,
    line: Payload,
    updatedAtPhorest: Option<Time>)

  datatype ItemRow = ItemRow(item: Item, createdAt: Time, updatedAt: Time)

  // ---- reviews ----

  datatype Review = Review(
    reviewId: string,
    branchId: string,
    clientId: string,
    clientFirstName: string,
    clientLastName: string,
    reviewDate: Option<Time>,
    visitDate: Option<Time>,
    staffId: string,
    staffFirstName: string,
    staffLastName: string,
    text: string,
    rating: int,
    facebookReview: bool,
    twitterReview: bool)

  // ---- staff and branches ----

  datatype StaffKey = StaffKey(staffId: string, branchId: string)

  datatype Staff = Staff(
    staffId: string,
    branchId: string,
    staffCategoryId: string,
    userId: string,
    staffCategoryName: string,
    firstName: string,
    lastName: string,
    birthDate: Option<Time>,
    startDate: Option<Time>,
    selfEmployed: bool,
    archived: bool,
    mobile: string,
    email: string,
    gender: string,
    notes: string,
    onlineProfile: string,
    hideFromOnlineBookings: bool,
    hideFromAppointmentScreen: bool,
    imageUrl: string)

  datatype StaffRow = StaffRow(staff: Staff, createdAt: Time, updatedAt: Time)

  datatype Branch = Branch(
    branchId: string,
    name: string,
    timeZone: string,
    latitude: Option<real>,
    longitude: Option<real>,
    street1: string,
    street2: string,
    city: string,
    state: string,
    postalCode: string,
    country: string,
    currencyCode: string,
    accountId: Option<int>)

  datatype BranchRow = BranchRow(branch: Branch, createdAt: Time, updatedAt: Time)

  // ---- products and stock ----

  datatype PhProduct = PhProduct(
    id: string,
    parentId: Option<string>,
    name: string,
    brandId: Option<string>,
    brandName: Option<string>,
    categoryId: Option<string>,
    categoryName: Option<string>,
    code: Option<string>,
    typeRaw: Option<string>,
    measurementQty: Option<real>,
    measurementUnit: Option<string>,
    archived: bool,
    createdAtPh: Option<Time>,
    updatedAtPh: Option<Time>)

  /** A stored product: inserted_at is set on insert only, updated_at on every write. */
  datatype ProductRow = ProductRow(product: PhProduct, insertedAt: Time, updatedAt: Time)

  datatype StockKey = StockKey(productId: string, branchId: string)

  datatype PhProductStock = PhProductStock(
    productId: string,
    branchId: string,
    price: Option<real>,
    minQuantity: Option<real>,
    maxQuantity: Option<real>,
    quantityInStock: Option<real>,
    reorderCount: Option<real>,
    reorderCost: Option<real>,
    archived: bool,
    createdAtPh: Option<Time>,
    updatedAtPh: Option<Time>,
    lastSyncedAt: Time)

  datatype PhProductStockHistory = PhProductStockHistory(
    productId: string,
    branchId: string,
    snapshotTime: Time,
    quantityInStock: Option<real>,
    price: Option<real>,
    source: string)

  // ---- configuration ----

  /** One configured salon: its display name and its Phorest branch id. */
  datatype BranchConfig = BranchConfig(name: string, branchId: string)

  // ---- watermarks ----

  /** A sync_watermarks row's key: the stream name and the (normalised) branch. */
  datatype WatermarkKey = WatermarkKey(entity: string, branchId: string)
}
