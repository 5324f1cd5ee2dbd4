/**
 * The database the engine writes: one map per table, keyed by the table's natural key,
 * plus the append-only stock history. Every statement or query is one round trip to the
 * server, and the round trips whose numbers are in `faulty` fail (a lost connection, a
 * timeout, a constraint the model does not track).
 */
module Store {
  import opened Wrappers
  import opened Clock
  import opened Records

  /** The contents of every table at one moment. */
  datatype Tables = Tables(
    watermarks: map<WatermarkKey, Option<Time>>,
    clients: map<string, ClientRow>,
    transactions: map<string, TransactionRow>,
    items: map<string, ItemRow>,
    reviews: map<string, Review>,
    staff: map<StaffKey, StaffRow>,
    branches: map<string, BranchRow>,
    products: map<string, ProductRow>,
    stock: map<StockKey, PhProductStock>,
    stockHistory: seq<PhProductStockHistory>)

  /** The error every failed round trip reports. */
  const ConnectionFault: string := "database round trip failed"

  /** No round trip numbered from `start` up to (not including) `stop` failed. */
  predicate Clean(faulty: set<nat>, start: nat, stop: nat) {
    forall q :: start <= q < stop ==> q !in faulty
  }

  lemma CleanJoin(faulty: set<nat>, a: nat, b: nat, c: nat)
    requires a <= b <= c && Clean(faulty, a, b) && Clean(faulty, b, c)
    ensures Clean(faulty, a, c)
  {
  }

  class Db {
    const faulty: set<nat>
    var round: nat
    var watermarks: map<WatermarkKey, Option<Time>>
    var clients: map<string, ClientRow>
    var transactions: map<string, TransactionRow>
    var items: map<string, ItemRow>
    var reviews: map<string, Review>
    var staff: map<StaffKey, StaffRow>
    var branches: map<string, BranchRow>
    var products: map<string, ProductRow>
    var stock: map<StockKey, PhProductStock>
    var stockHistory: seq<PhProductStockHistory>

    /** An empty database whose round trips numbered in `faulty` will fail. */
    constructor(faulty: set<nat>)
      ensures this.faulty == faulty && round == 0
      ensures Contents() == Tables(map[], map[], map[], map[], map[], map[], map[], map[], map[], [])
    {
      this.faulty := faulty;
      round := 0;
      watermarks := map[];
      clients := map[];
      transactions := map[];
      items := map[];
      reviews := map[];
      staff := map[];
      branches := map[];
      products := map[];
      stock := map[];
      stockHistory := [];
    }

    function Contents(): Tables
      reads this
    {
      Tables(watermarks, clients, transactions, items, reviews, staff, branches, products, stock, stockHistory)
    }

    /** One round trip to the server: it fails exactly when its number is in `faulty`. */
    method RoundTrip() returns (ok: bool)
      modifies this`round
      ensures round == old(round) + 1
      ensures ok <==> old(round) !in faulty
    {
      ok := round !in faulty;
      round := round + 1;
    }
  }
}
