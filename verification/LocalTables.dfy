/** The till's own database: cached products and customers, and the outbox of sales. */
module LocalTables {
  import opened Sums
  import opened Tables
  import opened Sync

  /** A cached stock level: never stored, stored as unknown, or known (in thousandths). */
  datatype Reading = Absent | Unknown | Known(level: int)

  /** Counters come in two generations of fields, in thousandths and in sale units;
      both are kept here in thousandths. Prices are whole FCFA. */
  datatype LocalProduct = LocalProduct(
    name: string, sellingPrice: nat, saleUnit: Option<SaleUnit>, active: bool,
    stockMilli: Reading, stock: Reading, pendingMilli: Option<int>, pending: Option<int>)

  datatype LocalItem = LocalItem(
    product: Uuid, name: string, unitPrice: int, catalogPrice: Option<int>, saleUnit: Option<SaleUnit>,
    milli: Option<int>, quantity: Option<int>, lineTotal: int)

  datatype LocalPayment = LocalPayment(paidBy: PaymentMethod, amount: int, received: Option<int>, change: Option<int>)

  datatype LocalStatus = PendingSync | SyncDone | InConflict

  datatype LocalSale = LocalSale(
    id: Uuid, serverId: Option<Uuid>, event: Uuid, session: Uuid, store: Uuid, createdAt: Instant,
    status: LocalStatus, conflict: Option<Code>, items: seq<LocalItem>, payments: seq<LocalPayment>,
    credit: Option<int>, customer: Option<Uuid>, total: int)

  datatype Till = Till(
    products: map<StockKey, LocalProduct>,
    sales: map<Uuid, LocalSale>,
    // Server-known balance of each cached customer, in FCFA, by store and customer.
    customers: map<(Uuid, Uuid), int>)

  class TillDb {
    var products: map<StockKey, LocalProduct>
    var sales: map<Uuid, LocalSale>
    var customers: map<(Uuid, Uuid), int>

    ghost function Snapshot(): Till
      reads this
    {
      Till(products, sales, customers)
    }
  }

  function OrElse(value: Option<int>, default: int): int {
    if value.Some? then value.value else default
  }

  /** The counter in force, whichever generation holds it. */
  function Pending(p: LocalProduct): int {
    OrElse(p.pendingMilli, OrElse(p.pending, 0))
  }

  function SetPending(p: LocalProduct, milli: int): LocalProduct {
    p.(pendingMilli := Some(milli), pending := Some(milli))
  }

  function ItemMilli(item: LocalItem): int {
    OrElse(item.milli, OrElse(item.quantity, 0))
  }

  /** Stock that can still be sold; None when the level is unknown, hence unlimited. */
  function Available(p: LocalProduct): Option<int> {
    if !p.stockMilli.Known? && p.stock.Unknown? then None
    else
      var level := if p.stockMilli.Known? then p.stockMilli.level else if p.stock.Known? then p.stock.level else 0;
      Some(level - Pending(p))
  }

  // ---------- The pending index ----------

  function MilliOf(product: Uuid): LocalItem -> int {
    (item: LocalItem) => if item.product == product then ItemMilli(item) else 0
  }

  function Sold(items: seq<LocalItem>, product: Uuid): int {
    Sum(items, MilliOf(product))
  }

  predicate Mentions(items: seq<LocalItem>, product: Uuid) {
    exists i :: 0 <= i < |items| && items[i].product == product
  }

  function UnsyncedMilli(key: StockKey): LocalSale -> int {
    (s: LocalSale) => if !s.status.SyncDone? && s.store == key.store then Sold(s.items, key.product) else 0
  }

  /** What the unsynced sales of a store take from a product. */
  ghost function PendingSum(sales: map<Uuid, LocalSale>, key: StockKey): int {
    Total(sales, UnsyncedMilli(key))
  }

  ghost predicate CounterRight(products: map<StockKey, LocalProduct>, sales: map<Uuid, LocalSale>, key: StockKey)
    requires key in products
  {
    Pending(products[key]) == PendingSum(sales, key)
  }

  /** The denormalised counter of every cached product agrees with the unsynced sales. */
  ghost predicate IndexHolds(t: Till) {
    forall key :: key in t.products ==> CounterRight(t.products, t.sales, key)
  }

  predicate PositiveItems(items: seq<LocalItem>) {
    forall i :: 0 <= i < |items| ==> ItemMilli(items[i]) > 0
  }

  ghost predicate ValidQuantities(sales: map<Uuid, LocalSale>) {
    forall id :: id in sales && !sales[id].status.SyncDone? ==> PositiveItems(sales[id].items)
  }

  lemma {:induction false} SoldNonneg(items: seq<LocalItem>, product: Uuid)
    requires PositiveItems(items)
    ensures Sold(items, product) >= 0
    ensures Mentions(items, product) <==> Sold(items, product) > 0
  {
    SumNonneg(items, MilliOf(product));
    if i :| 0 <= i < |items| && items[i].product == product {
      assert MilliOf(product)(items[i]) > 0;
    } else {
      SumZero(items, MilliOf(product));
    }
  }

  lemma {:induction false} PendingSumCovers(sales: map<Uuid, LocalSale>, id: Uuid, product: Uuid)
    requires ValidQuantities(sales) && id in sales && !sales[id].status.SyncDone?
    ensures PendingSum(sales, StockKey(sales[id].store, product)) >= Sold(sales[id].items, product)
  {
    var key := StockKey(sales[id].store, product);
    forall other | other in sales ensures UnsyncedMilli(key)(sales[other]) >= 0 {
      if !sales[other].status.SyncDone? { SoldNonneg(sales[other].items, product); }
    }
    TotalNonneg(sales, UnsyncedMilli(key));
    assert UnsyncedMilli(key)(sales[id]) <= PendingSum(sales, key);
  }
}
