/** Local sales: created, synchronised, put in conflict, requeued or cancelled. */
module LocalSales {
  import opened Sums
  import opened Tables
  import opened Sync
  import opened LocalTables

  datatype LocalError =
    | CartEmpty | CustomerMissing | ProductMissing | StockShort | PaymentRefused | DuplicateKey | InvalidQuantity
    | InvalidPrice

  // ---------- Payments at the till ----------

  datatype LocalLeg = LocalLeg(paidBy: PaymentMethod, amount: int, received: Option<int>)

  function LocalAmounts(): LocalLeg -> int {
    (leg: LocalLeg) => leg.amount
  }

  predicate HandsChange(leg: LocalLeg) {
    leg.paidBy.Cash? && OrElse(leg.received, 0) > leg.amount
  }

  predicate LocallySettles(legs: seq<LocalLeg>, total: int, credit: int) {
    && 0 <= credit <= total
    && (|legs| > 0 || credit != 0)
    && Sum(legs, LocalAmounts()) + credit == total
    && (credit > 0 ==> forall i :: 0 <= i < |legs| ==> !HandsChange(legs[i]))
  }

  function LocalPaymentOf(leg: LocalLeg): LocalPayment {
    if leg.paidBy.Cash? then
      var received := OrElse(leg.received, 0);
      LocalPayment(Cash, leg.amount, Some(received), Some(received - leg.amount))
    else LocalPayment(leg.paidBy, leg.amount, None, None)
  }

  function LocalPaymentsOf(legs: seq<LocalLeg>): seq<LocalPayment> {
    seq(|legs|, i requires 0 <= i < |legs| => LocalPaymentOf(legs[i]))
  }

  /** The payments as recorded, or nothing when the till refuses them. */
  function BuildLocalPayments(legs: seq<LocalLeg>, total: int, credit: int): Option<seq<LocalPayment>> {
    if LocallySettles(legs, total, credit) then Some(LocalPaymentsOf(legs)) else None
  }

  function RecordedAmounts(): LocalPayment -> int {
    (p: LocalPayment) => p.amount
  }

  /** Payments are recorded exactly when they settle; they then add up with the credit to
      the total, and nothing is handed back on a sale put on the book. */
  lemma {:induction false} RecordedPaymentsSettle(legs: seq<LocalLeg>, total: int, credit: int)
    ensures BuildLocalPayments(legs, total, credit).Some? <==> LocallySettles(legs, total, credit)
    ensures BuildLocalPayments(legs, total, credit).Some? ==>
              var payments := BuildLocalPayments(legs, total, credit).value;
              && Sum(payments, RecordedAmounts()) + credit == total
              && (credit > 0 ==> forall p :: p in payments ==> OrElse(p.change, 0) <= 0)
  {
    RecordedSum(legs);
    if LocallySettles(legs, total, credit) && credit > 0 {
      forall p | p in LocalPaymentsOf(legs) ensures OrElse(p.change, 0) <= 0 {
        var i :| 0 <= i < |legs| && p == LocalPaymentOf(legs[i]);
        assert !HandsChange(legs[i]);
      }
    }
  }

  lemma {:induction false} RecordedSum(legs: seq<LocalLeg>)
    ensures Sum(LocalPaymentsOf(legs), RecordedAmounts()) == Sum(legs, LocalAmounts())
  {
    SumPointwise(LocalPaymentsOf(legs), legs, RecordedAmounts(), LocalAmounts());
  }

  // ---------- Creating a sale ----------

  datatype CartLine = CartLine(product: Uuid, milli: Option<int>, quantity: Option<int>, unitPrice: Option<int>)

  datatype SaleInput = SaleInput(
    session: Uuid, store: Uuid, lines: seq<CartLine>, legs: seq<LocalLeg>, credit: int, customer: Option<Uuid>)

  /** Identifiers and clock of a new sale. */
  datatype Stamp = Stamp(id: Uuid, event: Uuid, at: Instant)

  function CartMilli(line: CartLine): int {
    OrElse(line.milli, OrElse(line.quantity, 0))
  }

  function LineProblem(products: map<StockKey, LocalProduct>, store: Uuid, line: CartLine): Option<LocalError> {
    var key := StockKey(store, line.product);
    if key !in products || !products[key].active then Some(ProductMissing)
    else
      var available := Available(products[key]);
      if available.Some? && available.value < CartMilli(line) then Some(StockShort) else None
  }

  /** BigInt division truncates toward zero. */
  function TruncatedLineTotal(unitPrice: int, milli: int): int {
    var n := unitPrice * milli + 500;
    if n >= 0 then n / 1000 else -((-n) / 1000)
  }

  function ItemOf(p: LocalProduct, line: CartLine): LocalItem {
    var price := OrElse(line.unitPrice, p.sellingPrice);
    var milli := CartMilli(line);
    var detailed := p.saleUnit.Some? || line.milli.Some? || line.unitPrice.Some?;
    LocalItem(
      line.product, p.name, price,
      if detailed then Some(p.sellingPrice) else None,
      if detailed then Some(if p.saleUnit.Some? then p.saleUnit.value else Unit) else None,
      if detailed then Some(milli) else None,
      Some(milli), TruncatedLineTotal(price, milli))
  }

  /** The items of the cart, or the first problem met. */
  function ItemsOf(products: map<StockKey, LocalProduct>, store: Uuid, lines: seq<CartLine>)
      : Result<seq<LocalItem>, LocalError> {
    if |lines| == 0 then Ok([])
    else
      var before := ItemsOf(products, store, lines[..|lines| - 1]);
      var line := lines[|lines| - 1];
      if before.Err? then before
      else if LineProblem(products, store, line).Some? then Err(LineProblem(products, store, line).value)
      else Ok(before.value + [ItemOf(products[StockKey(store, line.product)], line)])
  }

  function LocalLineTotals(): LocalItem -> int {
    (item: LocalItem) => item.lineTotal
  }

  /** Counters are raised from the products read before any of them changed. */
  function Raised(products: map<StockKey, LocalProduct>, store: Uuid, items: seq<LocalItem>)
      : map<StockKey, LocalProduct>
    requires forall i :: 0 <= i < |items| ==> StockKey(store, items[i].product) in products
  {
    if |items| == 0 then products
    else
      var item := items[|items| - 1];
      var key := StockKey(store, item.product);
      Raised(products, store, items[..|items| - 1])[key :=
        SetPending(products[key], Pending(products[key]) + ItemMilli(item))]
  }

  lemma {:induction false} ItemsKnown(products: map<StockKey, LocalProduct>, store: Uuid, lines: seq<CartLine>)
    requires ItemsOf(products, store, lines).Ok?
    ensures var items := ItemsOf(products, store, lines).value;
            && |items| == |lines|
            && (forall i :: 0 <= i < |items| ==>
                  && items[i].product == lines[i].product && ItemMilli(items[i]) == CartMilli(lines[i])
                  && StockKey(store, items[i].product) in products
                  && items[i] == ItemOf(products[StockKey(store, items[i].product)], lines[i]))
  {
    if |lines| > 0 {
      ItemsKnown(products, store, lines[..|lines| - 1]);
      assert forall i :: 0 <= i < |lines| - 1 ==> lines[..|lines| - 1][i] == lines[i];
    }
  }

  function NewLocalSale(x: SaleInput, stamp: Stamp, items: seq<LocalItem>, payments: seq<LocalPayment>): LocalSale {
    LocalSale(stamp.id, None, stamp.event, x.session, x.store, stamp.at, PendingSync, None, items, payments,
              Some(x.credit), if x.credit > 0 then x.customer else None, Sum(items, LocalLineTotals()))
  }

  function CreateSpec(t: Till, x: SaleInput, stamp: Stamp): Result<(Till, LocalSale), LocalError> {
    if |x.lines| == 0 then Err(CartEmpty)
    else if x.credit > 0 && x.customer.None? then Err(CustomerMissing)
    else
      var items := ItemsOf(t.products, x.store, x.lines);
      if items.Err? then Err(items.error)
      else
        ItemsKnown(t.products, x.store, x.lines);
        var payments := BuildLocalPayments(x.legs, Sum(items.value, LocalLineTotals()), x.credit);
        if payments.None? then Err(PaymentRefused)
        else if stamp.id in t.sales then Err(DuplicateKey)
        else
          var sale := NewLocalSale(x, stamp, items.value, payments.value);
          Ok((t.(sales := t.sales[stamp.id := sale], products := Raised(t.products, x.store, items.value)), sale))
  }

  method CreateLocalSale(db: TillDb, x: SaleInput, stamp: Stamp) returns (r: Result<LocalSale, LocalError>)
    modifies db
    ensures r.Ok? <==> CreateSpec(old(db.Snapshot()), x, stamp).Ok?
    ensures r.Ok? ==> (db.Snapshot(), r.value) == CreateSpec(old(db.Snapshot()), x, stamp).value
    ensures r.Err? ==> db.Snapshot() == old(db.Snapshot()) && CreateSpec(db.Snapshot(), x, stamp) == Err(r.error)
  {
    if |x.lines| == 0 { return Err(CartEmpty); }
    if x.credit > 0 && x.customer.None? { return Err(CustomerMissing); }
    var checked := CheckCart(db.products, x.store, x.lines);
    if checked.Err? { return Err(checked.error); }
    var items := checked.value;
    ItemsKnown(db.products, x.store, x.lines);
    var payments := BuildLocalPayments(x.legs, Sum(items, LocalLineTotals()), x.credit);
    if payments.None? { return Err(PaymentRefused); }
    if stamp.id in db.sales { return Err(DuplicateKey); }
    var sale := NewLocalSale(x, stamp, items, payments.value);
    db.sales := db.sales[stamp.id := sale];
    var raised := RaiseCounters(db.products, x.store, items);
    db.products := raised;
    return Ok(sale);
  }

  method RaiseCounters(read: map<StockKey, LocalProduct>, store: Uuid, items: seq<LocalItem>)
      returns (products: map<StockKey, LocalProduct>)
    requires forall i :: 0 <= i < |items| ==> StockKey(store, items[i].product) in read
    ensures products == Raised(read, store, items)
  {
    products := read;
    for k := 0 to |items|
      invariant products == Raised(read, store, items[..k])
    {
      var item := items[k];
      var key := StockKey(store, item.product);
      assert items[..k + 1][..k] == items[..k];
      products := products[key := SetPending(read[key], Pending(read[key]) + ItemMilli(item))];
    }
    assert items[..|items|] == items;
  }

  method CheckCart(products: map<StockKey, LocalProduct>, store: Uuid, lines: seq<CartLine>)
      returns (r: Result<seq<LocalItem>, LocalError>)
    ensures r == ItemsOf(products, store, lines)
  {
    var items: seq<LocalItem> := [];
    for k := 0 to |lines|
      invariant ItemsOf(products, store, lines[..k]) == Ok(items)
    {
      var line := lines[k];
      assert lines[..k + 1][..k] == lines[..k];
      FirstProblemStays(products, store, lines, k + 1);
      var key := StockKey(store, line.product);
      if key !in products || !products[key].active { return Err(ProductMissing); }
      var available := Available(products[key]);
      if available.Some? && available.value < CartMilli(line) { return Err(StockShort); }
      items := items + [ItemOf(products[key], line)];
    }
    assert lines[..|lines|] == lines;
    return Ok(items);
  }

  lemma {:induction false} FirstProblemStays(products: map<StockKey, LocalProduct>, store: Uuid, lines: seq<CartLine>,
      k: nat)
    requires k <= |lines|
    ensures ItemsOf(products, store, lines[..k]).Err? ==>
              ItemsOf(products, store, lines) == ItemsOf(products, store, lines[..k])
    decreases |lines|
  {
    if k < |lines| {
      FirstProblemStays(products, store, lines[..|lines| - 1], k);
      assert lines[..|lines| - 1][..k] == lines[..k];
    } else {
      assert lines[..k] == lines;
    }
  }

  // ---------- Leaving the outbox ----------

  /** Counters lowered by a sale that leaves the unsynced set, never below zero. */
  function Lowered(products: map<StockKey, LocalProduct>, sale: LocalSale): map<StockKey, LocalProduct> {
    map key | key in products ::
      if key.store == sale.store && Mentions(sale.items, key.product)
      then LoweredProduct(products[key], Sold(sale.items, key.product))
      else products[key]
  }

  /** Quantities by product, with the products in the order they were first met. */
  method SoldByProduct(items: seq<LocalItem>) returns (sold: map<Uuid, int>, order: seq<Uuid>)
    ensures forall p :: p in sold <==> Mentions(items, p)
    ensures forall p :: p in sold ==> sold[p] == Sold(items, p)
    ensures DistinctIds(order) && forall p :: p in order <==> p in sold
  {
    sold, order := map[], [];
    for k := 0 to |items|
      invariant forall p :: p in sold <==> Mentions(items[..k], p)
      invariant forall p :: p in sold ==> sold[p] == Sold(items[..k], p)
      invariant DistinctIds(order) && forall p :: p in order <==> p in sold
    {
      var item := items[k];
      assert items[..k + 1] == items[..k] + [item];
      forall p
        ensures Mentions(items[..k + 1], p) <==> Mentions(items[..k], p) || p == item.product
        ensures Sold(items[..k + 1], p) == Sold(items[..k], p) + MilliOf(p)(item)
        ensures !Mentions(items[..k], p) ==> Sold(items[..k], p) == 0
      {
        SoldPush(items[..k], item, p);
      }
      if item.product !in sold { order := order + [item.product]; }
      var before := if item.product in sold then sold[item.product] else 0;
      sold := sold[item.product := before + ItemMilli(item)];
    }
    assert items[..|items|] == items;
  }

  predicate DistinctIds(ids: seq<Uuid>) {
    forall i, j :: 0 <= i < j < |ids| ==> ids[i] != ids[j]
  }

  lemma {:induction false} SoldPush(items: seq<LocalItem>, item: LocalItem, p: Uuid)
    ensures Mentions(items + [item], p) <==> Mentions(items, p) || p == item.product
    ensures Sold(items + [item], p) == Sold(items, p) + MilliOf(p)(item)
    ensures !Mentions(items, p) ==> Sold(items, p) == 0
  {
    SumPush(items, item, MilliOf(p));
    MentionsPush(items, item, p);
    if !Mentions(items, p) { SumZero(items, MilliOf(p)); }
  }

  lemma {:induction false} MentionsPush(items: seq<LocalItem>, item: LocalItem, p: Uuid)
    ensures Mentions(items + [item], p) <==> Mentions(items, p) || p == item.product
  {
    var all := items + [item];
    assert all[|items|] == item;
    if i :| 0 <= i < |items| && items[i].product == p { assert all[i].product == p; }
    if i :| 0 <= i < |all| && all[i].product == p && p != item.product { assert items[i].product == p; }
  }

  function LoweredProduct(p: LocalProduct, sold: int): LocalProduct {
    SetPending(p, Max(Pending(p) - sold, 0))
  }

  /** Lowering one product after the other. */
  function LoweredInOrder(products: map<StockKey, LocalProduct>, sale: LocalSale, order: seq<Uuid>)
      : map<StockKey, LocalProduct> {
    if |order| == 0 then products
    else
      var before := LoweredInOrder(products, sale, order[..|order| - 1]);
      var p := order[|order| - 1];
      var key := StockKey(sale.store, p);
      if key in before then before[key := LoweredProduct(before[key], Sold(sale.items, p))] else before
  }

  lemma {:induction false} LoweredInOrderAt(products: map<StockKey, LocalProduct>, sale: LocalSale, order: seq<Uuid>)
    requires DistinctIds(order)
    ensures LoweredInOrder(products, sale, order).Keys == products.Keys
    ensures forall key :: key in products ==>
              LoweredInOrder(products, sale, order)[key] ==
              if key.store == sale.store && key.product in order
              then LoweredProduct(products[key], Sold(sale.items, key.product)) else products[key]
  {
    if |order| > 0 {
      var front, p := order[..|order| - 1], order[|order| - 1];
      assert order == front + [p];
      assert p !in front;
      LoweredInOrderAt(products, sale, front);
    }
  }

  lemma {:induction false} LoweredWhole(products: map<StockKey, LocalProduct>, sale: LocalSale, order: seq<Uuid>)
    requires DistinctIds(order) && forall p :: p in order <==> Mentions(sale.items, p)
    ensures LoweredInOrder(products, sale, order) == Lowered(products, sale)
  {
    LoweredInOrderAt(products, sale, order);
  }

  method LowerPending(products: map<StockKey, LocalProduct>, sale: LocalSale)
      returns (lowered: map<StockKey, LocalProduct>)
    ensures lowered == Lowered(products, sale)
  {
    var sold, order := SoldByProduct(sale.items);
    lowered := products;
    for k := 0 to |order|
      invariant lowered == LoweredInOrder(products, sale, order[..k])
    {
      var p := order[k];
      var key := StockKey(sale.store, p);
      assert order[..k + 1][..k] == order[..k];
      if key in lowered {
        lowered := lowered[key := LoweredProduct(lowered[key], sold[p])];
      }
    }
    assert order[..|order|] == order;
    LoweredWhole(products, sale, order);
  }

  /** The debt of a synced credit sale moves to the cached server balance. */
  function Credited(customers: map<(Uuid, Uuid), int>, sale: LocalSale): map<(Uuid, Uuid), int> {
    if sale.customer.Some? && OrElse(sale.credit, 0) > 0 && (sale.store, sale.customer.value) in customers
    then customers[(sale.store, sale.customer.value) :=
      customers[(sale.store, sale.customer.value)] + OrElse(sale.credit, 0)]
    else customers
  }

  function SyncedTill(t: Till, id: Uuid, serverId: Uuid): Till {
    if id !in t.sales || t.sales[id].status.SyncDone? then t
    else
      var sale := t.sales[id];
      Till(Lowered(t.products, sale),
           t.sales[id := sale.(status := SyncDone, serverId := Some(serverId), conflict := None)],
           Credited(t.customers, sale))
  }

  method MarkLocalSaleSynced(db: TillDb, id: Uuid, serverId: Uuid)
    modifies db
    ensures db.Snapshot() == SyncedTill(old(db.Snapshot()), id, serverId)
  {
    if id !in db.sales || db.sales[id].status.SyncDone? { return; }
    var sale := db.sales[id];
    var credit := OrElse(sale.credit, 0);
    if sale.customer.Some? && credit > 0 {
      var key := (sale.store, sale.customer.value);
      if key in db.customers {
        db.customers := db.customers[key := db.customers[key] + credit];
      }
    }
    var lowered := LowerPending(db.products, sale);
    db.products := lowered;
    db.sales := db.sales[id := sale.(status := SyncDone, serverId := Some(serverId), conflict := None)];
  }

  function CancelledTill(t: Till, id: Uuid): (Till, bool) {
    if id !in t.sales || !t.sales[id].status.PendingSync? then (t, false)
    else (t.(products := Lowered(t.products, t.sales[id]), sales := t.sales - {id}), true)
  }

  method CancelPendingLocalSale(db: TillDb, id: Uuid) returns (cancelled: bool)
    modifies db
    ensures (db.Snapshot(), cancelled) == CancelledTill(old(db.Snapshot()), id)
  {
    if id !in db.sales || !db.sales[id].status.PendingSync? { return false; }
    var lowered := LowerPending(db.products, db.sales[id]);
    db.products := lowered;
    db.sales := db.sales - {id};
    return true;
  }

  /** The current status is not looked at. */
  function ConflictTill(t: Till, id: Uuid, code: Code): Till {
    if id !in t.sales then t
    else t.(sales := t.sales[id := t.sales[id].(status := InConflict, conflict := Some(code))])
  }

  method MarkLocalSaleConflict(db: TillDb, id: Uuid, code: Code)
    modifies db
    ensures db.Snapshot() == ConflictTill(old(db.Snapshot()), id, code)
  {
    if id in db.sales {
      db.sales := db.sales[id := db.sales[id].(status := InConflict, conflict := Some(code))];
    }
  }

  /** Refusals the server no longer pronounces go back to pending. */
  function Requeued(s: LocalSale): LocalSale {
    if s.status.InConflict? && s.conflict == Some(SessionNotOwned) then s.(status := PendingSync, conflict := None)
      else s
  }

  function RequeuedTill(t: Till): Till {
    t.(sales := map id | id in t.sales :: Requeued(t.sales[id]))
  }

  method RequeueRetryableConflicts(db: TillDb)
    modifies db
    ensures db.Snapshot() == RequeuedTill(old(db.Snapshot()))
  {
    db.sales := map id | id in db.sales :: Requeued(db.sales[id]);
  }

  /** A sale leaves the till by cancellation exactly while it is pending; nothing else of the
      outbox or of the customers moves. */
  lemma {:induction false} CancelsLocallyIff(t: Till, id: Uuid, other: Uuid)
    ensures var (after, cancelled) := CancelledTill(t, id);
            && (cancelled <==> id in t.sales && t.sales[id].status == PendingSync)
            && (id in after.sales <==> id in t.sales && !cancelled)
            && (other != id ==> (other in after.sales <==> other in t.sales)
                                && (other in t.sales ==> after.sales[other] == t.sales[other]))
            && after.customers == t.customers && (!cancelled ==> after == t)
  {
  }

  /** A confirmation makes any other sale synchronised, in conflict or not; a refusal puts any
      sale in conflict with its reason; and neither touches another sale. */
  lemma {:induction false} MarkedLocally(t: Till, id: Uuid, serverId: Uuid, code: Code, other: Uuid)
    requires id in t.sales
    ensures var s := t.sales[id];
            var (synced, refused) := (SyncedTill(t, id, serverId).sales, ConflictTill(t, id, code).sales);
            && id in synced && id in refused
            && synced[id] == (if s.status == SyncDone then s
                              else s.(status := SyncDone, serverId := Some(serverId), conflict := None))
            && refused[id] == s.(status := InConflict, conflict := Some(code))
            && (other in t.sales && other != id ==>
                  other in synced && synced[other] == t.sales[other]
                  && other in refused && refused[other] == t.sales[other])
  {
  }

  /** Exactly the refusals of a sale for not owning its session go back to pending; every
      other record stays. */
  lemma {:induction false} RequeuedIff(t: Till, id: Uuid)
    requires id in t.sales
    ensures id in RequeuedTill(t).sales
    ensures var before, after := t.sales[id], RequeuedTill(t).sales[id];
            if before.status == InConflict && before.conflict == Some(SessionNotOwned)
            then after == before.(status := PendingSync, conflict := None) else after == before
  {
  }

  // ---------- The index survives every operation ----------

  /** What the last item of a product asks for. */
  function LastMilli(items: seq<LocalItem>, p: Uuid): int {
    if |items| == 0 then 0
    else if items[|items| - 1].product == p then ItemMilli(items[|items| - 1])
    else LastMilli(items[..|items| - 1], p)
  }

  lemma {:induction false} RaisedAt(products: map<StockKey, LocalProduct>, store: Uuid, items: seq<LocalItem>,
      key: StockKey)
    requires forall i :: 0 <= i < |items| ==> StockKey(store, items[i].product) in products
    requires key in products
    ensures key in Raised(products, store, items)
    ensures Raised(products, store, items)[key] ==
              if key.store == store && Mentions(items, key.product)
              then SetPending(products[key], Pending(products[key]) + LastMilli(items, key.product)) else products[key]
  {
    if |items| > 0 {
      var last := |items| - 1;
      var front := items[..last];
      assert forall i :: 0 <= i < last ==> front[i] == items[i];
      RaisedAt(products, store, front, key);
      assert items == front + [items[last]];
      MentionsPush(front, items[last], key.product);
    }
  }

  predicate Repeated(items: seq<LocalItem>, p: Uuid) {
    exists i, j :: 0 <= i < j < |items| && items[i].product == p && items[j].product == p
  }

  predicate DistinctItems(items: seq<LocalItem>) {
    forall i, j :: 0 <= i < j < |items| ==> items[i].product != items[j].product
  }

  lemma {:induction false} RepeatedPush(items: seq<LocalItem>, item: LocalItem, p: Uuid)
    ensures Repeated(items + [item], p) <==> Repeated(items, p) || (item.product == p && Mentions(items, p))
  {
    var all := items + [item];
    assert all[|items|] == item && forall i :: 0 <= i < |items| ==> all[i] == items[i];
    if item.product == p && Mentions(items, p) {
      var i :| 0 <= i < |items| && items[i].product == p;
      assert all[i].product == p && all[|items|].product == p;
    } else if Repeated(items, p) {
      var i, j :| 0 <= i < j < |items| && items[i].product == p && items[j].product == p;
      assert all[i].product == p && all[j].product == p;
    }
  }

  /** Of positive items, the last of a product weighs as much as all of them if and only
      if it is the only one. */
  lemma {:induction false} LastIsAllIffOnce(items: seq<LocalItem>, p: Uuid)
    requires PositiveItems(items)
    ensures LastMilli(items, p) == Sold(items, p) <==> !Repeated(items, p)
  {
    if |items| > 0 {
      var front, last := items[..|items| - 1], items[|items| - 1];
      assert items == front + [last];
      RepeatedPush(front, last, p);
      SoldNonneg(front, p);
      LastIsAllIffOnce(front, p);
    }
  }

  lemma {:induction false} CreatedSum(sales: map<Uuid, LocalSale>, sale: LocalSale, key: StockKey)
    requires sale.id !in sales && !sale.status.SyncDone?
    ensures PendingSum(sales[sale.id := sale], key) ==
            PendingSum(sales, key) + if sale.store == key.store then Sold(sale.items, key.product) else 0
  {
    TotalAdd(sales, sale.id, sale, UnsyncedMilli(key));
  }

  lemma {:induction false} RaisedKeys(products: map<StockKey, LocalProduct>, store: Uuid, items: seq<LocalItem>)
    requires forall i :: 0 <= i < |items| ==> StockKey(store, items[i].product) in products
    ensures Raised(products, store, items).Keys == products.Keys
  {
    if |items| > 0 {
      assert forall i :: 0 <= i < |items| - 1 ==> items[..|items| - 1][i] == items[i];
      RaisedKeys(products, store, items[..|items| - 1]);
    }
  }

  lemma {:induction false} CreatedCounter(t: Till, sale: LocalSale, key: StockKey)
    requires IndexHolds(t) && sale.id !in t.sales && !sale.status.SyncDone? && PositiveItems(sale.items)
    requires forall i :: 0 <= i < |sale.items| ==> StockKey(sale.store, sale.items[i].product) in t.products
    requires key in t.products
    ensures key in Raised(t.products, sale.store, sale.items)
    ensures CounterRight(Raised(t.products, sale.store, sale.items), t.sales[sale.id := sale], key) <==>
              (key.store == sale.store ==> !Repeated(sale.items, key.product))
  {
    RaisedAt(t.products, sale.store, sale.items, key);
    CreatedSum(t.sales, sale, key);
    LastIsAllIffOnce(sale.items, key.product);
    SoldNonneg(sale.items, key.product);
  }

  lemma {:induction false} RepeatedKey(items: seq<LocalItem>)
    ensures DistinctItems(items) <==> forall p :: !Repeated(items, p)
    ensures forall p :: Repeated(items, p) ==> Mentions(items, p)
  {
    if !DistinctItems(items) {
      var i, j :| 0 <= i < j < |items| && items[i].product == items[j].product;
      assert Repeated(items, items[i].product);
    }
  }

  /** Creating a sale keeps the index if and only if no product appears twice in it:
      with a repeated product, the last item alone is counted. */
  lemma {:induction false} CreateKeepsIndexIffDistinct(t: Till, x: SaleInput, stamp: Stamp)
    requires IndexHolds(t) && CreateSpec(t, x, stamp).Ok?
    requires PositiveItems(CreateSpec(t, x, stamp).value.1.items)
    ensures IndexHolds(CreateSpec(t, x, stamp).value.0) <==> DistinctItems(CreateSpec(t, x, stamp).value.1.items)
  {
    var (after, sale) := CreateSpec(t, x, stamp).value;
    ItemsKnown(t.products, x.store, x.lines);
    RecordedKeepsIffDistinct(t, sale);
  }

  lemma {:induction false} RecordedKeepsIffDistinct(t: Till, sale: LocalSale)
    requires IndexHolds(t) && sale.id !in t.sales && !sale.status.SyncDone? && PositiveItems(sale.items)
    requires forall i :: 0 <= i < |sale.items| ==> StockKey(sale.store, sale.items[i].product) in t.products
    ensures IndexHolds(t.(sales := t.sales[sale.id := sale], products :=
              Raised(t.products, sale.store, sale.items))) <==>
              DistinctItems(sale.items)
  {
    var products, sales := Raised(t.products, sale.store, sale.items), t.sales[sale.id := sale];
    RaisedKeys(t.products, sale.store, sale.items);
    RepeatedKey(sale.items);
    forall key | key in products
      ensures CounterRight(products, sales, key) <==> (key.store == sale.store ==> !Repeated(sale.items, key.product))
    {
      CreatedCounter(t, sale, key);
    }
    forall p | Repeated(sale.items, p)
      ensures StockKey(sale.store, p) in products && !CounterRight(products, sales, StockKey(sale.store, p)) {
    }
  }

  /** Lowering by an unsynced sale is exact: the counter never had to be clamped at zero. */
  lemma {:induction false} LoweredCounter(t: Till, id: Uuid, key: StockKey)
    requires IndexHolds(t) && ValidQuantities(t.sales) && id in t.sales && !t.sales[id].status.SyncDone?
               && key in t.products
    ensures Pending(Lowered(t.products, t.sales[id])[key]) == PendingSum(t.sales, key) - UnsyncedMilli(key)(t.sales[id])
    ensures Pending(t.products[key]) >= UnsyncedMilli(key)(t.sales[id])
  {
    var sale := t.sales[id];
    if key.store == sale.store {
      PendingSumCovers(t.sales, id, key.product);
      SoldNonneg(sale.items, key.product);
    } else {
      PendingNonneg(t.sales, key);
    }
  }

  lemma {:induction false} PendingNonneg(sales: map<Uuid, LocalSale>, key: StockKey)
    requires ValidQuantities(sales)
    ensures PendingSum(sales, key) >= 0
  {
    forall other | other in sales ensures UnsyncedMilli(key)(sales[other]) >= 0 {
      if !sales[other].status.SyncDone? { SoldNonneg(sales[other].items, key.product); }
    }
    TotalNonneg(sales, UnsyncedMilli(key));
  }

  lemma {:induction false} SyncedCounter(t: Till, id: Uuid, after: LocalSale, key: StockKey)
    requires IndexHolds(t) && ValidQuantities(t.sales) && id in t.sales && !t.sales[id].status.SyncDone?
               && key in t.products
    requires after.status.SyncDone?
    ensures CounterRight(Lowered(t.products, t.sales[id]), t.sales[id := after], key)
  {
    LoweredCounter(t, id, key);
    TotalReplace(t.sales, id, after, UnsyncedMilli(key));
  }

  lemma {:induction false} CancelledCounter(t: Till, id: Uuid, key: StockKey)
    requires IndexHolds(t) && ValidQuantities(t.sales) && id in t.sales && !t.sales[id].status.SyncDone?
               && key in t.products
    ensures CounterRight(Lowered(t.products, t.sales[id]), t.sales - {id}, key)
  {
    LoweredCounter(t, id, key);
    TotalPick(t.sales, id, UnsyncedMilli(key));
  }

  lemma {:induction false} SyncedKeepsIndex(t: Till, id: Uuid, serverId: Uuid)
    requires IndexHolds(t) && ValidQuantities(t.sales)
    ensures IndexHolds(SyncedTill(t, id, serverId)) && ValidQuantities(SyncedTill(t, id, serverId).sales)
  {
    if id in t.sales && !t.sales[id].status.SyncDone? {
      var after := SyncedTill(t, id, serverId);
      forall key | key in t.products ensures CounterRight(after.products, after.sales, key) {
        SyncedCounter(t, id, after.sales[id], key);
      }
    }
  }

  lemma {:induction false} CancelKeepsIndex(t: Till, id: Uuid)
    requires IndexHolds(t) && ValidQuantities(t.sales)
    ensures IndexHolds(CancelledTill(t, id).0) && ValidQuantities(CancelledTill(t, id).0.sales)
  {
    if id in t.sales && t.sales[id].status.PendingSync? {
      var after := CancelledTill(t, id).0;
      forall key | key in t.products ensures CounterRight(after.products, after.sales, key) {
        CancelledCounter(t, id, key);
      }
    }
  }

  lemma {:induction false} ConflictSum(sales: map<Uuid, LocalSale>, id: Uuid, after: LocalSale, key: StockKey)
    requires id in sales && after.status.InConflict? && after.store == sales[id].store && after.items == sales[id].items
    ensures PendingSum(sales[id := after], key) == PendingSum(sales, key)
      + if sales[id].status.SyncDone? && key.store == sales[id].store then Sold(sales[id].items, key.product) else 0
  {
    TotalReplace(sales, id, after, UnsyncedMilli(key));
  }

  /** A conflict mark keeps the index exactly when the sale was not already synced, or
      takes nothing from any cached product. */
  lemma {:induction false} ConflictKeepsIndexIff(t: Till, id: Uuid, code: Code)
    requires IndexHolds(t) && id in t.sales
    ensures IndexHolds(ConflictTill(t, id, code)) <==>
              (t.sales[id].status.SyncDone? ==>
                 forall key :: key in t.products && key.store == t.sales[id].store ==>
                   Sold(t.sales[id].items, key.product) == 0)
  {
    var after := ConflictTill(t, id, code);
    forall key | key in t.products
      ensures CounterRight(after.products, after.sales, key) <==>
                (t.sales[id].status.SyncDone? && key.store == t.sales[id].store ==>
                  Sold(t.sales[id].items, key.product) == 0)
    {
      ConflictSum(t.sales, id, after.sales[id], key);
    }
  }

  lemma {:induction false} RequeueKeepsIndex(t: Till)
    requires IndexHolds(t) && ValidQuantities(t.sales)
    ensures IndexHolds(RequeuedTill(t)) && ValidQuantities(RequeuedTill(t).sales)
  {
    var after := RequeuedTill(t);
    forall id | id in t.sales
      ensures after.sales[id].items == t.sales[id].items && after.sales[id].store == t.sales[id].store
      ensures after.sales[id].status.SyncDone? <==> t.sales[id].status.SyncDone?
    {
      assert after.sales[id] == Requeued(t.sales[id]);
    }
    forall key | key in t.products ensures PendingSum(after.sales, key) == PendingSum(t.sales, key) {
      TotalSame(t.sales, after.sales, UnsyncedMilli(key));
    }
  }
}
