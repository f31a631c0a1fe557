/** Completing a sale, online or replayed from a till, and cancelling it. */
module Sales {
  import opened Sums
  import opened Rounding
  import opened Tables
  import opened Inventory
  import opened Customers
  import opened CashDesk

  // ---------- Items ----------

  /** One item of a request. Prices are absent where the request leaves them out. */
  datatype ItemInput = ItemInput(product: Uuid, name: string, quantity: int, unitPrice: Option<int>,
      catalogPrice: Option<int>)

  datatype Aggregate = Aggregate(quantity: int, unitPrice: Option<int>, name: string, catalogPrice: Option<int>)

  predicate ItemAccepted(item: ItemInput, offline: bool) {
    && item.quantity > 0
    && (offline ==> item.unitPrice.Some?)
    && (item.unitPrice.Some? ==> item.unitPrice.value > 0)
    && (item.catalogPrice.Some? ==> item.catalogPrice.value > 0)
  }

  predicate SameTerms(a: ItemInput, b: ItemInput) {
    a.product == b.product ==> a.unitPrice == b.unitPrice && a.catalogPrice == b.catalogPrice
  }

  predicate Acceptable(items: seq<ItemInput>, offline: bool) {
    && (forall i :: 0 <= i < |items| ==> ItemAccepted(items[i], offline))
    && (forall i, j :: 0 <= i < j < |items| ==> SameTerms(items[i], items[j]))
  }

  predicate Aggregable(items: seq<ItemInput>, offline: bool) {
    |items| > 0 && Acceptable(items, offline)
  }

  function QuantityOf(product: Uuid): ItemInput -> int {
    (item: ItemInput) => if item.product == product then item.quantity else 0
  }

  function IsOf(product: Uuid): ItemInput -> bool {
    (item: ItemInput) => item.product == product
  }

  function ProductsOf(items: seq<ItemInput>): (products: set<Uuid>)
    ensures forall i :: 0 <= i < |items| ==> items[i].product in products
    ensures forall p :: p in products ==> FirstWhere(items, IsOf(p)) < |items|
  {
    set i | 0 <= i < |items| :: items[i].product
  }

  /** The totals and terms of one product: quantities added up, terms of its first item. */
  function AggregateOf(items: seq<ItemInput>, product: Uuid): Aggregate
    requires product in ProductsOf(items)
  {
    var first := items[FirstWhere(items, IsOf(product))];
    Aggregate(Sum(items, QuantityOf(product)), first.unitPrice, first.name, first.catalogPrice)
  }

  function Aggregated(items: seq<ItemInput>): map<Uuid, Aggregate> {
    map p | p in ProductsOf(items) :: AggregateOf(items, p)
  }

  lemma {:induction false} AggregateOfPush(items: seq<ItemInput>, item: ItemInput, p: Uuid)
    ensures p in ProductsOf(items + [item]) <==> p in ProductsOf(items) || p == item.product
    ensures p in ProductsOf(items) ==>
              AggregateOf(items + [item], p) ==
              var before := AggregateOf(items, p);
              if p == item.product then before.(quantity := before.quantity + item.quantity) else before
    ensures p == item.product && p !in ProductsOf(items) ==>
              AggregateOf(items + [item], p) == Aggregate(item.quantity, item.unitPrice, item.name, item.catalogPrice)
  {
    var all := items + [item];
    if p in ProductsOf(items) {
      assert all[FirstWhere(items, IsOf(p))].product == p;
    }
    assert all[|items|] == item;
    FirstWherePush(items, item, IsOf(p));
    SumPush(items, item, QuantityOf(p));
    if p !in ProductsOf(items) {
      SumZero(items, QuantityOf(p));
    }
  }

  ghost predicate Summarises(aggregated: map<Uuid, Aggregate>, items: seq<ItemInput>) {
    forall p ::
      && (p in aggregated <==> p in ProductsOf(items))
      && (p in aggregated ==> aggregated[p] == AggregateOf(items, p))
  }

  /** One turn of the aggregation loop. */
  function Merge(aggregated: map<Uuid, Aggregate>, item: ItemInput): map<Uuid, Aggregate> {
    aggregated[item.product :=
      if item.product in aggregated
      then aggregated[item.product].(quantity := aggregated[item.product].quantity + item.quantity)
      else Aggregate(item.quantity, item.unitPrice, item.name, item.catalogPrice)]
  }

  lemma {:induction false} MergeSummarises(aggregated: map<Uuid, Aggregate>, items: seq<ItemInput>, item: ItemInput)
    requires Summarises(aggregated, items)
    ensures Summarises(Merge(aggregated, item), items + [item])
  {
    var after := Merge(aggregated, item);
    forall p
      ensures p in after <==> p in ProductsOf(items + [item])
      ensures p in after ==> after[p] == AggregateOf(items + [item], p)
    {
      AggregateOfPush(items, item, p);
    }
  }

  /** Comparing with the running totals is comparing with every earlier item. */
  lemma {:induction false} AcceptablePush(items: seq<ItemInput>, item: ItemInput, offline: bool)
    requires Acceptable(items, offline)
    ensures Acceptable(items + [item], offline) <==>
              && ItemAccepted(item, offline)
              && (item.product in ProductsOf(items) ==>
                    var existing := AggregateOf(items, item.product);
                    existing.unitPrice == item.unitPrice && existing.catalogPrice == item.catalogPrice)
  {
    var all := items + [item];
    assert all[|items|] == item;
    if item.product in ProductsOf(items) {
      var at := FirstWhere(items, IsOf(item.product));
      assert all[at] == items[at];
      var agreed := items[at].unitPrice == item.unitPrice && items[at].catalogPrice == item.catalogPrice;
      if agreed {
        forall i | 0 <= i < |items| ensures SameTerms(all[i], item) {
          assert i < at ==> SameTerms(items[i], items[at]);
          assert i > at ==> SameTerms(items[at], items[i]);
        }
      } else {
        assert !SameTerms(all[at], all[|items|]);
      }
    }
  }

  predicate Agrees(aggregated: map<Uuid, Aggregate>, item: ItemInput) {
    item.product in aggregated ==>
      aggregated[item.product].unitPrice == item.unitPrice && aggregated[item.product].catalogPrice == item.catalogPrice
  }

  /** `aggregated` summarises the first `k` items, which are acceptable so far. */
  ghost predicate AggregatedTo(aggregated: map<Uuid, Aggregate>, items: seq<ItemInput>, k: nat, offline: bool)
    requires k <= |items|
  {
    Summarises(aggregated, items[..k]) && Acceptable(items[..k], offline)
  }

  lemma {:induction false} AggregateStep(aggregated: map<Uuid, Aggregate>, items: seq<ItemInput>, k: nat, offline: bool)
    requires k < |items| && AggregatedTo(aggregated, items, k, offline)
    ensures if ItemAccepted(items[k], offline) && Agrees(aggregated, items[k])
            then AggregatedTo(Merge(aggregated, items[k]), items, k + 1, offline)
            else !Acceptable(items, offline)
  {
    assert items[..k + 1] == items[..k] + [items[k]];
    MergeSummarises(aggregated, items[..k], items[k]);
    AcceptablePush(items[..k], items[k], offline);
    if Acceptable(items, offline) {
      assert Acceptable(items[..k + 1], offline);
    }
  }

  lemma {:induction false} AggregateDone(aggregated: map<Uuid, Aggregate>, items: seq<ItemInput>, offline: bool)
    requires AggregatedTo(aggregated, items, |items|, offline)
    ensures Acceptable(items, offline) && aggregated == Aggregated(items)
  {
    assert items[..|items|] == items;
  }

  /** The two aggregation loops of the service differ only in the terms they carry. */
  method AggregateItems(items: seq<ItemInput>, offline: bool) returns (r: Result<map<Uuid, Aggregate>, ServiceError>)
    ensures r.Ok? <==> Aggregable(items, offline)
    ensures r.Ok? ==> r.value == Aggregated(items)
    ensures r.Err? ==> r.error == InvalidSaleItems
  {
    if |items| == 0 { return Err(InvalidSaleItems); }
    var aggregated: map<Uuid, Aggregate> := map[];
    for k := 0 to |items|
      invariant AggregatedTo(aggregated, items, k, offline)
    {
      var item := items[k];
      AggregateStep(aggregated, items, k, offline);
      if !ItemAccepted(item, offline) { return Err(InvalidSaleItems); }
      if !Agrees(aggregated, item) { return Err(InvalidSaleItems); }
      aggregated := Merge(aggregated, item);
    }
    AggregateDone(aggregated, items, offline);
    return Ok(aggregated);
  }

  // ---------- Lines ----------

  datatype Line = Line(product: Uuid, name: string, unitPrice: nat, catalogPrice: nat, quantity: Units)

  ghost predicate SoundLines(lines: seq<Line>) {
    && (forall i, j :: 0 <= i < j < |lines| ==> lines[i].product < lines[j].product)
    && (forall i :: 0 <= i < |lines| ==> lines[i].unitPrice > 0)
  }

  /** The first problem met when products are checked in identifier order. */
  function ProductProblem(products: map<Uuid, Product>, items: map<Uuid, Aggregate>, ids: seq<Uuid>,
      offline: bool): Option<ServiceError>
    requires forall id :: id in ids ==> id in items
  {
    if |ids| == 0 then None
    else
      var before := ProductProblem(products, items, ids[..|ids| - 1], offline);
      var id := ids[|ids| - 1];
      if before.Some? then before
      else if id !in products then Some(ProductNotFound)
      else if !offline && !products[id].active then Some(ProductInactive)
      else if products[id].saleUnit.Unit? && items[id].quantity % QUANTITY_SCALE != 0 then Some(InvalidSaleItems)
      else None
  }

  lemma {:induction false} NoProblemMeansKnown(products: map<Uuid, Product>, items: map<Uuid, Aggregate>,
      ids: seq<Uuid>, offline: bool)
    requires forall id :: id in ids ==> id in items
    requires ProductProblem(products, items, ids, offline).None?
    ensures forall id :: id in ids ==> id in products
    ensures forall id :: id in ids && products[id].saleUnit.Unit? ==> items[id].quantity % QUANTITY_SCALE == 0
    ensures !offline ==> forall id :: id in ids ==> products[id].active
  {
    if |ids| > 0 {
      NoProblemMeansKnown(products, items, ids[..|ids| - 1], offline);
      assert ids == ids[..|ids| - 1] + [ids[|ids| - 1]];
    }
  }

  /** The price of the request, else the catalogue's. */
  function UnitPrice(product: Product, item: Aggregate): int {
    if item.unitPrice.Some? then item.unitPrice.value else product.sellingPrice
  }

  /** An offline sale froze its catalogue price; an online sale reads the current one. */
  function CatalogPrice(product: Product, item: Aggregate, offline: bool): int {
    if offline && item.catalogPrice.Some? then item.catalogPrice.value else product.sellingPrice
  }

  function LineName(product: Product, item: Aggregate, offline: bool): string {
    if offline then item.name else product.name
  }

  ghost predicate AggregatesSound(items: map<Uuid, Aggregate>) {
    forall id :: id in items ==>
      && items[id].quantity > 0
      && (items[id].unitPrice.Some? ==> items[id].unitPrice.value > 0)
      && (items[id].catalogPrice.Some? ==> items[id].catalogPrice.value > 0)
  }

  lemma {:induction false} AggregatedSound(items: seq<ItemInput>, offline: bool)
    requires Aggregable(items, offline)
    ensures AggregatesSound(Aggregated(items))
  {
    forall p | p in ProductsOf(items) ensures Sum(items, QuantityOf(p)) > 0 {
      assert forall i :: 0 <= i < |items| ==> ItemAccepted(items[i], offline) && QuantityOf(p)(items[i]) >= 0;
      SumNonneg(items, QuantityOf(p));
      var at := FirstWhere(items, IsOf(p));
      assert QuantityOf(p)(items[at]) == items[at].quantity;
    }
  }

  function LinesOf(products: map<Uuid, Product>, items: map<Uuid, Aggregate>, ids: seq<Uuid>, offline: bool): seq<Line>
    requires forall id :: id in ids ==> id in items && id in products
    requires AggregatesSound(items)
  {
    seq(|ids|, i requires 0 <= i < |ids| =>
      var product, item := products[ids[i]], items[ids[i]];
      Line(ids[i], LineName(product, item, offline), UnitPrice(product, item), CatalogPrice(product, item, offline),
        item.quantity))
  }

  predicate AllPriced(products: map<Uuid, Product>, items: map<Uuid, Aggregate>, ids: seq<Uuid>)
    requires forall id :: id in ids ==> id in items && id in products
  {
    forall i :: 0 <= i < |ids| ==> UnitPrice(products[ids[i]], items[ids[i]]) > 0
  }

  function ResolveLines(products: map<Uuid, Product>, items: map<Uuid, Aggregate>,
      offline: bool): (r: Result<seq<Line>, ServiceError>)
    requires AggregatesSound(items)
    ensures r.Ok? ==> SoundLines(r.value)
  {
    var ids := Sorted(items.Keys);
    var problem := ProductProblem(products, items, ids, offline);
    if problem.Some? then Err(problem.value)
    else
      NoProblemMeansKnown(products, items, ids, offline);
      if AllPriced(products, items, ids) then Ok(LinesOf(products, items, ids, offline)) else Err(InvalidSaleItems)
  }

  // ---------- Payments ----------

  datatype Leg = Leg(paidBy: PaymentMethod, amount: int, received: Option<int>)

  predicate LegAccepted(leg: Leg) {
    leg.amount > 0 && TenderAccepted(leg.paidBy, leg.amount, leg.received)
  }

  function LegAmounts(): Leg -> int {
    (leg: Leg) => leg.amount
  }

  function PaymentOf(leg: Leg): Payment {
    Payment(leg.paidBy, leg.amount, leg.received, ChangeDue(leg.paidBy, leg.amount, leg.received))
  }

  function PaymentsOf(legs: seq<Leg>): seq<Payment> {
    seq(|legs|, i requires 0 <= i < |legs| => PaymentOf(legs[i]))
  }

  predicate GivesChange(leg: Leg) {
    leg.paidBy.Cash? && leg.received.Some? && leg.received.value != leg.amount
  }

  /** The zero-tolerance rule: payments plus credit are exactly the total, every leg
      is acceptable, and no change is given on a sale put on the book. */
  predicate Settles(total: int, legs: seq<Leg>, credit: int) {
    && credit <= total
    && (|legs| > 0 || credit != 0)
    && (forall leg :: leg in legs ==> LegAccepted(leg))
    && Sum(legs, LegAmounts()) + credit == total
    && (credit != 0 ==> forall leg :: leg in legs ==> !GivesChange(leg))
  }

  method ValidatePayments(total: int, legs: seq<Leg>, credit: int) returns (r: Result<seq<Payment>, ServiceError>)
    ensures r.Ok? <==> Settles(total, legs, credit)
    ensures r.Ok? ==> r.value == PaymentsOf(legs)
    ensures r.Err? ==> r.error == InvalidPayment
  {
    if credit > total { return Err(InvalidPayment); }
    if |legs| == 0 && credit == 0 { return Err(InvalidPayment); }
    var validated: seq<Payment> := [];
    var covered := 0;
    var anyChange := false;
    for k := 0 to |legs|
      invariant |validated| == k && forall i :: 0 <= i < k ==>
                  validated[i] == PaymentOf(legs[i]) && LegAccepted(legs[i])
      invariant covered == Sum(legs[..k], LegAmounts())
      invariant anyChange <==> exists i :: 0 <= i < k && GivesChange(legs[i])
    {
      var leg := legs[k];
      assert legs[..k + 1] == legs[..k] + [leg];
      SumPush(legs[..k], leg, LegAmounts());
      assert leg in legs;
      if leg.amount <= 0 { return Err(InvalidPayment); }
      if !TenderAccepted(leg.paidBy, leg.amount, leg.received) { return Err(InvalidPayment); }
      var payment := PaymentOf(leg);
      validated := validated + [payment];
      covered := covered + leg.amount;
      if payment.change.Some? && payment.change.value != 0 { anyChange := true; }
    }
    assert legs[..|legs|] == legs;
    if covered + credit != total { return Err(InvalidPayment); }
    if credit != 0 && anyChange { return Err(InvalidPayment); }
    return Ok(validated);
  }

  lemma {:induction false} SumOfPayments(legs: seq<Leg>)
    ensures Sum(PaymentsOf(legs), Amounts()) == Sum(legs, LegAmounts())
  {
    if |legs| > 0 {
      var front := legs[..|legs| - 1];
      SumOfPayments(front);
      assert PaymentsOf(legs)[..|legs| - 1] == PaymentsOf(front);
    }
  }

  // ---------- The customer of a credit sale ----------

  function CreditCustomer(customers: map<Uuid, Customer>, customer: Option<Uuid>, store: Uuid, credit: int,
      acceptInactive: bool): Option<ServiceError> {
    if customer.None? then (if credit > 0 then Some(InvalidPayment) else None)
    else if customer.value !in customers || customers[customer.value].store != store then Some(CustomerNotFound)
    else if !customers[customer.value].active && !acceptInactive then Some(InvalidPayment)
    else None
  }

  // ---------- Writing the sale ----------

  /** Unit costs are frozen from the stock rows at the moment of the sale. */
  function FrozenItems(rows: map<StockKey, StockRow>, store: Uuid, lines: seq<Line>): seq<SaleItem> {
    seq(|lines|, i requires 0 <= i < |lines| =>
      SaleItem(lines[i].product, lines[i].name, lines[i].catalogPrice, lines[i].unitPrice, lines[i].quantity,
               LineCents(lines[i].unitPrice, lines[i].quantity), RowAt(rows, StockKey(store, lines[i].product)).cost))
  }

  function SaleMoves(store: Uuid, items: seq<SaleItem>, sale: Uuid): (ms: seq<Movement>)
    ensures forall m :: m in ms ==> WellFormed(m) && m.kind.SaleOut?
  {
    seq(|items|, i requires 0 <= i < |items| =>
      Movement(StockKey(store, items[i].product), SaleOut, 0 - items[i].quantity, items[i].unitCost, Some(sale)))
  }

  function CancelMoves(store: Uuid, items: seq<SaleItem>, sale: Uuid): (ms: seq<Movement>)
    ensures forall m :: m in ms ==> WellFormed(m) && m.kind.Cancellation?
  {
    seq(|items|, i requires 0 <= i < |items| =>
      Movement(StockKey(store, items[i].product), Cancellation, items[i].quantity, items[i].unitCost, Some(sale)))
  }

  /** The stock cannot cover every line. */
  predicate Short(rows: map<StockKey, StockRow>, store: Uuid, lines: seq<Line>) {
    exists i :: 0 <= i < |lines| && RowAt(rows, StockKey(store, lines[i].product)).quantity < lines[i].quantity
  }

  datatype SaleTerms = SaleTerms(
    id: Uuid, session: Uuid, legs: seq<Leg>, customer: Option<Uuid>, credit: int, at: Instant)

  function SaleRow(rows: map<StockKey, StockRow>, store: Uuid, t: SaleTerms, lines: seq<Line>): Sale
    requires t.credit >= 0
  {
    var items := FrozenItems(rows, store, lines);
    Sale(t.id, t.session, items, PaymentsOf(t.legs), Sum(items, LineTotals()), t.customer, t.credit, false, t.at)
  }

  function CreditEntries(t: SaleTerms): seq<Entry>
    requires t.credit > 0 ==> t.customer.Some?
  {
    if t.credit > 0 then [Entry(t.customer.value, CreditSale(t.id), t.credit)] else []
  }

  function CommitSale(db: Db, t: SaleTerms, store: Uuid, sale: Sale): Db
    requires t.credit > 0 ==> t.customer.Some?
  {
    db.(sales := db.sales + [sale],
        entries := db.entries + CreditEntries(t),
        book := PostAll(db.book, SaleMoves(store, sale.items, t.id)))
  }

  function ExecuteSaleSpec(db: Db, t: SaleTerms, lines: seq<Line>, allowNegative: bool)
      : Result<(Db, Sale, bool), ServiceError>
    requires t.session in db.sessions
  {
    var store := db.sessions[t.session].store;
    if t.credit < 0 then Err(InvalidPayment)
    else
      var problem := CreditCustomer(db.customers, t.customer, store, t.credit, allowNegative);
      var short := Short(db.book.rows, store, lines);
      var sale := SaleRow(db.book.rows, store, t, lines);
      if problem.Some? then Err(problem.value)
      else if short && !allowNegative then Err(InsufficientStock)
      else if !Settles(sale.total, t.legs, t.credit) then Err(InvalidPayment)
      else if FindSale(db.sales, t.id) < |db.sales| then Err(IntegrityError)
      else Ok((CommitSale(db, t, store, sale), sale, short))
  }

  lemma {:induction false} SaleMovesDistinct(rows: map<StockKey, StockRow>, store: Uuid, lines: seq<Line>, sale: Uuid)
    requires SoundLines(lines)
    ensures DistinctKeys(SaleMoves(store, FrozenItems(rows, store, lines), sale))
  {
  }

  /** A table that holds every touched key and agrees with the batch on every row is
      the table after the batch. */
  lemma {:induction false} RowsAfter(book: StockBook, ms: seq<Movement>, rows: map<StockKey, StockRow>)
    requires forall m :: m in ms ==> WellFormed(m)
    requires rows.Keys == book.rows.Keys + set i | 0 <= i < |ms| :: ms[i].key
    requires forall key :: RowAt(rows, key) == RowAt(PostAll(book, ms).rows, key)
    ensures PostAll(book, ms).rows == rows
  {
    var after := PostAll(book, ms).rows;
    forall key ensures key in after <==> key in rows {
      PostAllQuantities(book, ms, key);
    }
    forall key | key in after ensures after[key] == rows[key] {
      assert RowAt(rows, key) == RowAt(after, key);
    }
  }

  /** Opens a row for every product never stocked, and compares stock with demand. */
  method CheckAvailability(rows: map<StockKey, StockRow>, store: Uuid, lines: seq<Line>, allowNegative: bool)
    returns (stocks: map<StockKey, StockRow>, discrepancy: bool, refused: bool)
    ensures refused <==> Short(rows, store, lines) && !allowNegative
    ensures !refused ==> discrepancy == Short(rows, store, lines)
    ensures !refused ==> stocks.Keys == rows.Keys + set i | 0 <= i < |lines| :: StockKey(store, lines[i].product)
    ensures !refused ==> forall key :: RowAt(stocks, key) == RowAt(rows, key)
  {
    stocks, discrepancy, refused := rows, false, false;
    for k := 0 to |lines|
      invariant !refused
      invariant stocks.Keys == rows.Keys + set i | 0 <= i < k :: StockKey(store, lines[i].product)
      invariant forall key :: RowAt(stocks, key) == RowAt(rows, key)
      invariant discrepancy <==>
                  exists i :: 0 <= i < k && RowAt(rows, StockKey(store, lines[i].product)).quantity < lines[i].quantity
      invariant discrepancy ==> allowNegative
    {
      var key := StockKey(store, lines[k].product);
      if key !in stocks {
        stocks := stocks[key := NO_STOCK];
      }
      assert stocks[key] == RowAt(rows, key);
      if stocks[key].quantity < lines[k].quantity {
        if !allowNegative { refused := true; return; }
        discrepancy := true;
      }
    }
  }

  method FreezeItems(stocks: map<StockKey, StockRow>, store: Uuid, lines: seq<Line>)
      returns (items: seq<SaleItem>, total: int)
    ensures items == FrozenItems(stocks, store, lines)
    ensures total == Sum(items, LineTotals())
  {
    items, total := [], 0;
    for k := 0 to |lines|
      invariant items == FrozenItems(stocks, store, lines)[..k]
      invariant total == Sum(items, LineTotals())
    {
      var line := lines[k];
      var lineTotal := LineCents(line.unitPrice, line.quantity);
      var item := SaleItem(line.product, line.name, line.catalogPrice, line.unitPrice, line.quantity, lineTotal,
                           RowAt(stocks, StockKey(store, line.product)).cost);
      SumPush(items, item, LineTotals());
      items := items + [item];
      total := total + lineTotal;
    }
  }

  method TakeFromStock(book: StockBook, created: map<StockKey, StockRow>, store: Uuid, items: seq<SaleItem>, sale: Uuid)
    returns (stocks: map<StockKey, StockRow>)
    requires created.Keys == book.rows.Keys + set i | 0 <= i < |items| :: StockKey(store, items[i].product)
    requires forall key :: RowAt(created, key) == RowAt(book.rows, key)
    ensures stocks == PostAll(book, SaleMoves(store, items, sale)).rows
  {
    ghost var moves := SaleMoves(store, items, sale);
    stocks := created;
    for k := 0 to |items|
      invariant stocks.Keys == created.Keys
      invariant forall key :: RowAt(stocks, key) == RowAt(PostAll(book, moves[..k]).rows, key)
    {
      var key := StockKey(store, items[k].product);
      assert moves[..k + 1] == moves[..k] + [moves[k]];
      PostAllPush(book, moves[..k], moves[k]);
      assert moves[k] == Movement(key, SaleOut, 0 - items[k].quantity, items[k].unitCost, Some(sale));
      ghost var before := PostAll(book, moves[..k]).rows;
      assert stocks[key] == RowAt(before, key);
      stocks := stocks[key := stocks[key].(quantity := stocks[key].quantity - items[k].quantity)];
      assert PostAll(book, moves[..k + 1]).rows == before[key := stocks[key]];
      forall other ensures RowAt(stocks, other) == RowAt(before[key := stocks[key]], other) {
        if other != key { assert RowAt(stocks, other) == RowAt(before, other); }
      }
    }
    assert moves[..|items|] == moves;
    assert forall i :: 0 <= i < |items| ==> moves[i].key == StockKey(store, items[i].product);
    RowsAfter(book, moves, stocks);
  }

  method PrepareSale(db: Database, t: SaleTerms, lines: seq<Line>, allowNegative: bool)
    returns (r: Result<(Sale, bool), ServiceError>, created: map<StockKey, StockRow>)
    requires t.session in db.sessions
    ensures r.Ok? <==> ExecuteSaleSpec(db.Rows(), t, lines, allowNegative).Ok?
    ensures r.Ok? ==> (r.value.0, r.value.1) ==
                      (ExecuteSaleSpec(db.Rows(), t, lines, allowNegative).value.1,
                        ExecuteSaleSpec(db.Rows(), t, lines, allowNegative).value.2)
    ensures r.Ok? ==>
              created.Keys == db.stocks.Keys + set i | 0 <= i < |lines| ::
                StockKey(db.sessions[t.session].store, lines[i].product)
    ensures r.Ok? ==> forall key :: RowAt(created, key) == RowAt(db.stocks, key)
    ensures r.Err? ==> ExecuteSaleSpec(db.Rows(), t, lines, allowNegative) == Err(r.error)
  {
    created := map[];
    if t.credit < 0 { return Err(InvalidPayment), created; }
    var store := db.sessions[t.session].store;
    var problem := CreditCustomer(db.customers, t.customer, store, t.credit, allowNegative);
    if problem.Some? { return Err(problem.value), created; }

    var stocks, discrepancy, refused := CheckAvailability(db.stocks, store, lines, allowNegative);
    if refused { return Err(InsufficientStock), created; }

    var items, total := FreezeItems(stocks, store, lines);
    assert items == FrozenItems(db.stocks, store, lines);
    var payments := ValidatePayments(total, t.legs, t.credit);
    if payments.Err? { return Err(payments.error), created; }
    if FindSale(db.sales, t.id) < |db.sales| { return Err(IntegrityError), created; }

    var sale := Sale(t.id, t.session, items, payments.value, total, t.customer, t.credit, false, t.at);
    return Ok((sale, discrepancy)), stocks;
  }

  method WriteSale(db: Database, t: SaleTerms, store: Uuid, sale: Sale, created: map<StockKey, StockRow>)
    requires t.credit > 0 ==> t.customer.Some?
    requires created.Keys == db.stocks.Keys + set i | 0 <= i < |sale.items| :: StockKey(store, sale.items[i].product)
    requires forall key :: RowAt(created, key) == RowAt(db.stocks, key)
    modifies db
    ensures db.Rows() == CommitSale(old(db.Rows()), t, store, sale)
  {
    db.sales := db.sales + [sale];
    if t.credit > 0 {
      db.entries := db.entries + [Entry(t.customer.value, CreditSale(t.id), t.credit)];
    }
    ghost var book := db.Rows().book;
    var stocks := TakeFromStock(StockBook(db.stocks, db.movements, db.costChanges), created, store, sale.items, t.id);
    PostAllQuantities(book, SaleMoves(store, sale.items, t.id), StockKey(store, 0));
    db.stocks := stocks;
    db.movements := db.movements + SaleMoves(store, sale.items, t.id);
  }

  method ExecuteSale(db: Database, t: SaleTerms, lines: seq<Line>, allowNegative: bool)
    returns (r: Result<(Sale, bool), ServiceError>)
    requires t.session in db.sessions
    requires SoundLines(lines)
    modifies db
    ensures r.Ok? <==> ExecuteSaleSpec(old(db.Rows()), t, lines, allowNegative).Ok?
    ensures r.Ok? ==>
              (db.Rows(), r.value.0, r.value.1) == ExecuteSaleSpec(old(db.Rows()), t, lines, allowNegative).value
    ensures r.Err? ==>
              db.Rows() == old(db.Rows()) && ExecuteSaleSpec(db.Rows(), t, lines, allowNegative) == Err(r.error)
  {
    var created;
    r, created := PrepareSale(db, t, lines, allowNegative);
    if r.Ok? {
      var store := db.sessions[t.session].store;
      assert forall i :: 0 <= i < |lines| ==> r.value.0.items[i].product == lines[i].product;
      WriteSale(db, t, store, r.value.0, created);
    }
  }

  // ---------- Completing a sale ----------

  /** An online sale needs an open session; one replayed from a till may also reach
      a session closed since, if it happened before the closing. */
  predicate SessionAccepts(session: Session, at: Instant, offline: bool) {
    session.status.Open? || (offline && at <= session.status.closedAt)
  }

  method CheckProducts(products: map<Uuid, Product>, items: map<Uuid, Aggregate>, ids: seq<Uuid>, offline: bool)
    returns (problem: Option<ServiceError>)
    requires forall id :: id in ids ==> id in items
    ensures problem == ProductProblem(products, items, ids, offline)
  {
    for k := 0 to |ids|
      invariant ProductProblem(products, items, ids[..k], offline).None?
    {
      var id := ids[k];
      assert ids[..k + 1][..k] == ids[..k];
      assert ProductProblem(products, items, ids[..k + 1], offline).Some? ==>
               ProductProblem(products, items, ids, offline) ==
                 ProductProblem(products, items, ids[..k + 1], offline) by {
        ProblemStays(products, items, ids, k + 1, offline);
      }
      if id !in products { return Some(ProductNotFound); }
      if !offline && !products[id].active { return Some(ProductInactive); }
      if products[id].saleUnit.Unit? && items[id].quantity % QUANTITY_SCALE != 0 { return Some(InvalidSaleItems); }
    }
    assert ids[..|ids|] == ids;
    return None;
  }

  lemma {:induction false} ProblemStays(products: map<Uuid, Product>, items: map<Uuid, Aggregate>, ids: seq<Uuid>,
      k: nat, offline: bool)
    requires k <= |ids| && forall id :: id in ids ==> id in items
    ensures ProductProblem(products, items, ids[..k], offline).Some? ==>
              ProductProblem(products, items, ids, offline) == ProductProblem(products, items, ids[..k], offline)
    decreases |ids|
  {
    if k < |ids| {
      ProblemStays(products, items, ids[..|ids| - 1], k, offline);
      assert ids[..|ids| - 1][..k] == ids[..k];
    } else {
      assert ids[..k] == ids;
    }
  }

  /** The lines of a request, or the reason it is refused before its stock is looked at. */
  function RequestLines(db: Db, items: seq<ItemInput>, t: SaleTerms,
      offline: bool): (r: Result<seq<Line>, ServiceError>)
    ensures r.Ok? ==>
              SoundLines(r.value) && t.session in db.sessions && SessionAccepts(db.sessions[t.session], t.at, offline)
  {
    if !Aggregable(items, offline) then Err(InvalidSaleItems)
    else if t.session !in db.sessions then Err(NotFound)
    else if !SessionAccepts(db.sessions[t.session], t.at, offline) then Err(CashSessionClosed)
    else
      AggregatedSound(items, offline);
      ResolveLines(db.products, Aggregated(items), offline)
  }

  function CompleteSpec(db: Db, items: seq<ItemInput>, t: SaleTerms, offline: bool)
      : Result<(Db, Sale, bool), ServiceError> {
    var lines := RequestLines(db, items, t, offline);
    if lines.Err? then Err(lines.error) else ExecuteSaleSpec(db, t, lines.value, offline)
  }

  method PrepareLines(db: Database, items: seq<ItemInput>, t: SaleTerms, offline: bool)
      returns (r: Result<seq<Line>, ServiceError>)
    ensures r == RequestLines(db.Rows(), items, t, offline)
  {
    var aggregated := AggregateItems(items, offline);
    if aggregated.Err? { return Err(aggregated.error); }
    if t.session !in db.sessions { return Err(NotFound); }
    if !SessionAccepts(db.sessions[t.session], t.at, offline) { return Err(CashSessionClosed); }
    AggregatedSound(items, offline);
    var ids := Sorted(aggregated.value.Keys);
    var problem := CheckProducts(db.products, aggregated.value, ids, offline);
    if problem.Some? { return Err(problem.value); }
    NoProblemMeansKnown(db.products, aggregated.value, ids, offline);
    if !AllPriced(db.products, aggregated.value, ids) { return Err(InvalidSaleItems); }
    return Ok(LinesOf(db.products, aggregated.value, ids, offline));
  }

  method Complete(db: Database, items: seq<ItemInput>, t: SaleTerms, offline: bool)
      returns (r: Result<(Sale, bool), ServiceError>)
    modifies db
    ensures r.Ok? <==> CompleteSpec(old(db.Rows()), items, t, offline).Ok?
    ensures r.Ok? ==> (db.Rows(), r.value.0, r.value.1) == CompleteSpec(old(db.Rows()), items, t, offline).value
    ensures r.Err? ==> db.Rows() == old(db.Rows()) && CompleteSpec(db.Rows(), items, t, offline) == Err(r.error)
  {
    var lines := PrepareLines(db, items, t, offline);
    if lines.Err? { return Err(lines.error); }
    r := ExecuteSale(db, t, lines.value, offline);
  }

  // ---------- What a completed sale guarantees ----------

  lemma {:induction false} SaleRowSound(rows: map<StockKey, StockRow>, store: Uuid, t: SaleTerms, lines: seq<Line>)
    requires SoundLines(lines)
    requires t.credit >= 0 && (t.credit > 0 ==> t.customer.Some?)
    requires Settles(SaleRow(rows, store, t, lines).total, t.legs, t.credit)
    ensures SaleSound(SaleRow(rows, store, t, lines))
    ensures SaleRow(rows, store, t, lines).total > 0
  {
    SumOfPayments(t.legs);
    forall p | p in PaymentsOf(t.legs) ensures p.amount > 0 {
      var i :| 0 <= i < |t.legs| && p == PaymentOf(t.legs[i]);
      assert t.legs[i] in t.legs;
    }
    if |t.legs| > 0 {
      forall i | 0 <= i < |t.legs| ensures LegAmounts()(t.legs[i]) > 0 { assert t.legs[i] in t.legs; }
      SumNonneg(t.legs, LegAmounts());
      assert LegAmounts()(t.legs[0]) <= Sum(t.legs, LegAmounts());
    }
  }

  /** After any accepted sale, each line's product holds exactly what it held minus the
      line; online nothing goes below zero, and offline the discrepancy flag is raised
      exactly when some product sold is left negative. */
  lemma {:induction false} StockAfterSale(db: Db, t: SaleTerms, lines: seq<Line>, allowNegative: bool)
    requires t.session in db.sessions && SoundLines(lines)
    requires ExecuteSaleSpec(db, t, lines, allowNegative).Ok?
    ensures var (after, sale, discrepancy) := ExecuteSaleSpec(db, t, lines, allowNegative).value;
            var store := db.sessions[t.session].store;
            && (forall i :: 0 <= i < |lines| ==>
                  RowAt(after.book.rows, StockKey(store, lines[i].product)).quantity ==
                  RowAt(db.book.rows, StockKey(store, lines[i].product)).quantity - lines[i].quantity)
            && (discrepancy <==>
              exists i :: 0 <= i < |lines| && RowAt(after.book.rows, StockKey(store, lines[i].product)).quantity < 0)
            && (!allowNegative ==> !discrepancy)
  {
    var (after, sale, discrepancy) := ExecuteSaleSpec(db, t, lines, allowNegative).value;
    var store := db.sessions[t.session].store;
    var moves := SaleMoves(store, sale.items, t.id);
    SaleMovesDistinct(db.book.rows, store, lines, t.id);
    forall i | 0 <= i < |lines|
      ensures RowAt(after.book.rows, StockKey(store, lines[i].product)).quantity ==
              RowAt(db.book.rows, StockKey(store, lines[i].product)).quantity - lines[i].quantity
    {
      assert moves[i].key == StockKey(store, lines[i].product);
      PostAllOnce(db.book, moves, i);
    }
  }

  // ---------- Cancelling ----------

  predicate HasReturns(saleReturns: seq<SaleReturn>, sale: Uuid) {
    exists r :: r in saleReturns && r.sale == sale
  }

  function CreditEntryAt(entries: seq<Entry>, sale: Uuid): (at: nat)
    ensures at <= |entries|
    ensures at < |entries| ==> entries[at].kind == CreditSale(sale)
    ensures forall i :: 0 <= i < at ==> entries[i].kind != CreditSale(sale)
  {
    FirstWhere(entries, (e: Entry) => e.kind == CreditSale(sale))
  }

  function CancelledEntries(entries: seq<Entry>, sale: Sale): Result<seq<Entry>, ServiceError> {
    if sale.credit == 0 then Ok(entries)
    else
      var at := CreditEntryAt(entries, sale.id);
      if at == |entries| then Err(NotFound)
      else
        var reversed := ReverseSpec(entries, at, true);
        if reversed == Err(NegativeCustomerBalance) then Err(InvalidCancellation) else reversed
  }

  /** The sale's own cashier may cancel while the session is open; staff always may. */
  predicate MayCancel(session: Session, user: User) {
    user.staff || (session.cashier == user.id && session.status.Open?)
  }

  function CancelSaleSpec(db: Db, id: Uuid, user: User): Result<Db, ServiceError> {
    var at := FindSale(db.sales, id);
    if at == |db.sales| then Err(NotFound)
    else
      var sale := db.sales[at];
      if sale.session !in db.sessions then Err(NotFound)
      else if sale.cancelled || HasReturns(db.saleReturns, id) || !MayCancel(db.sessions[sale.session], user)
        then Err(InvalidCancellation)
      else
        var entries := CancelledEntries(db.entries, sale);
        if entries.Err? then Err(entries.error)
        else Ok(db.(
          entries := entries.value,
          book := PostAll(db.book, CancelMoves(db.sessions[sale.session].store, sale.items, id)),
          sales := db.sales[at := sale.(cancelled := true)]))
  }

  /** The debt of a cancelled sale disappears by a reversal, never by editing its entry. */
  method ReverseSaleCredit(db: Database, sale: Sale) returns (r: Result<(), ServiceError>)
    modifies db`entries
    ensures r.Ok? ==> CancelledEntries(old(db.entries), sale) == Ok(db.entries)
    ensures r.Err? ==> db.entries == old(db.entries) && CancelledEntries(db.entries, sale) == Err(r.error)
  {
    if sale.credit != 0 {
      var entry := CreditEntryAt(db.entries, sale.id);
      if entry == |db.entries| { return Err(NotFound); }
      var reversed := ReverseLedgerEntry(db, entry, true);
      if reversed.Err? {
        if reversed.error.NegativeCustomerBalance? { return Err(InvalidCancellation); }
        return Err(reversed.error);
      }
    }
    return Ok(());
  }

  method CancelSale(db: Database, id: Uuid, user: User) returns (r: Result<Sale, ServiceError>)
    modifies db
    ensures r.Ok? <==> CancelSaleSpec(old(db.Rows()), id, user).Ok?
    ensures r.Ok? ==> db.Rows() == CancelSaleSpec(old(db.Rows()), id, user).value
    ensures r.Err? ==> db.Rows() == old(db.Rows()) && CancelSaleSpec(db.Rows(), id, user) == Err(r.error)
  {
    var at := FindSale(db.sales, id);
    if at == |db.sales| { return Err(NotFound); }
    var sale := db.sales[at];
    if sale.session !in db.sessions { return Err(NotFound); }
    if sale.cancelled { return Err(InvalidCancellation); }
    if HasReturns(db.saleReturns, id) { return Err(InvalidCancellation); }
    if !MayCancel(db.sessions[sale.session], user) { return Err(InvalidCancellation); }
    var reversed := ReverseSaleCredit(db, sale);
    if reversed.Err? { return Err(reversed.error); }
    var store := db.sessions[sale.session].store;
    var stocks, movements := GiveBack(StockBook(db.stocks, db.movements, db.costChanges), store, sale.items, id);
    db.stocks, db.movements := stocks, movements;
    sale := sale.(cancelled := true);
    db.sales := db.sales[at := sale];
    return Ok(sale);
  }

  /** Units come back at the cost they left at, frozen on the sale. */
  method GiveBack(book: StockBook, store: Uuid, items: seq<SaleItem>, sale: Uuid)
    returns (stocks: map<StockKey, StockRow>, movements: seq<Movement>)
    ensures StockBook(stocks, movements, book.changes) == PostAll(book, CancelMoves(store, items, sale))
  {
    ghost var moves := CancelMoves(store, items, sale);
    stocks, movements := book.rows, book.movements;
    for k := 0 to |items|
      invariant StockBook(stocks, movements, book.changes) == PostAll(book, moves[..k])
    {
      var item := items[k];
      var key := StockKey(store, item.product);
      assert moves[..k + 1] == moves[..k] + [moves[k]];
      PostAllPush(book, moves[..k], moves[k]);
      var stock := RowAt(stocks, key);
      stock := stock.(cost := WeightedAverageCost(stock.quantity, stock.cost, item.quantity, item.unitCost));
      stock := stock.(quantity := stock.quantity + item.quantity);
      stocks := stocks[key := stock];
      movements := movements + [Movement(key, Cancellation, item.quantity, item.unitCost, Some(sale))];
    }
    assert moves[..|items|] == moves;
  }

  lemma {:induction false} GiveBackUndoes(book: StockBook, store: Uuid, items: seq<SaleItem>, sale: Uuid, key: StockKey)
    requires DistinctKeys(SaleMoves(store, items, sale))
    requires forall i :: 0 <= i < |items| ==>
               items[i].unitCost == RowAt(book.rows, StockKey(store, items[i].product)).cost
    ensures var sold := PostAll(book, SaleMoves(store, items, sale));
            RowAt(PostAll(sold, CancelMoves(store, items, sale)).rows, key) == RowAt(book.rows, key)
  {
    var out, back := SaleMoves(store, items, sale), CancelMoves(store, items, sale);
    var sold := PostAll(book, out);
    assert forall i :: 0 <= i < |items| ==> back[i].key == out[i].key;
    if i :| 0 <= i < |out| && out[i].key == key {
      PostAllOnce(book, out, i);
      PostAllOnce(sold, back, i);
      TakeAndGiveBack(RowAt(book.rows, key), out[i], back[i]);
    } else {
      PostAllOnce(book, out, 0);
      PostAllOnce(sold, back, 0);
    }
  }

  /** A sale cancelled at once leaves every stock quantity and average cost as they
      were before it, including when it had emptied the stock or gone below zero. */
  lemma {:induction false} CancelUndoesSale(db: Db, t: SaleTerms, lines: seq<Line>, allowNegative: bool, user: User)
    requires t.session in db.sessions && SoundLines(lines)
    requires ExecuteSaleSpec(db, t, lines, allowNegative).Ok?
    requires CancelSaleSpec(ExecuteSaleSpec(db, t, lines, allowNegative).value.0, t.id, user).Ok?
    ensures var undone := CancelSaleSpec(ExecuteSaleSpec(db, t, lines, allowNegative).value.0, t.id, user).value;
            forall key :: RowAt(undone.book.rows, key) == RowAt(db.book.rows, key)
  {
    var (sold, sale, _) := ExecuteSaleSpec(db, t, lines, allowNegative).value;
    var store := db.sessions[t.session].store;
    assert FindSale(sold.sales, t.id) == |db.sales|;
    SaleMovesDistinct(db.book.rows, store, lines, t.id);
    forall key ensures RowAt(PostAll(sold.book, CancelMoves(store, sale.items, t.id)).rows, key) ==
      RowAt(db.book.rows, key) {
      GiveBackUndoes(db.book, store, sale.items, t.id, key);
    }
  }
}
