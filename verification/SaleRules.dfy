/** When a sale is booked, online or replayed, read off the request and the tables; and what
    its lines are. */
module SaleRules {
  import opened Sums
  import opened Rounding
  import opened Tables
  import opened Inventory
  import opened Sales
  import opened Sync

  // ---------- The request ----------

  function AskedOf(product: Uuid): ItemInput -> int {
    (item: ItemInput) => if item.product == product then item.quantity else 0
  }

  /** All that the request asks for of one product. */
  function Asked(items: seq<ItemInput>, product: Uuid): int {
    Sum(items, AskedOf(product))
  }

  function PriceOf(products: map<Uuid, Product>, item: ItemInput): int {
    match item.unitPrice
    case Some(price) => price
    case None => if item.product in products then products[item.product].sellingPrice else 0
  }

  /** One item, by itself. */
  predicate ItemFits(products: map<Uuid, Product>, item: ItemInput, offline: bool) {
    && item.quantity > 0 && item.product in products && PriceOf(products, item) > 0
    && (item.catalogPrice.Some? ==> item.catalogPrice.value > 0)
    && if offline then item.unitPrice.Some? else products[item.product].active
  }

  /** Every item fits, products sold by the unit come in whole numbers, and the items of one
      product agree on their prices. */
  predicate ItemsFit(products: map<Uuid, Product>, items: seq<ItemInput>, offline: bool) {
    && items != []
    && (forall i :: 0 <= i < |items| ==> ItemFits(products, items[i], offline))
    && (forall i :: 0 <= i < |items| && products[items[i].product].saleUnit == Unit ==>
          Asked(items, items[i].product) % 1000 == 0)
    && (forall i, j :: 0 <= i < j < |items| && items[i].product == items[j].product ==>
          items[i].unitPrice == items[j].unitPrice && items[i].catalogPrice == items[j].catalogPrice)
  }

  predicate SessionFits(db: Db, session: Uuid, at: Instant, offline: bool) {
    session in db.sessions &&
    match db.sessions[session].status
    case Open => true
    case Closed(_, _, _, closedAt) => offline && at <= closedAt
  }

  predicate CustomerFits(db: Db, t: SaleTerms, offline: bool)
    requires t.session in db.sessions
  {
    match t.customer
    case None => t.credit == 0
    case Some(c) =>
      t.credit >= 0 && c in db.customers && db.customers[c].store == db.sessions[t.session].store
      && (db.customers[c].active || offline)
  }

  // ---------- The money ----------

  /** The price of all that is asked for of one product, to the cent. */
  function CostOf(products: map<Uuid, Product>, items: seq<ItemInput>): Uuid -> int {
    (p: Uuid) =>
      var at := FirstWhere(items, IsOf(p));
      if at < |items| && PriceOf(products, items[at]) >= 0 && Asked(items, p) >= 0
      then HalfUp(PriceOf(products, items[at]) * Asked(items, p), QUANTITY_SCALE) else 0
  }

  /** Each product is rounded once, whatever its items. */
  function TotalOf(products: map<Uuid, Product>, items: seq<ItemInput>): int {
    Sum(Sorted(ProductsIn(items)), CostOf(products, items))
  }

  predicate LegFits(leg: Leg, credit: int) {
    leg.amount > 0 &&
    match (leg.paidBy, leg.received)
    case (Cash, Some(received)) => received >= leg.amount && (credit > 0 ==> received == leg.amount)
    case (Cash, None) => false
    case (_, received) => received == None
  }

  /** Legs and credit are the total to the cent; no change is given on a credit sale. */
  predicate MoneyFits(t: SaleTerms, total: int) {
    && Sum(t.legs, LegAmounts()) + t.credit == total
    && (t.legs != [] || t.credit > 0)
    && forall i :: 0 <= i < |t.legs| ==> LegFits(t.legs[i], t.credit)
  }

  predicate StockFits(db: Db, store: Uuid, items: seq<ItemInput>) {
    forall i :: 0 <= i < |items| ==>
      Asked(items, items[i].product) <= RowAt(db.book.rows, StockKey(store, items[i].product)).quantity
  }

  // ---------- Booked if and only if ----------

  lemma {:induction false} SameAsked(items: seq<ItemInput>, p: Uuid)
    ensures Asked(items, p) == Sum(items, QuantityOf(p))
  {
    SumPointwise(items, items, AskedOf(p), QuantityOf(p));
  }

  lemma {:induction false} ProblemIff(products: map<Uuid, Product>, aggregates: map<Uuid, Aggregate>, ids: seq<Uuid>,
      offline: bool)
    requires forall id :: id in ids ==> id in aggregates
    ensures ProductProblem(products, aggregates, ids, offline).None? <==>
              forall i :: 0 <= i < |ids| ==>
                && ids[i] in products && (offline || products[ids[i]].active)
                && (products[ids[i]].saleUnit == Unit ==> aggregates[ids[i]].quantity % 1000 == 0)
  {
    if |ids| > 0 {
      var front := ids[..|ids| - 1];
      assert forall i :: 0 <= i < |front| ==> front[i] == ids[i];
      ProblemIff(products, aggregates, front, offline);
    }
  }

  /** What the request must satisfy whatever the tables hold. */
  lemma {:induction false} AggregableIff(products: map<Uuid, Product>, items: seq<ItemInput>, offline: bool)
    ensures ItemsFit(products, items, offline) ==> Aggregable(items, offline)
  {
    if ItemsFit(products, items, offline) {
      forall i | 0 <= i < |items| ensures ItemAccepted(items[i], offline) {
        assert ItemFits(products, items[i], offline);
      }
    }
  }

  lemma {:induction false} AggregatedAt(items: seq<ItemInput>, offline: bool, i: nat)
    requires Aggregable(items, offline) && i < |items|
    ensures items[i].product in Aggregated(items)
    ensures var a := Aggregated(items)[items[i].product];
            && a.quantity == Asked(items, items[i].product)
            && a.unitPrice == items[i].unitPrice && a.catalogPrice == items[i].catalogPrice
  {
    var first := FirstWhere(items, IsOf(items[i].product));
    assert IsOf(items[i].product)(items[i]);
    assert first < i ==> SameTerms(items[first], items[i]);
    SameAsked(items, items[i].product);
  }

  predicate IdFits(products: map<Uuid, Product>, aggregates: map<Uuid, Aggregate>, id: Uuid, offline: bool) {
    && id in products && id in aggregates && (offline || products[id].active)
    && (products[id].saleUnit == Unit ==> aggregates[id].quantity % 1000 == 0)
    && UnitPrice(products[id], aggregates[id]) > 0
  }

  lemma {:induction false} ResolvesWhen(products: map<Uuid, Product>, aggregates: map<Uuid, Aggregate>, offline: bool)
    requires AggregatesSound(aggregates)
    ensures ResolveLines(products, aggregates, offline).Ok? <==>
              forall i :: 0 <= i < |Sorted(aggregates.Keys)| ==>
                IdFits(products, aggregates, Sorted(aggregates.Keys)[i], offline)
  {
    var ids := Sorted(aggregates.Keys);
    ProblemIff(products, aggregates, ids, offline);
    EveryId(aggregates.Keys, ids);
    if forall i :: 0 <= i < |ids| ==> IdFits(products, aggregates, ids[i], offline) {
      assert ProductProblem(products, aggregates, ids, offline).None?;
      NoProblemMeansKnown(products, aggregates, ids, offline);
      assert forall i :: 0 <= i < |ids| ==> IdFits(products, aggregates, ids[i], offline);
      assert AllPriced(products, aggregates, ids);
    }
    if ResolveLines(products, aggregates, offline).Ok? {
      NoProblemMeansKnown(products, aggregates, ids, offline);
      assert AllPriced(products, aggregates, ids);
      forall i | 0 <= i < |ids| ensures IdFits(products, aggregates, ids[i], offline) { assert ids[i] in ids; }
    }
  }

  lemma {:induction false} IdsFitIff(products: map<Uuid, Product>, aggregates: map<Uuid, Aggregate>, offline: bool)
    requires AggregatesSound(aggregates)
    ensures ResolveLines(products, aggregates, offline).Ok? <==>
              forall id :: id in aggregates ==> IdFits(products, aggregates, id, offline)
  {
    ResolvesWhen(products, aggregates, offline);
    EveryId(aggregates.Keys, Sorted(aggregates.Keys));
  }

  lemma {:induction false} EveryId(all: set<Uuid>, ids: seq<Uuid>)
    requires ids == Sorted(all)
    ensures forall id :: id in all ==> exists i :: 0 <= i < |ids| && ids[i] == id
    ensures forall i :: 0 <= i < |ids| ==> ids[i] in all
  {
    forall id | id in all ensures exists i :: 0 <= i < |ids| && ids[i] == id { assert id in ids; }
    forall i | 0 <= i < |ids| ensures ids[i] in all { assert ids[i] in ids; }
  }

  predicate FitsAt(products: map<Uuid, Product>, items: seq<ItemInput>, i: nat, offline: bool)
    requires i < |items|
  {
    ItemFits(products, items[i], offline)
    && (products[items[i].product].saleUnit == Unit ==> Asked(items, items[i].product) % 1000 == 0)
  }

  lemma {:induction false} FitsAtIff(products: map<Uuid, Product>, items: seq<ItemInput>, i: nat, offline: bool)
    requires Aggregable(items, offline) && i < |items|
    ensures FitsAt(products, items, i, offline) <==> IdFits(products, Aggregated(items), items[i].product, offline)
  {
    AggregatedAt(items, offline, i);
    assert ItemAccepted(items[i], offline);
  }

  lemma {:induction false} FittingItemsResolve(products: map<Uuid, Product>, items: seq<ItemInput>, offline: bool)
    requires Aggregable(items, offline) && forall i :: 0 <= i < |items| ==> FitsAt(products, items, i, offline)
    ensures forall id :: id in Aggregated(items) ==> IdFits(products, Aggregated(items), id, offline)
  {
    forall id | id in Aggregated(items) ensures IdFits(products, Aggregated(items), id, offline) {
      var i := FirstWhere(items, IsOf(id));
      assert i < |items| && items[i].product == id;
      FitsAtIff(products, items, i, offline);
    }
  }

  lemma {:induction false} ResolvedItemsFit(products: map<Uuid, Product>, items: seq<ItemInput>, offline: bool)
    requires Aggregable(items, offline)
    requires forall id :: id in Aggregated(items) ==> IdFits(products, Aggregated(items), id, offline)
    ensures forall i :: 0 <= i < |items| ==> FitsAt(products, items, i, offline)
  {
    forall i | 0 <= i < |items| ensures FitsAt(products, items, i, offline) {
      AggregatedAt(items, offline, i);
      FitsAtIff(products, items, i, offline);
    }
  }

  lemma {:induction false} FitEach(products: map<Uuid, Product>, items: seq<ItemInput>, offline: bool)
    requires Aggregable(items, offline)
    ensures ItemsFit(products, items, offline) <==>
              forall i :: 0 <= i < |items| ==> FitsAt(products, items, i, offline)
  {
    AgreeingItems(items, offline);
    if forall i :: 0 <= i < |items| ==> FitsAt(products, items, i, offline) {
      forall i | 0 <= i < |items|
        ensures ItemFits(products, items[i], offline)
        ensures products[items[i].product].saleUnit == Unit ==> Asked(items, items[i].product) % 1000 == 0
      {
        assert FitsAt(products, items, i, offline);
      }
    }
  }

  lemma {:induction false} ResolvesIff(products: map<Uuid, Product>, items: seq<ItemInput>, offline: bool)
    requires Aggregable(items, offline) && AggregatesSound(Aggregated(items))
    ensures ResolveLines(products, Aggregated(items), offline).Ok? <==> ItemsFit(products, items, offline)
  {
    IdsFitIff(products, Aggregated(items), offline);
    FitEach(products, items, offline);
    if ItemsFit(products, items, offline) { FittingItemsResolve(products, items, offline); }
    if ResolveLines(products, Aggregated(items), offline).Ok? { ResolvedItemsFit(products, items, offline); }
  }

  lemma {:induction false} AgreeingItems(items: seq<ItemInput>, offline: bool)
    requires Aggregable(items, offline)
    ensures forall i, j :: 0 <= i < j < |items| && items[i].product == items[j].product ==>
              items[i].unitPrice == items[j].unitPrice && items[i].catalogPrice == items[j].catalogPrice
  {
    forall i, j | 0 <= i < j < |items| && items[i].product == items[j].product
      ensures items[i].unitPrice == items[j].unitPrice && items[i].catalogPrice == items[j].catalogPrice
    {
      assert SameTerms(items[i], items[j]);
    }
  }

  /** The lines are found exactly when the request and its session fit. */
  lemma {:induction false} LinesIff(db: Db, items: seq<ItemInput>, t: SaleTerms, offline: bool)
    ensures RequestLines(db, items, t, offline).Ok? <==>
              ItemsFit(db.products, items, offline) && SessionFits(db, t.session, t.at, offline)
  {
    AggregableIff(db.products, items, offline);
    if Aggregable(items, offline) {
      AggregatedSound(items, offline);
      ResolvesIff(db.products, items, offline);
    }
  }

  function ProductsIn(items: seq<ItemInput>): set<Uuid> {
    set i | 0 <= i < |items| :: items[i].product
  }

  /** The line of a product: all that is asked of it, at its price and under its name. */
  predicate IsLineOf(products: map<Uuid, Product>, items: seq<ItemInput>, line: Line, offline: bool) {
    var at := FirstWhere(items, IsOf(line.product));
    && at < |items| && line.product in products && line.quantity == Asked(items, line.product)
    && line.unitPrice == PriceOf(products, items[at])
    && line.catalogPrice == (if offline && items[at].catalogPrice.Some? then items[at].catalogPrice.value
                             else products[line.product].sellingPrice)
    && line.name == (if offline then items[at].name else products[line.product].name)
  }

  /** Each line is that of one product of the request, in identifier order. */
  lemma {:induction false} LineAt(db: Db, items: seq<ItemInput>, t: SaleTerms, offline: bool, k: nat)
    requires RequestLines(db, items, t, offline).Ok? && k < |RequestLines(db, items, t, offline).value|
    ensures |RequestLines(db, items, t, offline).value| == |Sorted(ProductsIn(items))|
    ensures RequestLines(db, items, t, offline).value[k].product == Sorted(ProductsIn(items))[k]
    ensures IsLineOf(db.products, items, RequestLines(db, items, t, offline).value[k], offline)
  {
    AggregatedSound(items, offline);
    assert Aggregated(items).Keys == ProductsIn(items);
    ResolvedLineAt(db.products, items, offline, k);
  }

  lemma {:induction false} ResolvedLineAt(products: map<Uuid, Product>, items: seq<ItemInput>, offline: bool, k: nat)
    requires AggregatesSound(Aggregated(items)) && Aggregated(items).Keys == ProductsIn(items)
    requires ResolveLines(products, Aggregated(items), offline).Ok?
    requires k < |ResolveLines(products, Aggregated(items), offline).value|
    ensures |ResolveLines(products, Aggregated(items), offline).value| == |Sorted(ProductsIn(items))|
    ensures ResolveLines(products, Aggregated(items), offline).value[k].product == Sorted(ProductsIn(items))[k]
    ensures IsLineOf(products, items, ResolveLines(products, Aggregated(items), offline).value[k], offline)
  {
    var aggregates, ids := Aggregated(items), Sorted(Aggregated(items).Keys);
    NoProblemMeansKnown(products, aggregates, ids, offline);
    assert ids[k] in ids;
    assert ResolveLines(products, aggregates, offline).value == LinesOf(products, aggregates, ids, offline);
    LineForProduct(products, items, offline, ids[k], LinesOf(products, aggregates, ids, offline)[k]);
  }

  lemma {:induction false} LineForProduct(products: map<Uuid, Product>, items: seq<ItemInput>, offline: bool, p: Uuid,
      line: Line)
    requires p in ProductsIn(items) && p in Aggregated(items) && p in products && line.product == p
    requires var a := Aggregated(items)[p];
             && line.quantity == a.quantity && line.unitPrice == UnitPrice(products[p], a)
             && line.name == LineName(products[p], a, offline)
             && line.catalogPrice == CatalogPrice(products[p], a, offline)
    ensures IsLineOf(products, items, line, offline)
  {
    AggregateTerms(items, p);
  }

  lemma {:induction false} AggregateTerms(items: seq<ItemInput>, p: Uuid)
    requires p in ProductsIn(items)
    ensures p in Aggregated(items)
    ensures var (at, a) := (FirstWhere(items, IsOf(p)), Aggregated(items)[p]);
            && at < |items| && a.quantity == Asked(items, p) && a.unitPrice == items[at].unitPrice
            && a.catalogPrice == items[at].catalogPrice && a.name == items[at].name
  {
    SameAsked(items, p);
  }

  lemma {:induction false} LineCost(products: map<Uuid, Product>, items: seq<ItemInput>, line: Line, offline: bool)
    requires IsLineOf(products, items, line, offline)
    ensures LineValue()(line) == CostOf(products, items)(line.product)
  {
  }

  lemma {:induction false} CostAt(db: Db, items: seq<ItemInput>, t: SaleTerms, offline: bool, k: nat)
    requires RequestLines(db, items, t, offline).Ok? && k < |RequestLines(db, items, t, offline).value|
    ensures |RequestLines(db, items, t, offline).value| == |Sorted(ProductsIn(items))|
    ensures LineValue()(RequestLines(db, items, t, offline).value[k]) ==
            CostOf(db.products, items)(Sorted(ProductsIn(items))[k])
  {
    LineAt(db, items, t, offline, k);
    LineCost(db.products, items, RequestLines(db, items, t, offline).value[k], offline);
  }

  lemma {:induction false} AsManyLines(db: Db, items: seq<ItemInput>, t: SaleTerms, offline: bool)
    requires RequestLines(db, items, t, offline).Ok?
    ensures |RequestLines(db, items, t, offline).value| == |Sorted(ProductsIn(items))|
  {
    AggregatedSound(items, offline);
    assert Aggregated(items).Keys == ProductsIn(items);
  }

  lemma {:induction false} LinesTotal(db: Db, items: seq<ItemInput>, t: SaleTerms, offline: bool)
    requires RequestLines(db, items, t, offline).Ok?
    ensures Sum(RequestLines(db, items, t, offline).value, LineValue()) == TotalOf(db.products, items)
  {
    var lines, ids := RequestLines(db, items, t, offline).value, Sorted(ProductsIn(items));
    AsManyLines(db, items, t, offline);
    forall k | 0 <= k < |lines| ensures LineValue()(lines[k]) == CostOf(db.products, items)(ids[k]) {
      CostAt(db, items, t, offline, k);
    }
    SumPointwise(lines, ids, LineValue(), CostOf(db.products, items));
  }

  lemma {:induction false} ShortIff(db: Db, items: seq<ItemInput>, t: SaleTerms, offline: bool, store: Uuid)
    requires RequestLines(db, items, t, offline).Ok?
    ensures Short(db.book.rows, store, RequestLines(db, items, t, offline).value) <==> !StockFits(db, store, items)
  {
    var lines := RequestLines(db, items, t, offline).value;
    if Short(db.book.rows, store, lines) {
      var k :| 0 <= k < |lines| && RowAt(db.book.rows, StockKey(store, lines[k].product)).quantity < lines[k].quantity;
      LineAt(db, items, t, offline, k);
    }
    if !StockFits(db, store, items) {
      var i :| 0 <= i < |items|
               && Asked(items, items[i].product) > RowAt(db.book.rows, StockKey(store, items[i].product)).quantity;
      var k := LineOf(db, items, t, offline, i);
      LineAt(db, items, t, offline, k);
    }
  }

  /** The line of an item's product. */
  lemma {:induction false} LineOf(db: Db, items: seq<ItemInput>, t: SaleTerms, offline: bool, i: nat) returns (k: nat)
    requires RequestLines(db, items, t, offline).Ok? && i < |items|
    ensures k < |RequestLines(db, items, t, offline).value|
    ensures RequestLines(db, items, t, offline).value[k].product == items[i].product
  {
    AggregatedSound(items, offline);
    var ids := Sorted(Aggregated(items).Keys);
    AggregatedAt(items, offline, i);
    assert items[i].product in ids;
    k :| 0 <= k < |ids| && ids[k] == items[i].product;
  }

  lemma {:induction false} MoneyIff(t: SaleTerms, total: int)
    requires t.credit >= 0
    ensures Settles(total, t.legs, t.credit) <==> MoneyFits(t, total)
  {
    forall i | 0 <= i < |t.legs|
      ensures LegFits(t.legs[i], t.credit) <==>
                LegAccepted(t.legs[i]) && (t.credit != 0 ==> !GivesChange(t.legs[i]))
    {
    }
    assert forall i :: 0 <= i < |t.legs| ==> t.legs[i] in t.legs;
    if MoneyFits(t, total) {
      forall leg | leg in t.legs ensures LegAccepted(leg) && (t.credit != 0 ==> !GivesChange(leg)) {
        var i :| 0 <= i < |t.legs| && t.legs[i] == leg;
      }
      LegsNonneg(t.legs);
    }
  }

  lemma {:induction false} LegsNonneg(legs: seq<Leg>)
    requires forall leg :: leg in legs ==> leg.amount > 0
    ensures Sum(legs, LegAmounts()) >= 0
  {
    forall i | 0 <= i < |legs| ensures LegAmounts()(legs[i]) >= 0 { assert legs[i] in legs; }
    SumNonneg(legs, LegAmounts());
  }

  /** A sale is booked if and only if its items, its session, its customer and its money fit,
      its identifier is new and, online, the stock covers it. */
  lemma {:induction false} BookedIff(db: Db, items: seq<ItemInput>, t: SaleTerms, offline: bool)
    ensures CompleteSpec(db, items, t, offline).Ok? <==>
              && ItemsFit(db.products, items, offline) && SessionFits(db, t.session, t.at, offline)
              && CustomerFits(db, t, offline) && MoneyFits(t, TotalOf(db.products, items))
              && (forall i :: 0 <= i < |db.sales| ==> db.sales[i].id != t.id)
              && (offline || StockFits(db, db.sessions[t.session].store, items))
  {
    LinesIff(db, items, t, offline);
    if RequestLines(db, items, t, offline).Ok? {
      ExecutesIff(db, items, t, offline);
    }
  }

  lemma {:induction false} ExecutesIff(db: Db, items: seq<ItemInput>, t: SaleTerms, offline: bool)
    requires RequestLines(db, items, t, offline).Ok?
    ensures ExecuteSaleSpec(db, t, RequestLines(db, items, t, offline).value, offline).Ok? <==>
              && CustomerFits(db, t, offline) && MoneyFits(t, TotalOf(db.products, items))
              && (forall i :: 0 <= i < |db.sales| ==> db.sales[i].id != t.id)
              && (offline || StockFits(db, db.sessions[t.session].store, items))
  {
    var lines, store := RequestLines(db, items, t, offline).value, db.sessions[t.session].store;
    LinesTotal(db, items, t, offline);
    ShortIff(db, items, t, offline, store);
    ExecutedIff(db, t, lines, offline);
    if t.credit >= 0 { MoneyIff(t, TotalOf(db.products, items)); }
  }

  lemma {:induction false} ExecutedIff(db: Db, t: SaleTerms, lines: seq<Line>, offline: bool)
    requires t.session in db.sessions
    ensures ExecuteSaleSpec(db, t, lines, offline).Ok? <==>
              && CustomerFits(db, t, offline) && t.credit >= 0 && Settles(Sum(lines, LineValue()), t.legs, t.credit)
              && (forall i :: 0 <= i < |db.sales| ==> db.sales[i].id != t.id)
              && (offline || !Short(db.book.rows, db.sessions[t.session].store, lines))
  {
    FrozenTotal(db.book.rows, db.sessions[t.session].store, lines);
  }

  // ---------- What is written ----------

  /** The row of a line: what the line says, its price to the cent, and the average cost of
      the stock at that moment. */
  predicate IsRowOf(db: Db, store: Uuid, line: Line, row: SaleItem) {
    && row.product == line.product && row.name == line.name && row.quantity == line.quantity
    && row.unitPrice == line.unitPrice && row.catalogPrice == line.catalogPrice
    && row.lineTotal == HalfUp(line.unitPrice * line.quantity, QUANTITY_SCALE)
    && row.unitCost == RowAt(db.book.rows, StockKey(store, line.product)).cost
  }

  predicate IsPaymentOf(leg: Leg, p: Payment) {
    && p.paidBy == leg.paidBy && p.amount == leg.amount && p.received == leg.received
    && p.change == if leg.paidBy == Cash && leg.received.Some? then Some(leg.received.value - leg.amount) else None
  }

  /** The terms of the request, one row for each line, one payment for each leg. */
  ghost predicate IsSaleFor(db: Db, t: SaleTerms, lines: seq<Line>, sale: Sale)
    requires t.session in db.sessions
  {
    && sale.id == t.id && sale.session == t.session && sale.customer == t.customer && sale.credit == t.credit
    && sale.occurredAt == t.at && !sale.cancelled && |sale.items| == |lines|
    && (forall k :: 0 <= k < |lines| ==> IsRowOf(db, db.sessions[t.session].store, lines[k], sale.items[k]))
    && |sale.payments| == |t.legs| && (forall i :: 0 <= i < |t.legs| ==> IsPaymentOf(t.legs[i], sale.payments[i]))
  }

  lemma {:induction false} ExecutedRow(db: Db, t: SaleTerms, lines: seq<Line>, offline: bool)
    requires t.session in db.sessions && ExecuteSaleSpec(db, t, lines, offline).Ok?
    ensures var (after, sale, _) := ExecuteSaleSpec(db, t, lines, offline).value;
            && IsSaleFor(db, t, lines, sale) && sale.total == Sum(lines, LineValue())
            && after.book == PostAll(db.book, SaleMoves(db.sessions[t.session].store, sale.items, t.id))
  {
    FrozenTotal(db.book.rows, db.sessions[t.session].store, lines);
  }

  /** The booked sale is the request's, and its total that of its products. */
  lemma {:induction false} BookedRow(db: Db, items: seq<ItemInput>, t: SaleTerms, offline: bool)
    requires CompleteSpec(db, items, t, offline).Ok?
    ensures var sale := CompleteSpec(db, items, t, offline).value.1;
            && IsSaleFor(db, t, RequestLines(db, items, t, offline).value, sale)
            && sale.total == TotalOf(db.products, items)
  {
    LinesTotal(db, items, t, offline);
    ExecutedRow(db, t, RequestLines(db, items, t, offline).value, offline);
  }

  /** What the rows take of a stock. */
  function TakenFrom(store: Uuid, rows: seq<SaleItem>, key: StockKey): int {
    var at := FirstWhere(rows, (row: SaleItem) => StockKey(store, row.product) == key);
    if at < |rows| then rows[at].quantity else 0
  }

  lemma {:induction false} MovedOnce(book: StockBook, store: Uuid, rows: seq<SaleItem>, sale: Uuid, key: StockKey)
    requires DistinctKeys(SaleMoves(store, rows, sale))
    ensures RowAt(PostAll(book, SaleMoves(store, rows, sale)).rows, key) ==
            RowAt(book.rows, key).(quantity := RowAt(book.rows, key).quantity - TakenFrom(store, rows, key))
  {
    var moves := SaleMoves(store, rows, sale);
    var at := FirstWhere(rows, (row: SaleItem) => StockKey(store, row.product) == key);
    PostAllOnce(book, moves, at);
    if at < |rows| { assert moves[at].key == key; }
  }

  /** Each row is for all that is asked of its product, and every item has a row. */
  ghost predicate RowsCover(items: seq<ItemInput>, rows: seq<SaleItem>) {
    && (forall k :: 0 <= k < |rows| ==> rows[k].quantity == Asked(items, rows[k].product))
    && (forall i :: 0 <= i < |items| ==> HasRowFor(rows, items[i].product))
  }

  predicate HasRowFor(rows: seq<SaleItem>, p: Uuid) {
    exists k :: 0 <= k < |rows| && rows[k].product == p
  }

  lemma {:induction false} BookedRowsCover(db: Db, items: seq<ItemInput>, t: SaleTerms, offline: bool)
    requires CompleteSpec(db, items, t, offline).Ok?
    ensures RowsCover(items, CompleteSpec(db, items, t, offline).value.1.items)
  {
    var rows := CompleteSpec(db, items, t, offline).value.1.items;
    BookedRow(db, items, t, offline);
    forall k | 0 <= k < |rows| ensures rows[k].quantity == Asked(items, rows[k].product) {
      LineAt(db, items, t, offline, k);
    }
    forall i | 0 <= i < |items| ensures HasRowFor(rows, items[i].product) {
      var k := LineOf(db, items, t, offline, i);
      assert rows[k].product == items[i].product;
    }
  }

  lemma {:induction false} TakenByRows(store: Uuid, items: seq<ItemInput>, rows: seq<SaleItem>, key: StockKey)
    requires RowsCover(items, rows)
    ensures TakenFrom(store, rows, key) == if key.store == store then Asked(items, key.product) else 0
  {
    var at := FirstWhere(rows, (row: SaleItem) => StockKey(store, row.product) == key);
    if at == |rows| && key.store == store {
      assert !HasRowFor(rows, key.product) by {
        assert forall k :: 0 <= k < |rows| ==> StockKey(store, rows[k].product) != key;
      }
      NothingAsked(items, key.product);
    }
  }

  lemma {:induction false} TakenIsAsked(db: Db, items: seq<ItemInput>, t: SaleTerms, offline: bool, key: StockKey)
    requires CompleteSpec(db, items, t, offline).Ok?
    ensures var (rows, store) := (CompleteSpec(db, items, t, offline).value.1.items, db.sessions[t.session].store);
            TakenFrom(store, rows, key) == if key.store == store then Asked(items, key.product) else 0
  {
    BookedRowsCover(db, items, t, offline);
    TakenByRows(db.sessions[t.session].store, items, CompleteSpec(db, items, t, offline).value.1.items, key);
  }

  lemma {:induction false} NothingAsked(items: seq<ItemInput>, p: Uuid)
    ensures (forall i :: 0 <= i < |items| ==> items[i].product != p) ==> Asked(items, p) == 0
  {
    if forall i :: 0 <= i < |items| ==> items[i].product != p { SumZero(items, AskedOf(p)); }
  }

  lemma {:induction false} BookedBook(db: Db, items: seq<ItemInput>, t: SaleTerms, offline: bool)
    requires CompleteSpec(db, items, t, offline).Ok?
    ensures var (after, sale, _) := CompleteSpec(db, items, t, offline).value;
            && after.book == PostAll(db.book, SaleMoves(db.sessions[t.session].store, sale.items, t.id))
            && DistinctKeys(SaleMoves(db.sessions[t.session].store, sale.items, t.id))
  {
    var lines := RequestLines(db, items, t, offline).value;
    ExecutedRow(db, t, lines, offline);
    DistinctRows(db.sessions[t.session].store, lines, CompleteSpec(db, items, t, offline).value.1.items, t.id);
  }

  lemma {:induction false} DistinctRows(store: Uuid, lines: seq<Line>, rows: seq<SaleItem>, sale: Uuid)
    requires SoundLines(lines) && |rows| == |lines|
    requires forall k :: 0 <= k < |lines| ==> rows[k].product == lines[k].product
    ensures DistinctKeys(SaleMoves(store, rows, sale))
  {
  }

  /** The stock of the store gives what is asked of each product, and keeps its averages. */
  lemma {:induction false} StockAfterBooking(db: Db, items: seq<ItemInput>, t: SaleTerms, offline: bool, key: StockKey)
    requires CompleteSpec(db, items, t, offline).Ok?
    ensures RowAt(CompleteSpec(db, items, t, offline).value.0.book.rows, key) ==
            RowAt(db.book.rows, key).(
              quantity := RowAt(db.book.rows, key).quantity
                          - if key.store == db.sessions[t.session].store then Asked(items, key.product) else 0)
  {
    BookedBook(db, items, t, offline);
    TakenIsAsked(db, items, t, offline, key);
    MovedOnce(db.book, db.sessions[t.session].store, CompleteSpec(db, items, t, offline).value.1.items, t.id, key);
  }

  /** One outgoing movement for each row, in the store of the session, at its frozen cost. */
  predicate IsMoveOf(store: Uuid, sale: Uuid, row: SaleItem, m: Movement) {
    m == Movement(StockKey(store, row.product), SaleOut, 0 - row.quantity, row.unitCost, Some(sale))
  }

  predicate Journals(was: seq<Movement>, now: seq<Movement>, store: Uuid, sale: Uuid, rows: seq<SaleItem>) {
    && |now| == |was| + |rows| && now[..|was|] == was
    && forall k :: 0 <= k < |rows| ==> IsMoveOf(store, sale, rows[k], now[|was| + k])
  }

  lemma {:induction false} JournalAfterBooking(db: Db, items: seq<ItemInput>, t: SaleTerms, offline: bool)
    requires CompleteSpec(db, items, t, offline).Ok?
    ensures var (after, sale, _) := CompleteSpec(db, items, t, offline).value;
            Journals(db.book.movements, after.book.movements, db.sessions[t.session].store, t.id, sale.items)
  {
    BookedBook(db, items, t, offline);
    RowsJournalled(db.book, db.sessions[t.session].store, CompleteSpec(db, items, t, offline).value.1.items, t.id);
  }

  lemma {:induction false} RowsJournalled(book: StockBook, store: Uuid, rows: seq<SaleItem>, sale: Uuid)
    ensures Journals(book.movements, PostAll(book, SaleMoves(store, rows, sale)).movements, store, sale, rows)
  {
    PostAllQuantities(book, SaleMoves(store, rows, sale), StockKey(0, 0));
  }

  // ---------- What a replay is answered ----------

  predicate MayReplay(db: Db, e: SyncEvent, user: Uuid) {
    && Unseen(db, e) && e.session in db.sessions
    && (db.sessions[e.session].cashier == user || (user, db.sessions[e.session].store) in db.access)
  }

  /** The items are acceptable whatever the tables hold. */
  predicate Coherent(items: seq<ItemInput>) {
    && items != []
    && (forall i :: 0 <= i < |items| ==>
          && items[i].quantity > 0 && items[i].unitPrice.Some? && items[i].unitPrice.value > 0
          && (items[i].catalogPrice.Some? ==> items[i].catalogPrice.value > 0))
    && (forall i, j :: 0 <= i < j < |items| && items[i].product == items[j].product ==>
          items[i].unitPrice == items[j].unitPrice && items[i].catalogPrice == items[j].catalogPrice)
  }

  lemma {:induction false} CoherentIff(items: seq<ItemInput>)
    ensures Coherent(items) <==> Aggregable(items, true)
  {
    if Coherent(items) {
      forall i, j | 0 <= i < j < |items| ensures SameTerms(items[i], items[j]) {
      }
      assert forall i :: 0 <= i < |items| ==> ItemAccepted(items[i], true);
    }
    if Aggregable(items, true) {
      assert forall i :: 0 <= i < |items| ==> ItemAccepted(items[i], true);
      AgreeingItems(items, true);
    }
  }

  /** Everything a sale is judged by, once its items and session fit. */
  predicate Sellable(db: Db, e: SyncEvent)
    requires e.session in db.sessions
  {
    CustomerFits(db, TermsOf(e), true) && MoneyFits(TermsOf(e), TotalOf(db.products, e.items))
  }

  lemma {:induction false} AnsweredBy(db: Db, e: SyncEvent, user: Uuid)
    requires MayReplay(db, e, user)
    ensures var r := CompleteSpec(db, e.items, TermsOf(e), true);
            Process(db, e, user).1 ==
            if r.Ok? then Synced(e.entity)
            else if r.error.IntegrityError? then AlreadyProcessed(e.entity) else Refusal(r.error)
  {
    CommitCases(db, e, user);
  }

  lemma {:induction false} LinesError(db: Db, e: SyncEvent, user: Uuid)
    requires MayReplay(db, e, user)
    ensures !Coherent(e.items) ==> RequestLines(db, e.items, TermsOf(e), true) == Err(InvalidSaleItems)
    ensures Coherent(e.items) && !SessionFits(db, e.session, e.at, true) ==>
              RequestLines(db, e.items, TermsOf(e), true) == Err(CashSessionClosed)
  {
    CoherentIff(e.items);
  }

  /** The answer to a new event from someone allowed, reason by reason, in the order the
      reasons are looked at. */
  lemma {:induction false} ReplayAnswer(db: Db, e: SyncEvent, user: Uuid)
    requires MayReplay(db, e, user)
    ensures var (outcome, items) := (Process(db, e, user).1, ItemsFit(db.products, e.items, true));
            && (!Coherent(e.items) ==> outcome == Rejected(InvalidSale))
            && (Coherent(e.items) && !SessionFits(db, e.session, e.at, true) ==> outcome == Conflict(SessionClosed))
            && (items && SessionFits(db, e.session, e.at, true) ==>
                  outcome == if Sellable(db, e) then Synced(e.entity)
                             else if e.credit >= 0 && e.customer.Some? && !CustomerFits(db, TermsOf(e), true)
                             then Rejected(UnknownCustomer) else Rejected(InvalidSale))
  {
    LinesError(db, e, user);
    if !Coherent(e.items) {
      RefusedAtLines(db, e, user, InvalidSaleItems);
    } else if !SessionFits(db, e.session, e.at, true) {
      RefusedAtLines(db, e, user, CashSessionClosed);
    } else if ItemsFit(db.products, e.items, true) {
      FittingAnswer(db, e, user);
    }
    FittingIsCoherent(db.products, e.items);
  }

  lemma {:induction false} FittingIsCoherent(products: map<Uuid, Product>, items: seq<ItemInput>)
    ensures ItemsFit(products, items, true) ==> Coherent(items)
  {
    AggregableIff(products, items, true);
    CoherentIff(items);
  }

  lemma {:induction false} FittingAnswer(db: Db, e: SyncEvent, user: Uuid)
    requires MayReplay(db, e, user) && ItemsFit(db.products, e.items, true) && SessionFits(db, e.session, e.at, true)
    ensures Process(db, e, user).1 ==
            if Sellable(db, e) then Synced(e.entity)
            else if e.credit >= 0 && e.customer.Some? && !CustomerFits(db, TermsOf(e), true)
            then Rejected(UnknownCustomer) else Rejected(InvalidSale)
  {
    LinesIff(db, e.items, TermsOf(e), true);
    ExecutionAnswer(db, e);
    if Sellable(db, e) { AnsweredBy(db, e, user); }
    else if e.credit >= 0 && e.customer.Some? && !CustomerFits(db, TermsOf(e), true) {
      RefusedAs(db, e, user, CustomerNotFound);
    } else {
      RefusedAs(db, e, user, InvalidPayment);
    }
  }

  lemma {:induction false} ExecutionAnswer(db: Db, e: SyncEvent)
    requires Unseen(db, e) && e.session in db.sessions && RequestLines(db, e.items, TermsOf(e), true).Ok?
    ensures var r := CompleteSpec(db, e.items, TermsOf(e), true);
            if Sellable(db, e) then r.Ok?
            else if e.credit >= 0 && e.customer.Some? && !CustomerFits(db, TermsOf(e), true)
            then r == Err(CustomerNotFound) else r == Err(InvalidPayment)
  {
    var lines := RequestLines(db, e.items, TermsOf(e), true).value;
    LinesTotal(db, e.items, TermsOf(e), true);
    FrozenTotal(db.book.rows, db.sessions[e.session].store, lines);
    if e.credit >= 0 { MoneyIff(TermsOf(e), TotalOf(db.products, e.items)); }
  }

  /** What is sold by the unit is asked for by whole units. */
  predicate WholeUnits(products: map<Uuid, Product>, items: seq<ItemInput>) {
    forall i :: 0 <= i < |items| ==> WholeIfByUnit(products, items, items[i].product)
  }

  predicate WholeIfByUnit(products: map<Uuid, Product>, items: seq<ItemInput>, p: Uuid) {
    p in products && products[p].saleUnit == Unit ==> Asked(items, p) % 1000 == 0
  }

  /** A product the server does not know, all else about the products being right. */
  lemma {:induction false} UnknownProductAnswer(db: Db, e: SyncEvent, user: Uuid, i: nat)
    requires MayReplay(db, e, user) && Coherent(e.items) && SessionFits(db, e.session, e.at, true)
    requires WholeUnits(db.products, e.items) && i < |e.items| && e.items[i].product !in db.products
    ensures Process(db, e, user).1 == Rejected(UnknownProduct)
  {
    UnknownLines(db, e, i);
    RefusedAtLines(db, e, user, ProductNotFound);
  }

  lemma {:induction false} RefusedAtLines(db: Db, e: SyncEvent, user: Uuid, error: ServiceError)
    requires MayReplay(db, e, user) && !error.IntegrityError?
    requires RequestLines(db, e.items, TermsOf(e), true) == Err(error)
    ensures Process(db, e, user).1 == Refusal(error)
  {
    NotCompleted(db, e.items, TermsOf(e), true);
    RefusedAs(db, e, user, error);
  }

  lemma {:induction false} RefusedAs(db: Db, e: SyncEvent, user: Uuid, error: ServiceError)
    requires MayReplay(db, e, user) && !error.IntegrityError?
    requires CompleteSpec(db, e.items, TermsOf(e), true) == Err(error)
    ensures Process(db, e, user).1 == Refusal(error)
  {
    AnsweredBy(db, e, user);
  }

  lemma {:induction false} NotCompleted(db: Db, items: seq<ItemInput>, t: SaleTerms, offline: bool)
    requires RequestLines(db, items, t, offline).Err?
    ensures CompleteSpec(db, items, t, offline) == Err(RequestLines(db, items, t, offline).error)
  {
  }

  lemma {:induction false} UnknownLines(db: Db, e: SyncEvent, i: nat)
    requires e.session in db.sessions && Coherent(e.items) && SessionFits(db, e.session, e.at, true)
    requires WholeUnits(db.products, e.items) && i < |e.items| && e.items[i].product !in db.products
    ensures RequestLines(db, e.items, TermsOf(e), true) == Err(ProductNotFound)
  {
    CoherentIff(e.items);
    AggregatedSound(e.items, true);
    UnknownResolves(db.products, e.items, i);
  }

  lemma {:induction false} UnknownResolves(products: map<Uuid, Product>, items: seq<ItemInput>, i: nat)
    requires Aggregable(items, true) && AggregatesSound(Aggregated(items))
    requires WholeUnits(products, items) && i < |items| && items[i].product !in products
    ensures ResolveLines(products, Aggregated(items), true) == Err(ProductNotFound)
  {
    var ids := Sorted(Aggregated(items).Keys);
    UnknownFirst(products, items, ids);
    AggregatedAt(items, true, i);
    assert items[i].product in ids;
  }

  lemma {:induction false} UnknownFirst(products: map<Uuid, Product>, items: seq<ItemInput>, ids: seq<Uuid>)
    requires Aggregable(items, true) && forall id :: id in ids ==> id in Aggregated(items)
    requires WholeUnits(products, items)
    ensures ProductProblem(products, Aggregated(items), ids, true) ==
            if exists id :: id in ids && id !in products then Some(ProductNotFound) else None
  {
    if |ids| > 0 {
      var front, id := ids[..|ids| - 1], ids[|ids| - 1];
      assert ids == front + [id];
      UnknownFirst(products, items, front);
      assert id in ids && id in ProductsOf(items);
      var i := FirstWhere(items, IsOf(id));
      assert items[i].product == id;
      AggregatedAt(items, true, i);
    }
  }

  /** Some product asked for is left below zero. */
  predicate LeavesNegative(rows: map<StockKey, StockRow>, store: Uuid, items: seq<ItemInput>) {
    exists i :: 0 <= i < |items| && RowAt(rows, StockKey(store, items[i].product)).quantity < 0
  }

  /** A booked event is recorded once, with who pushed it and whether it left some product it
      asks for below zero. */
  lemma {:induction false} EventRecorded(db: Db, e: SyncEvent, user: Uuid)
    requires MayReplay(db, e, user) && Process(db, e, user).1 == Synced(e.entity)
    ensures var after := Process(db, e, user).0;
            && |after.events| == |db.events| + 1 && after.events[..|db.events|] == db.events
            && var row := after.events[|db.events|];
               && row.event == e.event && row.entity == e.entity && row.pushedBy == user
               && (row.discrepancy <==> LeavesNegative(after.book.rows, db.sessions[e.session].store, e.items))
  {
    AnsweredBy(db, e, user);
    CommitCases(db, e, user);
    var store := db.sessions[e.session].store;
    ShortIff(db, e.items, TermsOf(e), true, store);
    forall i | 0 <= i < |e.items|
      ensures var key := StockKey(store, e.items[i].product);
              RowAt(Process(db, e, user).0.book.rows, key).quantity ==
              RowAt(db.book.rows, key).quantity - Asked(e.items, e.items[i].product)
    {
      StockAfterBooking(db, e.items, TermsOf(e), true, StockKey(store, e.items[i].product));
    }
  }
}
