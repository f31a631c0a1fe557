/** When the server's zero-tolerance payment rule accepts what a till accepted. */
module Agreement {
  import opened Sums
  import opened Rounding
  import opened Tables
  import opened Sales
  import opened Sync
  import opened LocalTables
  import opened LocalSales
  import opened SyncEngine
  import opened Replay

  // ---------- The server's total of distinct items ----------

  predicate Priced(unitPrice: Option<int>, quantity: int) {
    unitPrice.Some? && unitPrice.value >= 0 && quantity >= 0
  }

  function Cents(unitPrice: Option<int>, quantity: int): int {
    if Priced(unitPrice, quantity) then LineCents(unitPrice.value, quantity) else 0
  }

  function InputCents(): ItemInput -> int {
    (item: ItemInput) => Cents(item.unitPrice, item.quantity)
  }

  predicate DistinctInputs(items: seq<ItemInput>) {
    forall i, j :: 0 <= i < j < |items| ==> items[i].product != items[j].product
  }

  lemma {:induction false} AggregateOfDistinct(items: seq<ItemInput>, i: nat)
    requires DistinctInputs(items) && i < |items|
    ensures AggregateOf(items, items[i].product) ==
              Aggregate(items[i].quantity, items[i].unitPrice, items[i].name, items[i].catalogPrice)
  {
    var p := items[i].product;
    assert FirstWhere(items, IsOf(p)) == i;
    QuantityOnce(items, i);
  }

  lemma {:induction false} QuantityOnce(items: seq<ItemInput>, i: nat)
    requires i < |items| && forall j :: 0 <= j < |items| && j != i ==> items[j].product != items[i].product
    ensures Sum(items, QuantityOf(items[i].product)) == items[i].quantity
  {
    var p := items[i].product;
    var rest := items[..i] + items[i + 1..];
    SumRemove(items, i, QuantityOf(p));
    assert forall k :: 0 <= k < |rest| ==> rest[k] == items[if k < i then k else k + 1];
    SumZero(rest, QuantityOf(p));
  }

  function ProductIds(items: seq<ItemInput>): seq<Uuid> {
    seq(|items|, i requires 0 <= i < |items| => items[i].product)
  }

  function CentsOfProduct(aggregates: map<Uuid, Aggregate>): Uuid -> int {
    (p: Uuid) => if p in aggregates then Cents(aggregates[p].unitPrice, aggregates[p].quantity) else 0
  }

  /** The server books lines in identifier order, the till lists items as scanned: the
      totals are the same. */
  lemma {:induction false} LinesTotalItems(db: Db, e: SyncEvent)
    requires DistinctInputs(e.items) && RequestLines(db, e.items, TermsOf(e), true).Ok?
    ensures Sum(RequestLines(db, e.items, TermsOf(e), true).value, LineValue()) == Sum(e.items, InputCents())
  {
    LinesResolved(db, e);
    LinesTotalIds(db.products, e.items);
    var aggregates := Aggregated(e.items);
    IdsTotalItems(e.items);
    SameProducts(e.items);
    SumPermuted(Sorted(aggregates.Keys), ProductIds(e.items), CentsOfProduct(aggregates));
  }

  lemma {:induction false} LinesTotalIds(products: map<Uuid, Product>, items: seq<ItemInput>)
    requires Aggregable(items, true) && AggregatesSound(Aggregated(items))
    requires ResolveLines(products, Aggregated(items), true).Ok?
    ensures Sum(ResolveLines(products, Aggregated(items), true).value, LineValue()) ==
            Sum(Sorted(Aggregated(items).Keys), CentsOfProduct(Aggregated(items)))
  {
    var aggregates := Aggregated(items);
    var ids, lines := Sorted(aggregates.Keys), ResolveLines(products, aggregates, true).value;
    OneLineEach(products, aggregates);
    forall j | 0 <= j < |ids| ensures CentsOfProduct(aggregates)(ids[j]) == LineValue()(lines[j]) {
      LineOfAggregate(products, items, j);
    }
    SumPointwise(ids, lines, CentsOfProduct(aggregates), LineValue());
  }

  lemma {:induction false} OneLineEach(products: map<Uuid, Product>, aggregates: map<Uuid, Aggregate>)
    requires AggregatesSound(aggregates) && ResolveLines(products, aggregates, true).Ok?
    ensures |ResolveLines(products, aggregates, true).value| == |Sorted(aggregates.Keys)|
  {
  }

  lemma {:induction false} IdsTotalItems(items: seq<ItemInput>)
    requires DistinctInputs(items)
    ensures Sum(ProductIds(items), CentsOfProduct(Aggregated(items))) == Sum(items, InputCents())
  {
    var aggregates, listed := Aggregated(items), ProductIds(items);
    forall i | 0 <= i < |listed| ensures CentsOfProduct(aggregates)(listed[i]) == InputCents()(items[i]) {
      AggregateOfDistinct(items, i);
    }
    SumPointwise(listed, items, CentsOfProduct(aggregates), InputCents());
  }

  lemma {:induction false} SameProducts(items: seq<ItemInput>)
    requires DistinctInputs(items)
    ensures multiset(Sorted(Aggregated(items).Keys)) == multiset(ProductIds(items))
  {
    assert Aggregated(items).Keys == ProductsOf(items);
    var ids, listed := Sorted(ProductsOf(items)), ProductIds(items);
    forall p ensures p in ids <==> p in listed { ListedProduct(items, p); }
    SameElementsPermuted(ids, listed);
  }

  lemma {:induction false} ListedProduct(items: seq<ItemInput>, p: Uuid)
    ensures p in ProductsOf(items) <==> p in ProductIds(items)
  {
    if i :| 0 <= i < |items| && items[i].product == p {
      assert ProductIds(items)[i] == p;
    }
  }

  lemma {:induction false} AggregatePriced(items: seq<ItemInput>, p: Uuid)
    requires Aggregable(items, true) && p in ProductsOf(items)
    ensures AggregateOf(items, p).unitPrice.Some? && AggregateOf(items, p).unitPrice.value > 0
  {
    assert ItemAccepted(items[FirstWhere(items, IsOf(p))], true);
  }

  lemma {:induction false} LineOfAggregate(products: map<Uuid, Product>, items: seq<ItemInput>, j: nat)
    requires Aggregable(items, true) && AggregatesSound(Aggregated(items))
    requires ResolveLines(products, Aggregated(items), true).Ok? && j < |Sorted(Aggregated(items).Keys)|
    ensures var aggregates := Aggregated(items);
            var lines := ResolveLines(products, aggregates, true).value;
            var p := Sorted(aggregates.Keys)[j];
            j < |lines| && p in aggregates
              && LineValue()(lines[j]) == Cents(aggregates[p].unitPrice, aggregates[p].quantity)
  {
    var aggregates := Aggregated(items);
    var ids := Sorted(aggregates.Keys);
    assert ids[j] in ids;
    AggregatePriced(items, ids[j]);
    NoProblemMeansKnown(products, aggregates, ids, true);
    LineOfId(products, aggregates, ids, j);
  }

  lemma {:induction false} LineOfId(products: map<Uuid, Product>, aggregates: map<Uuid, Aggregate>, ids: seq<Uuid>,
      j: nat)
    requires AggregatesSound(aggregates) && j < |ids| && forall id :: id in ids ==> id in aggregates && id in products
    requires aggregates[ids[j]].unitPrice.Some?
    ensures LineValue()(LinesOf(products, aggregates, ids, true)[j]) ==
              Cents(aggregates[ids[j]].unitPrice, aggregates[ids[j]].quantity)
  {
  }

  // ---------- The till's total ----------

  predicate Sellable(items: seq<LocalItem>) {
    PositiveItems(items) && DistinctItems(items) && forall i :: 0 <= i < |items| ==> items[i].unitPrice > 0
  }

  /** A line total as the till computes it from its price and quantity. */
  predicate TillTotals(items: seq<LocalItem>) {
    forall i :: 0 <= i < |items| ==> items[i].lineTotal == TruncatedLineTotal(items[i].unitPrice, ItemMilli(items[i]))
  }

  /** By how much the server's line exceeds the till's, in cents. */
  function ItemGap(item: LocalItem): int {
    if item.unitPrice >= 0 && ItemMilli(item) >= 0 then LineGap(item.unitPrice, ItemMilli(item)) else 0
  }

  function GapOfItem(): LocalItem -> int {
    (item: LocalItem) => ItemGap(item)
  }

  function TillCents(): LocalItem -> int {
    (item: LocalItem) => ToCents(item.lineTotal)
  }

  function ServerCents(): LocalItem -> int {
    (item: LocalItem) => ItemGap(item) + ToCents(item.lineTotal)
  }

  lemma {:induction false} ScaledSum<T>(rows: seq<T>, f: T -> int, g: T -> int)
    requires forall i :: 0 <= i < |rows| ==> g(rows[i]) == ToCents(f(rows[i]))
    ensures Sum(rows, g) == ToCents(Sum(rows, f))
  {
    if |rows| > 0 { ScaledSum(rows[..|rows| - 1], f, g); }
  }

  lemma {:induction false} PayloadCents(item: LocalItem)
    requires item.unitPrice > 0 && ItemMilli(item) > 0
               && item.lineTotal == TruncatedLineTotal(item.unitPrice, ItemMilli(item))
    ensures InputCents()(ItemPayload(item)) == ServerCents()(item)
  {
    assert ToCents(item.unitPrice) == CENTS_PER_FCFA * item.unitPrice;
    assert item.unitPrice * ItemMilli(item) > 0;
    assert InputCents()(ItemPayload(item)) == LineCents(CENTS_PER_FCFA * item.unitPrice, ItemMilli(item));
    assert item.lineTotal == TillLineTotal(item.unitPrice, ItemMilli(item));
  }

  lemma {:induction false} ServerTotalIsTillTotalPlusGaps(items: seq<LocalItem>)
    requires Sellable(items) && TillTotals(items)
    ensures Sum(ItemPayloads(items), InputCents()) == ToCents(Sum(items, LocalLineTotals())) + Sum(items, GapOfItem())
  {
    forall i | 0 <= i < |items| ensures InputCents()(ItemPayloads(items)[i]) == ServerCents()(items[i]) {
      PayloadCents(items[i]);
    }
    SumPointwise(ItemPayloads(items), items, InputCents(), ServerCents());
    SumSplit(items, ServerCents(), GapOfItem(), TillCents());
    ScaledSum(items, LocalLineTotals(), TillCents());
  }

  // ---------- Legs ----------

  /** What the payment screen guarantees: positive legs, cash received at least due. */
  predicate FairLeg(leg: LocalLeg) {
    leg.amount > 0 && (leg.paidBy.Cash? ==> OrElse(leg.received, 0) >= leg.amount)
  }

  predicate FairLegs(legs: seq<LocalLeg>) {
    forall i :: 0 <= i < |legs| ==> FairLeg(legs[i])
  }

  lemma {:induction false} LegsAgree(legs: seq<LocalLeg>)
    requires FairLegs(legs)
    ensures var sent := LegPayloads(LocalPaymentsOf(legs));
            && |sent| == |legs|
            && Sum(sent, LegAmounts()) == ToCents(Sum(legs, LocalAmounts()))
            && (forall leg :: leg in sent ==> LegAccepted(leg))
            && ((forall leg :: leg in sent ==> !GivesChange(leg)) <==>
              forall i :: 0 <= i < |legs| ==> !HandsChange(legs[i]))
  {
    var sent := LegPayloads(LocalPaymentsOf(legs));
    forall i | 0 <= i < |legs|
      ensures LegAccepted(sent[i]) && sent[i].amount == ToCents(legs[i].amount)
      ensures GivesChange(sent[i]) <==> HandsChange(legs[i])
    {
      assert FairLeg(legs[i]) && sent[i] == LegPayload(LocalPaymentOf(legs[i]));
    }
    assert forall i :: 0 <= i < |sent| ==> sent[i] in sent;
    CentsOfLegs(legs, sent);
  }

  lemma {:induction false} CentsOfLegs(legs: seq<LocalLeg>, sent: seq<Leg>)
    requires |sent| == |legs| && forall i :: 0 <= i < |legs| ==> sent[i].amount == ToCents(legs[i].amount)
    ensures Sum(sent, LegAmounts()) == ToCents(Sum(legs, LocalAmounts()))
  {
    if |legs| > 0 { CentsOfLegs(legs[..|legs| - 1], sent[..|sent| - 1]); }
  }

  lemma {:induction false} SettlesWhenTotalsAgree(legs: seq<LocalLeg>, total: int, credit: int, serverTotal: int)
    requires FairLegs(legs) && LocallySettles(legs, total, credit)
    ensures Settles(serverTotal, LegPayloads(LocalPaymentsOf(legs)), ToCents(credit)) <==> serverTotal == ToCents(total)
  {
    LegsAgree(legs);
    assert forall i :: 0 <= i < |legs| ==> FairLeg(legs[i]) && LocalAmounts()(legs[i]) >= 0;
    SumNonneg(legs, LocalAmounts());
  }

  // ---------- The agreement ----------

  /** A sale the till accepts passes the server's payment rule if and only if the
      rounding gaps of its lines add up to zero. */
  lemma {:induction false} TillSaleSettlesIff(t: Till, x: SaleInput, stamp: Stamp, db: Db)
    requires CreateSpec(t, x, stamp).Ok?
    requires Sellable(CreateSpec(t, x, stamp).value.1.items) && FairLegs(x.legs)
    requires var e := ToSyncEvent(CreateSpec(t, x, stamp).value.1); RequestLines(db, e.items, TermsOf(e), true).Ok?
    ensures var sale := CreateSpec(t, x, stamp).value.1;
            var e := ToSyncEvent(sale);
            var serverTotal := Sum(RequestLines(db, e.items, TermsOf(e), true).value, LineValue());
            Settles(serverTotal, e.legs, e.credit) <==> Sum(sale.items, GapOfItem()) == 0
  {
    var sale := CreateSpec(t, x, stamp).value.1;
    CreatedTotals(t, x, stamp);
    var e := ToSyncEvent(sale);
    assert DistinctInputs(e.items);
    LinesTotalItems(db, e);
    ServerTotalIsTillTotalPlusGaps(sale.items);
    SettlesWhenTotalsAgree(x.legs, Sum(sale.items, LocalLineTotals()), x.credit,
                           Sum(RequestLines(db, e.items, TermsOf(e), true).value, LineValue()));
  }

  lemma {:induction false} CreatedTotals(t: Till, x: SaleInput, stamp: Stamp)
    requires CreateSpec(t, x, stamp).Ok?
    ensures var sale := CreateSpec(t, x, stamp).value.1;
            && TillTotals(sale.items)
            && LocallySettles(x.legs, Sum(sale.items, LocalLineTotals()), x.credit)
            && ToSyncEvent(sale).legs == LegPayloads(LocalPaymentsOf(x.legs))
            && ToSyncEvent(sale).credit == ToCents(x.credit)
            && ToSyncEvent(sale).items == ItemPayloads(sale.items)
  {
    ItemsKnown(t.products, x.store, x.lines);
  }

  /** Goods sold by the unit therefore always settle. */
  lemma {:induction false} WholeUnitSalesSettle(items: seq<LocalItem>)
    requires Sellable(items) && forall i :: 0 <= i < |items| ==> ItemMilli(items[i]) % QUANTITY_SCALE == 0
    ensures Sum(items, GapOfItem()) == 0
  {
    forall i | 0 <= i < |items| ensures GapOfItem()(items[i]) == 0 {
      var units := ItemMilli(items[i]) / QUANTITY_SCALE;
      assert ItemMilli(items[i]) == QUANTITY_SCALE * units;
      WholeUnitsAgree(items[i].unitPrice, units);
    }
    SumZero(items, GapOfItem());
  }

  /** A kilo and a half at 333 FCFA a kilo: 500 FCFA at the till, 499.50 on the server. */
  lemma {:induction false} WeighedGoodsMayNotSettle()
    ensures TillLineTotal(333, 1500) == 500 && LineCents(33300, 1500) == 49950 && LineGap(333, 1500) == -50
  {
    LineCentsOfFcfa(333, 1500);
  }
}
