/** Runs of one small shop, from nothing: one product sold by weight, one customer, one
    cashier. Prices, weights and stock are left open. */
module Shop {
  import opened Sums
  import opened Rounding
  import opened Tables
  import opened CashDesk
  import opened Sales
  import opened Expenses
  import opened Sync
  import opened Services
  import opened Histories
  import opened LocalTables
  import opened LocalSales
  import opened Catalogue
  import opened SyncEngine
  import opened Replay
  import opened Protocol

  const STORE: Uuid := 4
  const CASHIER: Uuid := 5
  const SESSION: Uuid := 1
  const RICE: Uuid := 3
  const AWA: Uuid := 9
  const RICE_KEY: StockKey := StockKey(STORE, RICE)

  // ---------- Opening the shop ----------

  function Rice(price: nat): Product {
    Product("Riz", ToCents(price), None, Kg, true)
  }

  function Furnish(price: nat): Command {
    Administer(map[RICE := Rice(price)], map[AWA := Customer(STORE, true)], map[6 := Category(true, false)],
               map[2 := Register(STORE, true, true)], {(CASHIER, STORE)})
  }

  /** The shop is open, has some stock of rice and has sold nothing yet. */
  predicate Ready(db: Db, price: nat, lot: int) {
    && db == Step(EMPTY, Furnish(price)).(sessions := map[SESSION := Session(2, STORE, CASHIER, 0, Open)], book :=
      db.book)
    && RowAt(db.book.rows, RICE_KEY).quantity == lot
  }

  lemma {:induction false} Opens(db: Db, price: nat)
    requires db == Step(EMPTY, Furnish(price))
    ensures Step(db, OpenSession(SESSION, 2, CASHIER, 0)) ==
              db.(sessions := map[SESSION := Session(2, STORE, CASHIER, 0, Open)])
  {
  }

  lemma {:induction false} Stocks(db: Db, price: nat, lot: Units)
    requires Ready(db, price, 0)
    ensures Ready(Step(db, Receive(STORE, RICE, lot, None)), price, lot)
  {
    var after := Step(db, Receive(STORE, RICE, lot, None));
    assert db.products == map[RICE := Rice(price)];
    assert after.products == db.products;
  }

  function OpeningCommands(price: nat, lot: Units): seq<Command> {
    [Furnish(price), OpenSession(SESSION, 2, CASHIER, 0), Receive(STORE, RICE, lot, None)]
  }

  lemma {:induction false} OpenedShop(price: nat, lot: Units)
    ensures Ready(Run(EMPTY, OpeningCommands(price, lot)), price, lot)
  {
    var cs := OpeningCommands(price, lot);
    RunPush(EMPTY, [], cs[0]);
    RunPush(EMPTY, [cs[0]], cs[1]);
    RunPush(EMPTY, [cs[0], cs[1]], cs[2]);
    assert [] + [cs[0]] == [cs[0]] && [cs[0]] + [cs[1]] == [cs[0], cs[1]] && [cs[0], cs[1]] + [cs[2]] == cs;
    var furnished := Run(EMPTY, [cs[0]]);
    Opens(furnished, price);
    Stocks(Run(EMPTY, [cs[0], cs[1]]), price, lot);
  }

  // ---------- A sale put on the book at the till ----------

  function PriceList(price: nat, lot: Units): seq<ServerProduct> {
    [ServerProduct(RICE, "Riz", CENTS_PER_FCFA * price, Some(Kg), lot, true)]
  }

  function CachedRice(price: nat, lot: Units): LocalProduct {
    LocalProduct("Riz", price, Some(Kg), true, Known(lot), Absent, Some(0), None)
  }

  /** The till after its first refresh. */
  function StockedTill(price: nat, lot: Units): Till {
    Till(map[RICE_KEY := CachedRice(price, lot)], map[], map[])
  }

  function Purchase(price: nat, milli: nat): SaleInput {
    SaleInput(SESSION, STORE, [CartLine(RICE, Some(milli), None, None)], [], TillLineTotal(price, milli), Some(AWA))
  }

  function RiceItem(price: nat, milli: nat): LocalItem {
    LocalItem(RICE, "Riz", price, Some(price), Some(Kg), Some(milli), Some(milli), TillLineTotal(price, milli))
  }

  function RiceSale(price: nat, milli: nat): LocalSale {
    LocalSale(7, None, 70, SESSION, STORE, 0, PendingSync, None, [RiceItem(price, milli)], [],
              Some(TillLineTotal(price, milli)), Some(AWA), TillLineTotal(price, milli))
  }

  function RiceEvent(price: nat, milli: nat): SyncEvent {
    SyncEvent(70, 7, 0, SESSION, [RiceInput(price, milli)], [], Some(AWA), ToCents(TillLineTotal(price, milli)))
  }

  function RiceInput(price: nat, milli: nat): ItemInput {
    ItemInput(RICE, "Riz", milli, Some(ToCents(price)), Some(ToCents(price)))
  }

  /** A purchase worth at least one FCFA, that the stock covers. */
  predicate Sells(price: nat, milli: nat, lot: Units) {
    price > 0 && 0 < milli <= lot && TillLineTotal(price, milli) > 0
  }

  lemma {:induction false} Refreshes(price: nat, lot: Units)
    ensures RefreshSpec(Till(map[], map[], map[]), STORE, PriceList(price, lot)) == Ok(StockedTill(price, lot))
  {
    var t, cs := Till(map[], map[], map[]), PriceList(price, lot);
    assert cs[..0] == [];
    assert Built(t, STORE, cs[..0]) == Ok(map[]);
    assert (CENTS_PER_FCFA * price) % 100 == 0 && (CENTS_PER_FCFA * price) / 100 == price;
    assert !Mentioned(t.sales, RICE_KEY);
    assert CachedProduct(cs[0], 0) == CachedRice(price, lot);
    assert Built(t, STORE, cs) == Ok(map[RICE_KEY := CachedRice(price, lot)]);
    assert Elsewhere(t.products, STORE) == map[];
    assert map[] + map[RICE_KEY := CachedRice(price, lot)] == StockedTill(price, lot).products;
  }

  lemma {:induction false} RiceItems(price: nat, milli: nat, lot: Units)
    requires Sells(price, milli, lot)
    ensures ItemsOf(StockedTill(price, lot).products, STORE, Purchase(price, milli).lines) ==
              Ok([RiceItem(price, milli)])
  {
    var products, lines := StockedTill(price, lot).products, Purchase(price, milli).lines;
    assert lines[..0] == [];
    assert ItemsOf(products, STORE, lines[..0]) == Ok([]);
    assert LineProblem(products, STORE, lines[0]) == None;
    assert price * milli >= 0;
    assert TruncatedLineTotal(price, milli) == TillLineTotal(price, milli);
    var item := ItemOf(CachedRice(price, lot), lines[0]);
    assert item == RiceItem(price, milli);
    assert products[RICE_KEY] == CachedRice(price, lot) && lines[0].product == RICE;
    assert |lines| == 1 && lines[..|lines| - 1] == [];
    assert ItemsOf(products, STORE, lines) == Ok([] + [item]);
    assert [] + [item] == [RiceItem(price, milli)];
  }

  lemma {:induction false} Records(t: Till, price: nat, milli: nat, lot: Units)
    requires Sells(price, milli, lot) && t == StockedTill(price, lot).(customers := t.customers)
    ensures var r := CreateSpec(t, Purchase(price, milli), Stamp(7, 70, 0));
            r.Ok? && r.value.1 == RiceSale(price, milli) && r.value.0.sales == map[7 := RiceSale(price, milli)]
            && r.value.0.customers == t.customers && IndexHolds(r.value.0) && RICE_KEY in r.value.0.products
  {
    RiceItems(price, milli, lot);
    SumOne(RiceItem(price, milli), LocalLineTotals());
    assert Sum([], LocalAmounts()) == 0;
    assert LocalPaymentsOf([]) == [];
    CreateKeepsIndexIffDistinct(t, Purchase(price, milli), Stamp(7, 70, 0));
    RaisedKeys(t.products, STORE, [RiceItem(price, milli)]);
  }

  lemma {:induction false} RiceEventOf(price: nat, milli: nat)
    requires TillLineTotal(price, milli) > 0 && price > 0
    ensures ToSyncEvent(RiceSale(price, milli)) == RiceEvent(price, milli)
  {
    assert ItemPayloads([RiceItem(price, milli)]) == [RiceInput(price, milli)];
    assert LegPayloads([]) == [];
  }

  // ---------- What the server makes of it ----------

  lemma {:induction false} OneProduct(item: ItemInput)
    requires item.product == RICE
    ensures Aggregated([item]) == map[RICE := Aggregate(item.quantity, item.unitPrice, item.name, item.catalogPrice)]
    ensures Sorted({RICE}) == [RICE]
  {
    SumOne(item, QuantityOf(RICE));
    assert ProductsOf([item]) == {RICE} by { assert [item][0].product == RICE; }
    assert {RICE} - {Least({RICE})} == {};
  }

  /** The single line the server makes of a single item, online or not. */
  lemma {:induction false} OneLine(db: Db, item: ItemInput, t: SaleTerms, price: nat, offline: bool)
    requires db.products == map[RICE := Rice(price)] && price > 0
    requires t.session in db.sessions && db.sessions[t.session].status.Open?
    requires item.product == RICE && item.name == "Riz" && ItemAccepted(item, offline)
    requires item.unitPrice.Some? ==> item.unitPrice == Some(ToCents(price))
    requires item.catalogPrice.Some? ==> item.catalogPrice == Some(ToCents(price))
    ensures RequestLines(db, [item], t, offline) ==
              Ok([Line(RICE, "Riz", ToCents(price), ToCents(price), item.quantity)])
  {
    OneProduct(item);
    var aggregates := Aggregated([item]);
    assert Aggregable([item], offline);
    AggregatedSound([item], offline);
    assert aggregates.Keys == {RICE};
    assert [RICE][..0] == [];
    assert ProductProblem(db.products, aggregates, [RICE], offline).None?;
    assert LinesOf(db.products, aggregates, [RICE], offline)
        == [Line(RICE, "Riz", ToCents(price), ToCents(price), item.quantity)];
  }

  lemma {:induction false} SettlesIffNoGap(price: nat, milli: nat)
    requires price > 0 && milli > 0 && TillLineTotal(price, milli) > 0
    ensures Sum([Line(RICE, "Riz", ToCents(price), ToCents(price), milli)], LineValue()) ==
              LineCents(ToCents(price), milli)
    ensures Settles(LineCents(ToCents(price), milli), [], ToCents(TillLineTotal(price, milli))) <==>
              LineGap(price, milli) == 0
  {
    SumOne(Line(RICE, "Riz", ToCents(price), ToCents(price), milli), LineValue());
    assert ToCents(price) == CENTS_PER_FCFA * price;
    assert Sum([], LegAmounts()) == 0;
  }

  /** The server accepts the sale if and only if its rounding and the till's agree. */
  lemma {:induction false} ServerAnswer(db: Db, price: nat, milli: nat, lot: int)
    requires Ready(db, price, lot) && price > 0 && milli > 0 && TillLineTotal(price, milli) > 0
    ensures var e := RiceEvent(price, milli);
            && Unseen(db, e)
            && (Accepted(db, e, CASHIER) <==> LineGap(price, milli) == 0)
            && Process(db, e, CASHIER).1 == if LineGap(price, milli) == 0 then Synced(7) else Rejected(InvalidSale)
  {
    var e := RiceEvent(price, milli);
    OneLine(db, RiceInput(price, milli), TermsOf(e), price, true);
    SettlesIffNoGap(price, milli);
    ProcessUnseen(db, e, CASHIER);
    if LineGap(price, milli) != 0 { Refused(db, e, price, milli); }
  }

  lemma {:induction false} Refused(db: Db, e: SyncEvent, price: nat, milli: nat)
    requires Unseen(db, e) && e == RiceEvent(price, milli) && !Valid(db, e)
    requires e.session in db.sessions && MayPush(db, e.session, CASHIER)
    requires RequestLines(db, e.items, TermsOf(e), true).Ok?
    requires CreditCustomer(db.customers, e.customer, db.sessions[e.session].store, e.credit, true).None?
    requires e.credit >= 0
    ensures Process(db, e, CASHIER).1 == Rejected(InvalidSale)
  {
    FrozenTotal(db.book.rows, db.sessions[e.session].store, RequestLines(db, e.items, TermsOf(e), true).value);
  }

  // ---------- The sale recorded and put in a batch ----------

  function EmptySystem(): System {
    System([], EMPTY, map[0 := Till(map[], map[], map[])], {}, map[], {}, {})
  }

  function OpeningMoves(price: nat, lot: Units): seq<Move> {
    var cs := OpeningCommands(price, lot);
    [Serve(cs[0]), Serve(cs[1]), Serve(cs[2]), RefreshCatalogue(0, STORE, PriceList(price, lot))]
  }

  function SellingMoves(price: nat, milli: nat, lot: Units): seq<Move> {
    OpeningMoves(price, lot) + [Record(0, Purchase(price, milli), Stamp(7, 70, 0))] + [Batch(0, 7)]
  }

  lemma {:induction false} ServesAll(s: System, c: Command)
    requires !Replays(c) && !c.Sell?
    ensures Possible(s, Serve(c)) && Next(s, Serve(c)) == s.(log := s.log + [c], server := Step(s.server, c))
  {
  }

  /** The balances cached on the till: none, or Awa's. */
  type Balances = map<(Uuid, Uuid), int>

  /** The shop is open and the till has its catalogue. */
  ghost predicate Opened(s: System, cached: Balances, price: nat, lot: Units) {
    && Ready(s.server, price, lot)
    && s == System(s.log, s.server, map[0 := StockedTill(price, lot).(customers := cached)], {}, map[], {}, {})
  }

  lemma {:induction false} OpeningRun(s: System, price: nat, lot: Units)
    requires s == EmptySystem()
    ensures Initial(s) && Feasible(s, OpeningMoves(price, lot))
    ensures Opened(After(s, OpeningMoves(price, lot)), map[], price, lot)
  {
    var cs, ms := OpeningCommands(price, lot), OpeningMoves(price, lot);
    Serves(s, cs[0], cs[1], cs[2]);
    OpeningServer(price, lot);
    Refreshes(price, lot);
    AfterPush(s, [] + [ms[0]] + [ms[1]] + [ms[2]], ms[3]);
    assert [] + [ms[0]] + [ms[1]] + [ms[2]] + [ms[3]] == ms;
  }

  lemma {:induction false} Serves(s: System, a: Command, b: Command, c: Command)
    requires !Replays(a) && !a.Sell? && !Replays(b) && !b.Sell? && !Replays(c) && !c.Sell?
    ensures var ms := [] + [Serve(a)] + [Serve(b)] + [Serve(c)];
            && Feasible(s, ms)
            && After(s, ms) == s.(log := s.log + [a] + [b] + [c], server := Step(Step(Step(s.server, a), b), c))
  {
    ServesAll(s, a);
    AfterPush(s, [], Serve(a));
    ServesAll(After(s, [] + [Serve(a)]), b);
    AfterPush(s, [] + [Serve(a)], Serve(b));
    ServesAll(After(s, [] + [Serve(a)] + [Serve(b)]), c);
    AfterPush(s, [] + [Serve(a)] + [Serve(b)], Serve(c));
  }

  lemma {:induction false} OpeningServer(price: nat, lot: Units)
    ensures var cs := OpeningCommands(price, lot);
            Ready(Step(Step(Step(EMPTY, cs[0]), cs[1]), cs[2]), price, lot)
  {
    var cs := OpeningCommands(price, lot);
    Opens(Step(EMPTY, cs[0]), price);
    Stocks(Step(Step(EMPTY, cs[0]), cs[1]), price, lot);
  }

  /** The sale waits on the till and its event is in a batch. */
  ghost predicate Waiting(s: System, cached: Balances, price: nat, milli: nat, lot: Units) {
    && SystemInv(s) && Ready(s.server, price, lot)
    && s.tills.Keys == {0} && s.tills[0].sales == map[7 := RiceSale(price, milli)] && s.tills[0].customers == cached
    && IndexHolds(s.tills[0]) && RICE_KEY in s.tills[0].products
    && s.issued == map[7 := RiceEvent(price, milli)] && s.sent == {RiceEvent(price, milli)}
  }

  lemma {:induction false} Sold(s: System, cached: Balances, price: nat, milli: nat, lot: Units)
    requires Opened(s, cached, price, lot) && Sells(price, milli, lot)
    ensures var m := Record(0, Purchase(price, milli), Stamp(7, 70, 0));
            && Possible(s, m) && Possible(Next(s, m), Batch(0, 7))
            && var after := Next(Next(s, m), Batch(0, 7));
               && after.server == s.server && after.tills.Keys == {0}
               && after.tills[0].sales == map[7 := RiceSale(price, milli)] && after.tills[0].customers == cached
               && IndexHolds(after.tills[0]) && RICE_KEY in after.tills[0].products
               && after.issued == map[7 := RiceEvent(price, milli)] && after.sent == {RiceEvent(price, milli)}
  {
    Records(s.tills[0], price, milli, lot);
    RiceEventOf(price, milli);
  }

  lemma {:induction false} SellingRun(s: System, price: nat, milli: nat, lot: Units)
    requires s == EmptySystem() && Sells(price, milli, lot)
    ensures Initial(s) && Feasible(s, SellingMoves(price, milli, lot))
    ensures Waiting(After(s, SellingMoves(price, milli, lot)), map[], price, milli, lot)
  {
    var ms := OpeningMoves(price, lot);
    var m := Record(0, Purchase(price, milli), Stamp(7, 70, 0));
    OpeningRun(s, price, lot);
    Sold(After(s, ms), map[], price, milli, lot);
    AfterPush(s, ms, m);
    AfterPush(s, ms + [m], Batch(0, 7));
    InitialSound(s);
    EveryStateSound(s, SellingMoves(price, milli, lot));
  }

  // ---------- A cancelled sale that is on the server ----------

  /** The only till has the sale pending, the server would book it, a request carries it. */
  ghost predicate Sendable(s: System, e: SyncEvent) {
    && SystemInv(s) && s.tills.Keys == {0} && 7 in s.tills[0].sales && s.tills[0].sales[7].status.PendingSync?
    && s.issued[7] == e && e in s.sent && !Holds(s.server, 7) && Accepted(s.server, e, CASHIER)
  }

  lemma {:induction false} WaitingIsSendable(s: System, price: nat, milli: nat, lot: Units)
    requires 0 in s.tills && Waiting(s, s.tills[0].customers, price, milli, lot) && Sells(price, milli, lot)
               && LineGap(price, milli) == 0
    ensures Sendable(s, RiceEvent(price, milli))
  {
    ServerAnswer(s.server, price, milli, lot);
  }

  /** From an empty shop: the request is delivered, its answer lost, and the sale
      cancelled. It is on no till, and on the server. */
  lemma {:induction false} LostAnswerThenCancel(s: System, price: nat, milli: nat, lot: Units)
    requires s == EmptySystem() && Sells(price, milli, lot) && LineGap(price, milli) == 0
    ensures var ms :=
              SellingMoves(price, milli, lot) + [Deliver(RiceEvent(price, milli), CASHIER)] + [CancelLocally(0, 7)];
            Initial(s) && Feasible(s, ms) && Nowhere(After(s, ms), 7) && Holds(After(s, ms).server, 7)
  {
    SellingRun(s, price, milli, lot);
    var ms, e := SellingMoves(price, milli, lot), RiceEvent(price, milli);
    WaitingIsSendable(After(s, ms), price, milli, lot);
    CancelledAfterDelivery(After(s, ms), 0, 7, CASHIER);
    AfterPush(s, ms, Deliver(e, CASHIER));
    AfterPush(s, ms + [Deliver(e, CASHIER)], CancelLocally(0, 7));
  }

  /** The same with the request arriving after the cancellation. */
  lemma {:induction false} CancelThenLateRequest(s: System, price: nat, milli: nat, lot: Units)
    requires s == EmptySystem() && Sells(price, milli, lot) && LineGap(price, milli) == 0
    ensures var ms :=
              SellingMoves(price, milli, lot) + [CancelLocally(0, 7)] + [Deliver(RiceEvent(price, milli), CASHIER)];
            Initial(s) && Feasible(s, ms) && Nowhere(After(s, ms), 7) && Holds(After(s, ms).server, 7)
  {
    SellingRun(s, price, milli, lot);
    var ms, e := SellingMoves(price, milli, lot), RiceEvent(price, milli);
    WaitingIsSendable(After(s, ms), price, milli, lot);
    DeliveredAfterCancel(After(s, ms), 0, 7, CASHIER);
    AfterPush(s, ms, CancelLocally(0, 7));
    AfterPush(s, ms + [CancelLocally(0, 7)], Deliver(e, CASHIER));
  }

  /** Prices and weights for which till and server agree, and do not: a kilo at 500 FCFA,
      a kilo and a half at 333. */
  lemma {:induction false} SomeWeights()
    ensures Sells(500, 1000, 10_000) && LineGap(500, 1000) == 0
    ensures Sells(333, 1500, 10_000) && LineGap(333, 1500) == -50
  {
    LineCentsOfFcfa(500, 1000);
    LineCentsOfFcfa(333, 1500);
  }

  /** A sale the till accepted and the server refuses: exactly when the rounding differs,
      as for a kilo and a half at 333 FCFA. */
  lemma {:induction false} WeighedSaleRefused(s: System, price: nat, milli: nat, lot: Units)
    requires s == EmptySystem() && Sells(price, milli, lot)
    ensures var ms := SellingMoves(price, milli, lot);
            && Initial(s) && Feasible(s, ms) && Possible(After(s, ms), Deliver(RiceEvent(price, milli), CASHIER))
            && Process(After(s, ms).server, RiceEvent(price, milli), CASHIER).1 ==
               if LineGap(price, milli) == 0 then Synced(7) else Rejected(InvalidSale)
  {
    SellingRun(s, price, milli, lot);
    ServerAnswer(After(s, SellingMoves(price, milli, lot)).server, price, milli, lot);
  }

  // ---------- A sale marked, then refused ----------

  /** A marked sale refused afterwards: its status reverts and the index breaks. */
  lemma {:induction false} MarkedThenRefused(t: Till, id: Uuid, price: nat, milli: nat, lot: Units, code: Code)
    requires id == 7 && Sells(price, milli, lot) && t.sales == map[id := RiceSale(price, milli)]
    requires IndexHolds(t) && RICE_KEY in t.products
    ensures var marked := SyncedTill(t, id, id);
            var refused := ConflictTill(marked, id, code);
            && id in marked.sales && marked.sales[id].status.SyncDone? && IndexHolds(marked)
            && id in refused.sales && refused.sales[id].status.InConflict? && !IndexHolds(refused)
  {
    var sale, marked := RiceSale(price, milli), SyncedTill(t, id, id);
    RiceSold(price, milli, lot);
    assert ValidQuantities(t.sales);
    SyncedKeepsIndex(t, id, id);
    ConflictKeepsIndexIff(marked, id, code);
    assert RICE_KEY in marked.products && marked.sales[id].items == sale.items && marked.sales[id].store == STORE;
  }

  lemma {:induction false} RiceSold(price: nat, milli: nat, lot: Units)
    requires Sells(price, milli, lot)
    ensures PositiveItems(RiceSale(price, milli).items) && LocalTables.Sold(RiceSale(price, milli).items, RICE) == milli
  {
    SumOne(RiceItem(price, milli), MilliOf(RICE));
  }

  // ---------- A cart with the same product twice ----------

  function TwicePurchase(price: nat, milli: nat): SaleInput {
    Purchase(price, milli).(
      lines := [CartLine(RICE, Some(milli), None, None), CartLine(RICE, Some(milli), None, None)],
      credit := 2 * TillLineTotal(price, milli))
  }

  /** Two lines of one product: the till records the sale and its counter is wrong. */
  lemma {:induction false} DuplicateCart(t: Till, price: nat, milli: nat, lot: Units)
    requires t == StockedTill(price, lot) && Sells(price, milli, lot)
    ensures IndexHolds(t)
    ensures var r := CreateSpec(t, TwicePurchase(price, milli), Stamp(7, 70, 0));
            r.Ok? && !IndexHolds(r.value.0)
  {
    var x := TwicePurchase(price, milli);
    var item := RiceItem(price, milli);
    RiceItems(price, milli, lot);
    assert x.lines[..1] == Purchase(price, milli).lines;
    assert [item] + [item] == [item, item];
    assert ItemsOf(t.products, STORE, x.lines) == Ok([item, item]);
    SumOne(item, LocalLineTotals());
    SumPush([item], item, LocalLineTotals());
    assert LocalPaymentsOf([]) == [];
    CreateKeepsIndexIffDistinct(t, x, Stamp(7, 70, 0));
  }

  // ---------- A stock below zero ----------

  /** What the server lists of the product. */
  function PriceListOf(db: Db): seq<ServerProduct>
    requires RICE in db.products
  {
    var p := db.products[RICE];
    [ServerProduct(RICE, p.name, p.sellingPrice, Some(p.saleUnit), RowAt(db.book.rows, RICE_KEY).quantity, p.active)]
  }

  lemma {:induction false} Counted(db: Db, price: nat, lot: int, counted: nat)
    requires Ready(db, price, lot)
    ensures Ready(Step(db, CountStock(STORE, RICE, counted)), price, counted)
  {
    assert db.products == map[RICE := Rice(price)];
  }

  /** The server books the late sale whatever is left. */
  lemma {:induction false} BookedBelowZero(db: Db, price: nat, milli: nat, counted: nat)
    requires Ready(db, price, counted) && price > 0 && milli > 0 && TillLineTotal(price, milli) > 0
    requires LineGap(price, milli) == 0
    ensures var after := Process(db, RiceEvent(price, milli), CASHIER).0;
            after.products == map[RICE := Rice(price)] && RowAt(after.book.rows, RICE_KEY).quantity == counted - milli
  {
    var e := RiceEvent(price, milli);
    ServerAnswer(db, price, milli, counted);
    ProcessUnseen(db, e, CASHIER);
    OneLine(db, RiceInput(price, milli), TermsOf(e), price, true);
    StockAfterSale(db, TermsOf(e), [RiceLine(price, milli)], true);
  }

  lemma {:induction false} ListRefused(t: Till, db: Db, price: nat)
    requires db.products == map[RICE := Rice(price)] && RowAt(db.book.rows, RICE_KEY).quantity < 0
    ensures RefreshSpec(t, STORE, PriceListOf(db)) == Err(InvalidQuantity)
  {
    var cs := PriceListOf(db);
    assert cs[..0] == [];
    assert (CENTS_PER_FCFA * price) % 100 == 0 && ToCents(price) == CENTS_PER_FCFA * price;
    assert Built(t, STORE, cs[..0]) == Ok(map[]);
    assert Unreadable(cs[0]) == Some(InvalidQuantity);
  }

  function OversellingMoves(price: nat, milli: nat, lot: Units, counted: nat): seq<Move> {
    SellingMoves(price, milli, lot) + [Serve(CountStock(STORE, RICE, counted))]
    + [Deliver(RiceEvent(price, milli), CASHIER)]
  }

  /** From an empty shop: the stock is counted down while the till is offline, and its sale
      arrives. The stock is below zero, and the till refuses the price list of the store. */
  lemma {:induction false} OversoldListRefused(s: System, price: nat, milli: nat, lot: Units, counted: nat)
    requires s == EmptySystem() && Sells(price, milli, lot) && LineGap(price, milli) == 0 && counted < milli
    ensures Initial(s) && Feasible(s, OversellingMoves(price, milli, lot, counted))
    ensures Blocked(After(s, OversellingMoves(price, milli, lot, counted)), counted - milli)
  {
    var ms, count := SellingMoves(price, milli, lot), CountStock(STORE, RICE, counted);
    SellingRun(s, price, milli, lot);
    CountedDown(After(s, ms), price, lot, counted);
    AfterPush(s, ms, Serve(count));
    Oversold(After(s, ms + [Serve(count)]), price, milli, counted);
    AfterPush(s, ms + [Serve(count)], Deliver(RiceEvent(price, milli), CASHIER));
  }

  /** A stock below zero, and a price list the till refuses. */
  ghost predicate Blocked(s: System, quantity: int) {
    && RICE in s.server.products && RowAt(s.server.book.rows, RICE_KEY).quantity == quantity
    && 0 in s.tills && RefreshSpec(s.tills[0], STORE, PriceListOf(s.server)) == Err(InvalidQuantity)
  }

  lemma {:induction false} CountedDown(s: System, price: nat, lot: Units, counted: nat)
    requires Ready(s.server, price, lot)
    ensures var m := Serve(CountStock(STORE, RICE, counted));
            && Possible(s, m) && Ready(Next(s, m).server, price, counted)
            && Next(s, m).tills == s.tills && Next(s, m).sent == s.sent
  {
    ServesAll(s, CountStock(STORE, RICE, counted));
    Counted(s.server, price, lot, counted);
  }

  lemma {:induction false} Oversold(s: System, price: nat, milli: nat, counted: nat)
    requires Ready(s.server, price, counted) && 0 in s.tills && RiceEvent(price, milli) in s.sent
    requires price > 0 && TillLineTotal(price, milli) > 0 && LineGap(price, milli) == 0 && counted < milli
    ensures var m := Deliver(RiceEvent(price, milli), CASHIER);
            Possible(s, m) && Blocked(Next(s, m), counted - milli)
  {
    var m := Deliver(RiceEvent(price, milli), CASHIER);
    BookedBelowZero(s.server, price, milli, counted);
    DeliveredTo(s, RiceEvent(price, milli), CASHIER);
    IsBlocked(Next(s, m), price, counted - milli);
  }

  lemma {:induction false} IsBlocked(s: System, price: nat, quantity: int)
    requires 0 in s.tills && s.server.products == map[RICE := Rice(price)]
    requires RowAt(s.server.book.rows, RICE_KEY).quantity == quantity < 0
    ensures Blocked(s, quantity)
  {
    ListRefused(s.tills[0], s.server, price);
  }

  lemma {:induction false} DeliveredTo(s: System, e: SyncEvent, user: Uuid)
    requires e in s.sent
    ensures Possible(s, Deliver(e, user))
    ensures Next(s, Deliver(e, user)).server == Process(s.server, e, user).0
    ensures Next(s, Deliver(e, user)).tills == s.tills
  {
  }

  // ---------- A drawer overdrawn by a cancellation ----------

  function CashSale(price: nat, milli: nat): Command {
    var total := LineCents(ToCents(price), milli);
    Sell([ItemInput(RICE, "Riz", milli, None, None)],
      SaleTerms(8, SESSION, [Leg(Cash, total, Some(total))], None, 0, 0))
  }

  function SpendAll(amount: int): Command {
    Spend(ExpenseInput(10, SESSION, CASHIER, 6, amount, Cash, true))
  }

  function OverdrawingCommands(price: nat, milli: nat, lot: Units): seq<Command> {
    OpeningCommands(price, lot) + [CashSale(price, milli)] + [SpendAll(LineCents(ToCents(price), milli))]
  }

  function CashRow(price: nat, milli: nat, cost: Option<nat>): Sale
    requires milli > 0
  {
    var total := LineCents(ToCents(price), milli);
    Sale(8, SESSION, [SaleItem(RICE, "Riz", ToCents(price), ToCents(price), milli, total, cost)],
         [Payment(Cash, total, Some(total), Some(0))], total, None, 0, false, 0)
  }

  lemma {:induction false} CashRowOf(db: Db, price: nat, milli: nat)
    requires milli > 0 && price > 0
    ensures var t := CashSale(price, milli).terms;
            var cost := RowAt(db.book.rows, RICE_KEY).cost;
            SaleRow(db.book.rows, STORE, t, [RiceLine(price, milli)]) == CashRow(price, milli, cost)
  {
    var t := CashSale(price, milli).terms;
    var total := LineCents(ToCents(price), milli);
    var cost := RowAt(db.book.rows, RICE_KEY).cost;
    var item := SaleItem(RICE, "Riz", ToCents(price), ToCents(price), milli, total, cost);
    assert FrozenItems(db.book.rows, STORE, [RiceLine(price, milli)]) == [item];
    SumOne(item, LineTotals());
    assert PaymentsOf(t.legs) == [Payment(Cash, total, Some(total), Some(0))];
  }

  function RiceLine(price: nat, milli: nat): Line
    requires milli > 0
  {
    Line(RICE, "Riz", ToCents(price), ToCents(price), milli)
  }

  lemma {:induction false} CashSettles(price: nat, milli: nat)
    requires LineCents(ToCents(price), milli) > 0
    ensures var t := CashSale(price, milli).terms;
            Settles(LineCents(ToCents(price), milli), t.legs, 0) && t.credit == 0
  {
    SumOne(CashSale(price, milli).terms.legs[0], LegAmounts());
  }

  lemma {:induction false} SellsForCash(db: Db, price: nat, milli: nat, lot: Units)
    requires Ready(db, price, lot) && Sells(price, milli, lot) && LineCents(ToCents(price), milli) > 0
    ensures var after := Step(db, CashSale(price, milli));
            var cost := RowAt(db.book.rows, RICE_KEY).cost;
            after == db.(sales := [CashRow(price, milli, cost)], book := after.book)
  {
    var c := CashSale(price, milli);
    OneLine(db, c.items[0], c.terms, price, false);
    CashRowOf(db, price, milli);
    CashSettles(price, milli);
    CashExecutes(db, c.terms, RiceLine(price, milli));
  }

  lemma {:induction false} CashExecutes(db: Db, t: SaleTerms, line: Line)
    requires t.session in db.sessions && db.sales == [] && t.credit == 0 && t.customer == None
    requires line.quantity <= RowAt(db.book.rows, StockKey(db.sessions[t.session].store, line.product)).quantity
    requires Settles(SaleRow(db.book.rows, db.sessions[t.session].store, t, [line]).total, t.legs, 0)
    ensures var r := ExecuteSaleSpec(db, t, [line], false);
            r.Ok? && r.value.0 == db.(
              sales := [SaleRow(db.book.rows, db.sessions[t.session].store, t, [line])], book := r.value.0.book)
  {
    assert !Short(db.book.rows, db.sessions[t.session].store, [line]);
    assert db.entries + [] == db.entries;
  }

  lemma {:induction false} CashHeld(db: Db, sale: Sale)
    requires SESSION in db.sessions && db.sessions[SESSION].opening == 0 && db.sales == [sale]
               && sale.session == SESSION
    requires !sale.cancelled && db.saleReturns == [] && db.repayments == [] && db.expenses == []
    ensures ExpectedCash(db, SESSION) == Sum(sale.payments, By(Cash))
  {
    SumOne(sale, TakenOf(SoldIn(SESSION), Cash));
  }

  lemma {:induction false} SpendsAll(db: Db, sale: Sale, amount: nat)
    requires SESSION in db.sessions && db.sessions[SESSION].opening == 0 && db.sales == [sale]
               && sale.session == SESSION
    requires !sale.cancelled && db.saleReturns == [] && db.repayments == [] && db.expenses == []
    requires amount > 0 && Sum(sale.payments, By(Cash)) == amount
    requires db.sessions[SESSION].status.Open? && db.sessions[SESSION].cashier == CASHIER
    requires db.categories == map[6 := Category(true, false)]
    ensures var after := Step(db, SpendAll(amount));
            after == db.(expenses := [Expense(10, SESSION, CASHIER, 6, amount, Cash, false)])
            && ExpectedCash(after, SESSION) == 0
  {
    CashHeld(db, sale);
    var row := Expense(10, SESSION, CASHIER, 6, amount, Cash, false);
    SumOne(row, SpentOf(SESSION, Cash));
    SumOne(sale, TakenOf(SoldIn(SESSION), Cash));
    assert [] + [row] == [row];
  }

  /** From nothing: rice bought in, sold for cash, the cash spent, and the sale cancelled
      by staff. The drawer is expected below zero by the whole price. */
  lemma {:induction false} CancellationCanOverdraw(price: nat, milli: nat, lot: Units, id: Uuid, user: User)
    requires Sells(price, milli, lot) && LineCents(ToCents(price), milli) > 0 && id == 8 && user.staff
    ensures var db := Run(EMPTY, OverdrawingCommands(price, milli, lot));
            && SESSION in db.sessions && ExpectedCash(db, SESSION) == 0
            && CancelSaleSpec(db, id, user).Ok?
            && var after := CancelSaleSpec(db, id, user).value;
               SESSION in after.sessions && ExpectedCash(after, SESSION) == -(LineCents(ToCents(price), milli) as int)
  {
    var ready, total := Run(EMPTY, OpeningCommands(price, lot)), LineCents(ToCents(price), milli);
    OpenedShop(price, lot);
    SellsForCash(ready, price, milli, lot);
    var cost := RowAt(ready.book.rows, RICE_KEY).cost;
    var sale := CashRow(price, milli, cost);
    SumOne(sale.payments[0], By(Cash));
    var sold := Step(ready, CashSale(price, milli));
    SpendsAll(sold, sale, total);
    RunPush(EMPTY, OpeningCommands(price, lot), CashSale(price, milli));
    RunPush(EMPTY, OpeningCommands(price, lot) + [CashSale(price, milli)], SpendAll(total));
    Cancels(Step(sold, SpendAll(total)), sale, id, user);
  }

  lemma {:induction false} Cancels(db: Db, sale: Sale, id: Uuid, user: User)
    requires db.sales == [sale] && sale.id == id && !sale.cancelled && sale.credit == 0 && db.saleReturns == []
               && user.staff
    requires sale.session == SESSION && SESSION in db.sessions
    ensures CancelSaleSpec(db, id, user).Ok?
    ensures var after := CancelSaleSpec(db, id, user).value;
            SESSION in after.sessions
              && ExpectedCash(after, SESSION) == ExpectedCash(db, SESSION) - Sum(sale.payments, By(Cash))
  {
    assert FindSale(db.sales, id) == 0;
    assert !HasReturns(db.saleReturns, id);
    CancellationAndDrawer(db, id, user, SESSION);
  }
}
