/** Runs of the small shop in which a customer's debt is shown wrongly: balances, sales and
    answers travel separately, and may overtake each other. */
module StaleBooks {
  import opened Sums
  import opened Rounding
  import opened Tables
  import opened Customers
  import opened Sync
  import opened Replay
  import opened LocalTables
  import opened LocalSales
  import opened SyncEngine
  import opened Protocol
  import opened Debt
  import opened DebtRuns
  import opened Shop

  const KEY: CustomerKey := (STORE, AWA)

  // ---------- Runs of the system and of its books ----------

  ghost function Acts(ms: seq<Move>): seq<DebtMove> {
    if |ms| == 0 then [] else Acts(ms[..|ms| - 1]) + [Act(ms[|ms| - 1])]
  }

  lemma {:induction false} RanPush(w: World, ms: seq<DebtMove>, m: DebtMove)
    requires CanRun(w, ms) && CanMove(Ran(w, ms), m)
    ensures CanRun(w, ms + [m]) && Ran(w, ms + [m]) == Moved(Ran(w, ms), m)
  {
    assert (ms + [m])[..|ms|] == ms;
  }

  lemma {:induction false} ActsRun(w: World, ms: seq<Move>)
    requires Feasible(w.system, ms)
    ensures CanRun(w, Acts(ms)) && Ran(w, Acts(ms)) == w.(system := After(w.system, ms))
  {
    if |ms| > 0 {
      ActsRun(w, ms[..|ms| - 1]);
      RanPush(w, Acts(ms[..|ms| - 1]), Act(ms[|ms| - 1]));
    }
  }

  // ---------- A credit sale waiting beside a cached balance ----------

  function BookWith(balance: int): Book {
    Book(STORE, map[AWA := balance])
  }

  lemma {:induction false} BookNow(db: Db)
    requires db.customers == map[AWA := Customer(STORE, true)]
    ensures BookOf(db, STORE) == BookWith(Balance(db.entries, AWA))
  {
  }

  ghost function CachingMoves(price: nat, lot: Units): seq<DebtMove> {
    Acts(OpeningMoves(price, lot)) + [Download(STORE)] + [SaveBook(0, BookWith(0))]
  }

  /** The shop opens, its empty customer book is downloaded and saved, a purchase is put
      on the book and its event in a batch. */
  ghost function CreditMoves(price: nat, milli: nat, lot: Units): seq<DebtMove> {
    CachingMoves(price, lot) + [Act(Record(0, Purchase(price, milli), Stamp(7, 70, 0)))] + [Act(Batch(0, 7))]
  }

  lemma {:induction false} EmptyBook(db: Db, price: nat, lot: Units)
    requires Ready(db, price, lot)
    ensures db.entries == [] && db.customers == map[AWA := Customer(STORE, true)]
    ensures BookOf(db, STORE) == BookWith(0)
  {
    assert db.entries == [] && db.customers == map[AWA := Customer(STORE, true)];
    BookNow(db);
    assert Balance([], AWA) == 0;
  }

  lemma {:induction false} OpenedWithBook(s: System, t: Till, shown: int, price: nat, lot: Units)
    requires Opened(s, map[], price, lot) && t == s.tills[0].(customers := map[KEY := shown])
    ensures Opened(s.(tills := s.tills[0 := t]), map[KEY := shown], price, lot)
  {
    assert s.tills[0 := t] == map[0 := t];
  }

  lemma {:induction false} BookCached(t: Till, balance: int)
    requires t.customers.Keys <= {KEY}
    ensures SaveCustomerBook(t, STORE, BookWith(balance).balances) == t.(customers := map[KEY := ReadBalance(balance)])
  {
    var after := SaveCustomerBook(t, STORE, BookWith(balance).balances).customers;
    assert (STORE, AWA) in after;
  }

  /** Till 0 after the old or the new balance is saved. */
  lemma {:induction false} SavesBalance(w: World, balance: int)
    requires BookWith(balance) in w.books && 0 in w.system.tills && w.system.tills[0].customers.Keys <= {KEY}
    ensures var m := SaveBook(0, BookWith(balance));
            CanMove(w, m)
              && Moved(w, m) == WithTill(w, 0, w.system.tills[0].(customers := map[KEY := ReadBalance(balance)]))
  {
    BookCached(w.system.tills[0], balance);
  }

  lemma {:induction false} CachesBook(w: World, balance: int, price: nat, lot: Units)
    requires SystemInv(w.system) && Opened(w.system, map[], price, lot) && w.books == {BookWith(balance)}
    ensures CanMove(w, SaveBook(0, BookWith(balance)))
    ensures var cached := Moved(w, SaveBook(0, BookWith(balance)));
            && SystemInv(cached.system) && Opened(cached.system, map[KEY := ReadBalance(balance)], price, lot)
            && cached.books == w.books
  {
    var t := w.system.tills[0].(customers := map[KEY := ReadBalance(balance)]);
    SavesBalance(w, balance);
    OpenedWithBook(w.system, t, ReadBalance(balance), price, lot);
    SystemWithCustomers(w.system, 0, t);
  }

  lemma {:induction false} CachingRun(w: World, price: nat, lot: Units)
    requires w == World(EmptySystem(), {})
    ensures CanRun(w, CachingMoves(price, lot))
    ensures var after := Ran(w, CachingMoves(price, lot));
            && SystemInv(after.system) && Opened(after.system, map[KEY := 0], price, lot)
              && after.books == {BookWith(0)}
  {
    var ms := OpeningMoves(price, lot);
    OpeningRun(w.system, price, lot);
    InitialSound(w.system);
    EveryStateSound(w.system, ms);
    ActsRun(w, ms);
    EmptyBook(After(w.system, ms).server, price, lot);
    CachesBook(Moved(Ran(w, Acts(ms)), Download(STORE)), 0, price, lot);
    WholeFcfa(0);
    RanPush(w, Acts(ms), Download(STORE));
    RanPush(w, Acts(ms) + [Download(STORE)], SaveBook(0, BookWith(0)));
  }

  lemma {:induction false} CreditRun(w: World, price: nat, milli: nat, lot: Units)
    requires w == World(EmptySystem(), {}) && Sells(price, milli, lot)
    ensures CanRun(w, CreditMoves(price, milli, lot))
    ensures var after := Ran(w, CreditMoves(price, milli, lot));
            && Waiting(after.system, map[KEY := 0], price, milli, lot) && after.books == {BookWith(0)}
  {
    var m := Record(0, Purchase(price, milli), Stamp(7, 70, 0));
    CachingRun(w, price, lot);
    var cached := Ran(w, CachingMoves(price, lot));
    Shop.Sold(cached.system, map[KEY := 0], price, milli, lot);
    RanPush(w, CachingMoves(price, lot), Act(m));
    RanPush(w, CachingMoves(price, lot) + [Act(m)], Act(Batch(0, 7)));
    MoveKeeps(cached.system, m);
    MoveKeeps(Next(cached.system, m), Batch(0, 7));
  }

  // ---------- What the till shows at the end ----------

  lemma {:induction false} OneSale(t: Till, sale: LocalSale, f: LocalSale -> int)
    requires t.sales == map[7 := sale]
    ensures Total(t.sales, f) == f(sale)
  {
    var none: map<Uuid, LocalSale> := map[];
    TotalAdd(none, 7, sale, f);
    assert none[7 := sale] == t.sales;
  }

  /** The server books the purchase and its credit. */
  lemma {:induction false} CreditBooked(db: Db, price: nat, milli: nat, lot: Units)
    requires Ready(db, price, lot) && Sells(price, milli, lot) && LineGap(price, milli) == 0
    ensures var (after, outcome) := Process(db, RiceEvent(price, milli), CASHIER);
            && outcome == Synced(7) && Balance(after.entries, AWA) == ToCents(TillLineTotal(price, milli))
            && after.customers == map[AWA := Customer(STORE, true)] && Holds(after, 7)
  {
    var e := RiceEvent(price, milli);
    ServerAnswer(db, price, milli, lot);
    ProcessUnseen(db, e, CASHIER);
    NewlyHeld(db, e, Process(db, e, CASHIER).0);
    BookedCredit(db.entries, TermsOf(e), AWA);
    EmptyBook(db, price, lot);
  }

  lemma {:induction false} ShownPending(t: Till, price: nat, milli: nat)
    requires t.sales == map[7 := RiceSale(price, milli)] && KEY in t.customers
    ensures Displayed(t, KEY) == t.customers[KEY] + TillLineTotal(price, milli)
  {
    OneSale(t, RiceSale(price, milli), PendingCredit(KEY));
  }

  lemma {:induction false} ShownSynced(t: Till, sale: LocalSale)
    requires t.sales == map[7 := sale] && sale.status.SyncDone? && KEY in t.customers
    ensures Displayed(t, KEY) == t.customers[KEY]
  {
    OneSale(t, sale, PendingCredit(KEY));
  }

  lemma {:induction false} AfterTheAnswer(t: Till, price: nat, milli: nat)
    requires t.sales == map[7 := RiceSale(price, milli)] && t.customers.Keys == {KEY}
    ensures var after := SyncedTill(t, 7, 7);
            && after.sales == map[7 := RiceSale(price, milli).(status := SyncDone, serverId := Some(7))]
            && after.customers.Keys == {KEY}
  {
  }

  lemma {:induction false} WholeFcfa(amount: int)
    ensures ReadBalance(ToCents(amount)) == amount
  {
    ReadBalanceError(ToCents(amount));
  }

  /** A credit sale waits beside a cached balance, and the server would book it. */
  ghost predicate OnCredit(w: World, price: nat, milli: nat, lot: Units) {
    && Ready(w.system.server, price, lot) && 0 in w.system.tills && RiceEvent(price, milli) in w.system.sent
    && w.system.tills[0].sales == map[7 := RiceSale(price, milli)] && w.system.tills[0].customers == map[KEY := 0]
    && IndexHolds(w.system.tills[0]) && RICE_KEY in w.system.tills[0].products && w.books == {BookWith(0)}
    && Sells(price, milli, lot) && LineGap(price, milli) == 0
  }

  /** The world after the request has arrived. */
  ghost predicate Delivered(before: World, w: World, price: nat, milli: nat) {
    var e, s := RiceEvent(price, milli), before.system;
    && w.books == before.books && w.system.tills == s.tills && w.system.server == Process(s.server, e, CASHIER).0
    && Answer(70, Synced(7)) in w.system.answers
    && Balance(w.system.server.entries, AWA) == ToCents(TillLineTotal(price, milli))
    && w.system.server.customers == map[AWA := Customer(STORE, true)] && Holds(w.system.server, 7)
  }

  lemma {:induction false} DeliveredWorld(w: World, e: SyncEvent, user: Uuid)
    requires e in w.system.sent
    ensures CanMove(w, Act(Deliver(e, user)))
    ensures var after := Moved(w, Act(Deliver(e, user)));
            && after.books == w.books && after.system.tills == w.system.tills
            && after.system.server == Process(w.system.server, e, user).0
            && after.system.sent == w.system.sent && w.system.answers <= after.system.answers
            && Answer(e.event, Process(w.system.server, e, user).1) in after.system.answers
  {
  }

  lemma {:induction false} Delivers(w: World, price: nat, milli: nat, lot: Units)
    requires OnCredit(w, price, milli, lot)
    ensures var m := Act(Deliver(RiceEvent(price, milli), CASHIER));
            CanMove(w, m) && Delivered(w, Moved(w, m), price, milli)
  {
    CreditBooked(w.system.server, price, milli, lot);
    DeliveredWorld(w, RiceEvent(price, milli), CASHIER);
  }

  lemma {:induction false} ReadAfterBooking(before: World, w: World, price: nat, milli: nat, lot: Units)
    requires OnCredit(before, price, milli, lot) && Delivered(before, w, price, milli)
    ensures var credit := TillLineTotal(price, milli);
            var listed := Moved(w, Download(STORE));
            && CanMove(listed, SaveBook(0, BookWith(ToCents(credit))))
            && var s := Moved(listed, SaveBook(0, BookWith(ToCents(credit)))).system;
               && 0 in s.tills && KEY in s.tills[0].customers
               && Balance(s.server.entries, AWA) == ToCents(credit) && Displayed(s.tills[0], KEY) == 2 * credit
  {
    var credit, t := TillLineTotal(price, milli), w.system.tills[0];
    BookNow(w.system.server);
    SavesBalance(Moved(w, Download(STORE)), ToCents(credit));
    WholeFcfa(credit);
    ShownPending(t.(customers := map[KEY := credit]), price, milli);
  }

  /** The sale is booked, then the book is read and saved before the answer arrives: the
      credit is in the balance and still counted as pending. The debt shows twice. */
  lemma {:induction false} DebtShownTwice(w: World, price: nat, milli: nat, lot: Units)
    requires w == World(EmptySystem(), {}) && Sells(price, milli, lot) && LineGap(price, milli) == 0
    ensures var credit := TillLineTotal(price, milli);
            var ms := CreditMoves(price, milli, lot) + [Act(Deliver(RiceEvent(price, milli), CASHIER))]
                      + [Download(STORE)] + [SaveBook(0, BookWith(ToCents(credit)))];
            && CanRun(w, ms)
            && var s := Ran(w, ms).system;
               && 0 in s.tills && KEY in s.tills[0].customers
               && Balance(s.server.entries, AWA) == ToCents(credit) && Displayed(s.tills[0], KEY) == 2 * credit
  {
    var deliver, save :=
        Act(Deliver(RiceEvent(price, milli), CASHIER)), SaveBook(0, BookWith(ToCents(TillLineTotal(price, milli))));
    var ms := CreditMoves(price, milli, lot);
    CreditRun(w, price, milli, lot);
    var before := Ran(w, ms);
    Delivers(before, price, milli, lot);
    ReadAfterBooking(before, Moved(before, deliver), price, milli, lot);
    RanPush(w, ms, deliver);
    RanPush(w, ms + [deliver], Download(STORE));
    RanPush(w, ms + [deliver] + [Download(STORE)], save);
  }

  lemma {:induction false} TakesAnswer(before: World, w: World, price: nat, milli: nat, lot: Units)
    requires OnCredit(before, price, milli, lot) && Delivered(before, w, price, milli)
    ensures CanMove(w, Act(Take(0, 7, Synced(7))))
    ensures var marked := Moved(w, Act(Take(0, 7, Synced(7))));
            && marked.books == {BookWith(0)} && marked.system.answers == w.system.answers
            && marked.system.server == w.system.server && 0 in marked.system.tills
            && marked.system.tills[0] == SyncedTill(w.system.tills[0], 7, 7)
  {
    assert w.system.tills[0].sales[7].event == 70;
  }

  lemma {:induction false} MarkedShows(t: Till, price: nat, milli: nat, shown: int)
    requires t.sales == map[7 := RiceSale(price, milli)] && t.customers.Keys == {KEY}
    ensures SyncedTill(t, 7, 7).customers.Keys == {KEY}
    ensures Displayed(SyncedTill(t, 7, 7).(customers := map[KEY := shown]), KEY) == shown
  {
    var after := SyncedTill(t, 7, 7);
    AfterTheAnswer(t, price, milli);
    ShownSynced(after.(customers := map[KEY := shown]), after.sales[7]);
  }

  lemma {:induction false} SavedAfterMarking(t: Till, marked: World, price: nat, milli: nat, balance: int)
    requires t.sales == map[7 := RiceSale(price, milli)] && t.customers.Keys == {KEY}
    requires BookWith(balance) in marked.books && 0 in marked.system.tills
               && marked.system.tills[0] == SyncedTill(t, 7, 7)
    ensures CanMove(marked, SaveBook(0, BookWith(balance)))
    ensures var s := Moved(marked, SaveBook(0, BookWith(balance))).system;
            && 0 in s.tills && KEY in s.tills[0].customers
            && s.server == marked.system.server && Displayed(s.tills[0], KEY) == ReadBalance(balance)
  {
    MarkedShows(t, price, milli, ReadBalance(balance));
    SavesBalance(marked, balance);
  }

  lemma {:induction false} NotShownFrom(before: World, price: nat, milli: nat, lot: Units)
    requires OnCredit(before, price, milli, lot)
    ensures var deliver, take := Act(Deliver(RiceEvent(price, milli), CASHIER)), Act(Take(0, 7, Synced(7)));
            var listed := Moved(before, Download(STORE));
            && CanMove(listed, deliver) && CanMove(Moved(listed, deliver), take)
            && var marked := Moved(Moved(listed, deliver), take);
               && CanMove(marked, SaveBook(0, BookWith(0)))
               && var s := Moved(marked, SaveBook(0, BookWith(0))).system;
                  && 0 in s.tills && KEY in s.tills[0].customers
                  && Balance(s.server.entries, AWA) == ToCents(TillLineTotal(price, milli))
                    && Displayed(s.tills[0], KEY) == 0
  {
    var deliver, take := Act(Deliver(RiceEvent(price, milli), CASHIER)), Act(Take(0, 7, Synced(7)));
    ListedAgain(before, price, milli, lot);
    Delivers(before, price, milli, lot);
    var booked := Moved(before, deliver);
    TakesAnswer(before, booked, price, milli, lot);
    SavedAfterMarking(booked.system.tills[0], Moved(booked, take), price, milli, 0);
    WholeFcfa(0);
  }

  /** The book is read, the sale booked and its answer taken, and then the book saved: the
      credit is neither in the balance nor pending. The debt is not shown at all. */
  lemma {:induction false} DebtNotShown(w: World, price: nat, milli: nat, lot: Units)
    requires w == World(EmptySystem(), {}) && Sells(price, milli, lot) && LineGap(price, milli) == 0
    ensures var credit := TillLineTotal(price, milli);
            var ms := CreditMoves(price, milli, lot) + [Download(STORE)]
                + [Act(Deliver(RiceEvent(price, milli), CASHIER))]
                      + [Act(Take(0, 7, Synced(7)))] + [SaveBook(0, BookWith(0))];
            && CanRun(w, ms)
            && var s := Ran(w, ms).system;
               && 0 in s.tills && KEY in s.tills[0].customers
               && Balance(s.server.entries, AWA) == ToCents(credit) && Displayed(s.tills[0], KEY) == 0
  {
    var deliver, take := Act(Deliver(RiceEvent(price, milli), CASHIER)), Act(Take(0, 7, Synced(7)));
    var ms := CreditMoves(price, milli, lot);
    CreditRun(w, price, milli, lot);
    NotShownFrom(Ran(w, ms), price, milli, lot);
    RanPush(w, ms, Download(STORE));
    RanPush(w, ms + [Download(STORE)], deliver);
    RanPush(w, ms + [Download(STORE)] + [deliver], take);
    RanPush(w, ms + [Download(STORE)] + [deliver] + [take], SaveBook(0, BookWith(0)));
  }

  lemma {:induction false} ListedAgain(w: World, price: nat, milli: nat, lot: Units)
    requires OnCredit(w, price, milli, lot)
    ensures Moved(w, Download(STORE)) == w
  {
    EmptyBook(w.system.server, price, lot);
  }

  // ---------- A refusal that comes after the confirmation ----------

  /** Someone without access to the store. */
  const STRANGER: Uuid := 8

  lemma {:induction false} StrangerRefused(db: Db, price: nat, milli: nat, lot: Units)
    requires Ready(db, price, lot)
    ensures Process(db, RiceEvent(price, milli), STRANGER) == (db, Rejected(StoreNotAllowed))
  {
    assert db.events == [] && SESSION in db.sessions && !MayPush(db, SESSION, STRANGER);
  }

  lemma {:induction false} RefusedFirst(w: World, price: nat, milli: nat, lot: Units)
    requires OnCredit(w, price, milli, lot)
    ensures var m := Act(Deliver(RiceEvent(price, milli), STRANGER));
            && CanMove(w, m) && OnCredit(Moved(w, m), price, milli, lot) && Moved(w, m).system.tills == w.system.tills
            && Answer(70, Rejected(StoreNotAllowed)) in Moved(w, m).system.answers
  {
    StrangerRefused(w.system.server, price, milli, lot);
    DeliveredWorld(w, RiceEvent(price, milli), STRANGER);
  }

  /** What the till shows once the sale is marked, and once it is refused afterwards. */
  lemma {:induction false} ShownTwice(t: Till, price: nat, milli: nat, lot: Units, code: Code)
    requires Sells(price, milli, lot) && t.sales == map[7 := RiceSale(price, milli)] && t.customers == map[KEY := 0]
    ensures var marked := SyncedTill(t, 7, 7);
            && KEY in marked.customers && Displayed(marked, KEY) == TillLineTotal(price, milli)
            && Displayed(ConflictTill(marked, 7, code), KEY) == 2 * TillLineTotal(price, milli)
  {
    var marked := SyncedTill(t, 7, 7);
    var refused := ConflictTill(marked, 7, code);
    AfterTheAnswer(t, price, milli);
    ShownSynced(marked, marked.sales[7]);
    assert refused.sales == map[7 := refused.sales[7]];
    OneSale(refused, refused.sales[7], PendingCredit(KEY));
  }

  lemma {:induction false} TakesRefusal(w: World, marked: Till, code: Code)
    requires 0 in w.system.tills && w.system.tills[0] == marked && 7 in marked.sales && marked.sales[7].event == 70
    requires Answer(70, Rejected(code)) in w.system.answers
    ensures CanMove(w, Act(Take(0, 7, Rejected(code))))
    ensures var s := Moved(w, Act(Take(0, 7, Rejected(code)))).system;
            0 in s.tills && s.tills[0] == ConflictTill(marked, 7, code) && s.server == w.system.server
  {
  }

  /** The refusal of a first request, then the booking by a second one. */
  function TwoAnswers(price: nat, milli: nat): seq<DebtMove> {
    [Act(Deliver(RiceEvent(price, milli), STRANGER)), Act(Deliver(RiceEvent(price, milli), CASHIER)),
     Act(Take(0, 7, Synced(7))), Act(Take(0, 7, Rejected(StoreNotAllowed)))]
  }

  /** The till and the books after the confirmation was taken, and after the refusal was. */
  ghost predicate Reverted(marked: System, refused: System, credit: int) {
    && 0 in marked.tills && 7 in marked.tills[0].sales && marked.tills[0].sales[7].status.SyncDone?
    && KEY in marked.tills[0].customers && Displayed(marked.tills[0], KEY) == credit
    && 0 in refused.tills && 7 in refused.tills[0].sales && refused.tills[0].sales[7].status.InConflict?
    && KEY in refused.tills[0].customers && Displayed(refused.tills[0], KEY) == 2 * credit
    && IndexHolds(marked.tills[0]) && !IndexHolds(refused.tills[0])
    && refused.server == marked.server && Holds(refused.server, 7)
    && Balance(refused.server.entries, AWA) == ToCents(credit)
  }

  /** The sale is marked, and a refusal of it is still on its way. */
  ghost predicate MarkedAwaiting(before: World, w: World, price: nat, milli: nat) {
    && 0 in before.system.tills && 0 in w.system.tills
    && w.system.tills[0] == SyncedTill(before.system.tills[0], 7, 7)
    && Answer(70, Rejected(StoreNotAllowed)) in w.system.answers && Holds(w.system.server, 7)
    && Balance(w.system.server.entries, AWA) == ToCents(TillLineTotal(price, milli))
  }

  lemma {:induction false} Marked(w: World, price: nat, milli: nat, lot: Units)
    requires OnCredit(w, price, milli, lot)
    ensures var ms := TwoAnswers(price, milli);
            && CanMove(w, ms[0]) && CanMove(Moved(w, ms[0]), ms[1]) && CanMove(Moved(Moved(w, ms[0]), ms[1]), ms[2])
            && MarkedAwaiting(w, Moved(Moved(Moved(w, ms[0]), ms[1]), ms[2]), price, milli)
  {
    var ms := TwoAnswers(price, milli);
    RefusedFirst(w, price, milli, lot);
    var refused := Moved(w, ms[0]);
    Delivers(refused, price, milli, lot);
    DeliveredWorld(refused, RiceEvent(price, milli), CASHIER);
    TakesAnswer(refused, Moved(refused, ms[1]), price, milli, lot);
  }

  lemma {:induction false} RevertedFrom(before: World, w: World, price: nat, milli: nat, lot: Units)
    requires OnCredit(before, price, milli, lot) && MarkedAwaiting(before, w, price, milli)
    ensures var take := TwoAnswers(price, milli)[3];
            CanMove(w, take) && Reverted(w.system, Moved(w, take).system, TillLineTotal(price, milli))
  {
    var t, code := before.system.tills[0], StoreNotAllowed;
    AfterTheAnswer(t, price, milli);
    TakesRefusal(w, SyncedTill(t, 7, 7), code);
    MarkedThenRefused(t, 7, price, milli, lot, code);
    ShownTwice(t, price, milli, lot, code);
  }

  /** From an empty shop, with answers the server gave: a refusal taken after the
      confirmation reverts a synchronised sale the server holds, breaks the pending index and
      shows the debt twice. */
  lemma {:induction false} LateRefusalReverts(w: World, price: nat, milli: nat, lot: Units)
    requires w == World(EmptySystem(), {}) && Sells(price, milli, lot) && LineGap(price, milli) == 0
    ensures var ms := TwoAnswers(price, milli);
            var marking := CreditMoves(price, milli, lot) + [ms[0]] + [ms[1]] + [ms[2]];
            && CanRun(w, marking) && CanRun(w, marking + [ms[3]])
            && Reverted(Ran(w, marking).system, Ran(w, marking + [ms[3]]).system, TillLineTotal(price, milli))
  {
    var before, ms := CreditMoves(price, milli, lot), TwoAnswers(price, milli);
    CreditRun(w, price, milli, lot);
    Marked(Ran(w, before), price, milli, lot);
    RanPush(w, before, ms[0]);
    RanPush(w, before + [ms[0]], ms[1]);
    RanPush(w, before + [ms[0]] + [ms[1]], ms[2]);
    RevertedFrom(Ran(w, before), Ran(w, before + [ms[0]] + [ms[1]] + [ms[2]]), price, milli, lot);
    RanPush(w, before + [ms[0]] + [ms[1]] + [ms[2]], ms[3]);
  }
}
