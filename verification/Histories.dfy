/** What holds after every history of the server. */
module Histories {
  import opened Sums
  import opened Rounding
  import opened Tables
  import opened Inventory
  import opened Customers
  import opened CashDesk
  import opened Sales
  import opened Returns
  import opened Expenses
  import opened Services
  import opened Invariants

  // ---------- Append-only tables ----------

  ghost predicate ExpensesExtend(before: seq<Expense>, after: seq<Expense>) {
    && |before| <= |after|
    && (forall i :: 0 <= i < |before| ==>
          after[i] == before[i].(cancelled := after[i].cancelled) && (before[i].cancelled ==> after[i].cancelled))
  }

  ghost predicate Grew(db: Db, after: Db) {
    && SalesExtend(db.sales, after.sales)
    && ExpensesExtend(db.expenses, after.expenses)
    && db.saleReturns <= after.saleReturns
    && db.repayments <= after.repayments
    && db.entries <= after.entries
    && db.events <= after.events
    && db.book.movements <= after.book.movements
    && db.book.changes <= after.book.changes
  }

  lemma {:induction false} BookGrows(db: Db, effect: Effect)
    requires Legit(db, effect)
    ensures !effect.RowOpened? && !effect.CostSet? ==>
              BookAfter(db, effect).movements == db.book.movements + Posted(db, effect)
              && BookAfter(db, effect).changes == db.book.changes
    ensures db.book.movements <= BookAfter(db, effect).movements && db.book.changes <= BookAfter(db, effect).changes
  {
    if !effect.RowOpened? && !effect.CostSet? {
      PostAllQuantities(db.book, Posted(db, effect), StockKey(0, 0));
    }
  }

  lemma {:induction false} EffectGrows(db: Db, effect: Effect, after: Db)
    requires Applies(db, effect, after)
    ensures Grew(db, after)
  {
    TablesExtend(db, effect);
    BookGrows(db, effect);
    var added := EntryAppended(db, effect);
  }

  lemma {:induction false} RunGrows(db: Db, cs: seq<Command>)
    requires Inv(db)
    ensures Grew(db, Run(db, cs))
  {
    if |cs| > 0 {
      var front := cs[..|cs| - 1];
      RunGrows(db, front);
      RunKeeps(db, front);
      var effect := StepApplies(Run(db, front), cs[|cs| - 1]);
      EffectGrows(Run(db, front), effect, Run(db, cs));
    }
  }

  // ---------- Customer book, stock and accounts in every history ----------

  /** In every history: each balance is nonnegative and is the sum of the entries that
      still stand, no entry is reversed twice, each payment photographs its balance. */
  lemma {:induction false} LedgerInEveryHistory(cs: seq<Command>, customer: Uuid)
    ensures var db := Run(EMPTY, cs);
            && Balance(db.entries, customer) >= 0
            && Balance(db.entries, customer) == Standing(db.entries, |db.entries|, customer)
            && (forall i, j ::
                  0 <= i < j < |db.entries| && db.entries[i].kind.Reversal? && db.entries[j].kind.Reversal? ==>
                  db.entries[i].kind.reversalOf != db.entries[j].kind.reversalOf)
            && (forall i :: 0 <= i < |db.repayments| ==> SnapshotSound(db.repayments[i]))
  {
    EmptyInv();
    RunKeeps(EMPTY, cs);
    BalanceIsStanding(Run(EMPTY, cs).entries, customer);
  }

  predicate OneOpening(entries: seq<Entry>, customer: Uuid) {
    forall i, j :: 0 <= i < j < |entries| && IsOpening(entries[i], customer) ==> !IsOpening(entries[j], customer)
  }

  predicate IsOpening(e: Entry, customer: Uuid) {
    e.kind.OpeningBalance? && e.customer == customer
  }

  /** In every history a customer has one opening balance at most, and it counts for him. */
  lemma {:induction false} OpeningInEveryHistory(cs: seq<Command>, customer: Uuid)
    ensures OneOpening(Run(EMPTY, cs).entries, customer)
    ensures forall i :: 0 <= i < |Run(EMPTY, cs).entries| && IsOpening(Run(EMPTY, cs).entries[i], customer) ==>
              Run(EMPTY, cs).entries[i].amount > 0
  {
    if |cs| > 0 {
      var front := cs[..|cs| - 1];
      OpeningInEveryHistory(front, customer);
      EmptyInv();
      RunKeeps(EMPTY, front);
      var effect := StepApplies(Run(EMPTY, front), cs[|cs| - 1]);
      OpeningKept(Run(EMPTY, front), effect, customer);
    }
  }

  lemma {:induction false} OpeningKept(db: Db, effect: Effect, customer: Uuid)
    requires Legit(db, effect) && OneOpening(db.entries, customer)
    requires forall i :: 0 <= i < |db.entries| && IsOpening(db.entries[i], customer) ==> db.entries[i].amount > 0
    ensures OneOpening(EntriesAfter(db, effect), customer)
    ensures forall i :: 0 <= i < |EntriesAfter(db, effect)| && IsOpening(EntriesAfter(db, effect)[i], customer) ==>
              EntriesAfter(db, effect)[i].amount > 0
  {
    var added := EntryAppended(db, effect);
    var after := EntriesAfter(db, effect);
    assert forall i :: 0 <= i < |db.entries| ==> after[i] == db.entries[i];
    if |added| == 1 && IsOpening(added[0], customer) {
      assert after[|db.entries|] == added[0];
      assert effect.LedgerNoted? && !HasOpening(db.entries, customer);
    }
  }

  /** In every history every stock quantity is the sum of its movements. */
  lemma {:induction false} StockInEveryHistory(cs: seq<Command>, key: StockKey)
    ensures var book := Run(EMPTY, cs).book;
            RowAt(book.rows, key).quantity == Sum(book.movements, QuantityAt(key))
  {
    EmptyInv();
    RunKeeps(EMPTY, cs);
  }

  /** In every history, for a session and for any dashboard period and store, sales and
      returns split exactly into money by method and credit. */
  lemma {:induction false} AccountsInEveryHistory(cs: seq<Command>, session: Uuid, from: Instant, until: Instant,
      store: Option<Uuid>)
    ensures var db := Run(EMPTY, cs);
            var t := AggregateTotals(db, session);
            var d := ManagerDashboard(db, from, until, store);
            && t.gross == t.cash + t.wave + t.orangeMoney + t.credit
            && t.returned == t.cashRefunds + t.waveRefunds + t.orangeMoneyRefunds + t.creditReturns
            && d.netSales == d.cash + d.wave + d.orangeMoney + d.creditTotal
  {
    EmptyInv();
    RunKeeps(EMPTY, cs);
    var db := Run(EMPTY, cs);
    SoundRows(db);
    SessionIdentity(db, session);
    DashboardIdentity(db, from, until, store);
  }

  lemma {:induction false} SoundRows(db: Db)
    requires RecordsInv(db)
    ensures forall s :: s in db.sales ==> SaleSound(s)
    ensures forall r :: r in db.saleReturns ==> ReturnSound(r)
  {
    forall s | s in db.sales ensures SaleSound(s) {
      var i :| 0 <= i < |db.sales| && db.sales[i] == s;
      assert SaleRecord(db.sessions, db.sales[i]);
    }
    forall r | r in db.saleReturns ensures ReturnSound(r) {
      var i :| 0 <= i < |db.saleReturns| && db.saleReturns[i] == r;
      assert ReturnRecord(db.sessions, db.sales, db.saleReturns[i]);
    }
  }

  // ---------- Returns in every history ----------

  /** In every history, over all the returns of a sale: no line gives back more than it
      sold, the credit erased never exceeds the credit granted, and the refunds of a line
      stay within half a cent per return of its exact price, and are exact when every
      quantity returned is whole. */
  lemma {:induction false} ReturnsInEveryHistory(cs: seq<Command>, i: nat, item: nat)
    requires i < |Run(EMPTY, cs).sales| && item < |Run(EMPTY, cs).sales[i].items|
    ensures var db := Run(EMPTY, cs);
            var sale := db.sales[i];
            var returned := AlreadyReturned(db.saleReturns, sale.id, item);
            var drift :=
                QUANTITY_SCALE * Sum(db.saleReturns, RefundedFor(sale.id, item))
                  - sale.items[item].unitPrice * returned;
            var times := Sum(db.saleReturns, TimesReturned(sale.id, item));
            && returned <= sale.items[item].quantity
            && Sum(db.saleReturns, CreditTaken(sale.id)) <= sale.credit
            && -500 * times <= drift <= 500 * times
            && (ReturnedWhole(db.saleReturns, sale.id, item) ==> drift == 0)
  {
    EmptyInv();
    RunKeeps(EMPTY, cs);
    var db := Run(EMPTY, cs);
    var sale := db.sales[i];
    RefundsPriced(db, i, item);
    RefundDrift(db.saleReturns, sale.id, item, sale.items[item].unitPrice);
    forall r | 0 <= r < |db.saleReturns| ensures ReturnSound(db.saleReturns[r]) {
      assert ReturnRecord(db.sessions, db.sales, db.saleReturns[r]);
    }
    LinesAreReturns(db.saleReturns, sale.id, item);
    if ReturnedWhole(db.saleReturns, sale.id, item) {
      WholeUnitRefunds(db.saleReturns, sale.id, item, sale.items[item].unitPrice);
    }
  }

  /** The line was only ever returned by whole units. */
  ghost predicate ReturnedWhole(rows: seq<SaleReturn>, sale: Uuid, item: nat) {
    forall i :: 0 <= i < |rows| && rows[i].sale == sale ==> WholeUnits(rows[i].lines, item)
  }

  lemma {:induction false} RefundsPriced(db: Db, i: nat, item: nat)
    requires RecordsInv(db) && i < |db.sales| && item < |db.sales[i].items|
    ensures forall r :: 0 <= r < |db.saleReturns| && db.saleReturns[r].sale == db.sales[i].id ==>
              PricedAt(db.saleReturns[r].lines, item, db.sales[i].items[item].unitPrice)
  {
    var sale := db.sales[i];
    FoundAt(db.sales, i);
    forall r | 0 <= r < |db.saleReturns| && db.saleReturns[r].sale == sale.id
      ensures PricedAt(db.saleReturns[r].lines, item, sale.items[item].unitPrice)
    {
      assert ReturnRecord(db.sessions, db.sales, db.saleReturns[r]);
    }
  }

  // ---------- The average cost in every history ----------

  /** Costs received or set by hand for this stock all lie in [lo, hi]. */
  ghost predicate CostInputsWithin(book: StockBook, key: StockKey, lo: nat, hi: nat) {
    && (forall i :: 0 <= i < |book.movements| && book.movements[i].key == key && book.movements[i].kind.StockIn? ==>
          Within(book.movements[i].unitCost, lo, hi))
    && (forall i :: 0 <= i < |book.changes| && book.changes[i].key == key ==> lo <= book.changes[i].cost <= hi)
  }

  ghost predicate FrozenWithin(sessions: map<Uuid, Session>, sale: Sale, key: StockKey, lo: nat, hi: nat) {
    sale.session in sessions && sessions[sale.session].store == key.store ==>
      forall j :: 0 <= j < |sale.items| && sale.items[j].product == key.product ==>
        Within(sale.items[j].unitCost, lo, hi)
  }

  ghost predicate AllFrozenWithin(sessions: map<Uuid, Session>, sales: seq<Sale>, key: StockKey, lo: nat, hi: nat) {
    forall i :: 0 <= i < |sales| ==> FrozenWithin(sessions, sales[i], key, lo, hi)
  }

  /** The current average and every cost frozen on a sale of this stock lie in [lo, hi]. */
  ghost predicate CostsWithin(db: Db, key: StockKey, lo: nat, hi: nat) {
    Within(RowAt(db.book.rows, key).cost, lo, hi) && AllFrozenWithin(db.sessions, db.sales, key, lo, hi)
  }

  lemma {:induction false} ReturnBringsWithin(sale: Sale, store: Uuid, lines: seq<ReturnLine>, ret: Uuid,
      key: StockKey, lo: nat, hi: nat)
    requires forall i :: 0 <= i < |lines| ==> lines[i].item < |sale.items|
    requires store == key.store ==>
               forall j :: 0 <= j < |sale.items| && sale.items[j].product == key.product ==>
                 Within(sale.items[j].unitCost, lo, hi)
    ensures BringsWithin(ReturnMoves(store, sale, lines, ret), key, lo, hi)
  {
    forall m | m in ReturnMoves(store, sale, lines, ret) && m.key == key ensures Within(m.unitCost, lo, hi) {
      var j :| 0 <= j < |sale.items| && m.key == StockKey(store, sale.items[j].product)
          && m.unitCost == sale.items[j].unitCost;
    }
  }

  lemma {:induction false} PostedWithin(db: Db, effect: Effect, key: StockKey, lo: nat, hi: nat)
    requires Legit(db, effect) && AllFrozenWithin(db.sessions, db.sales, key, lo, hi)
    requires CostInputsWithin(BookAfter(db, effect), key, lo, hi)
    ensures BringsWithin(Posted(db, effect), key, lo, hi)
  {
    match effect
    case SaleUndone(at) =>
      assert FrozenWithin(db.sessions, db.sales[at], key, lo, hi);
    case GoodsReturned(row) =>
      var sale := db.sales[FindSale(db.sales, row.sale)];
      assert FrozenWithin(db.sessions, sale, key, lo, hi);
      ReturnBringsWithin(sale, db.sessions[row.session].store, row.lines, row.key, key, lo, hi);
    case StockMoved(m) =>
      BookGrows(db, effect);
      assert BookAfter(db, effect).movements[|db.book.movements|] == m;
    case _ =>
  }

  lemma {:induction false} AverageStaysWithin(db: Db, effect: Effect, key: StockKey, lo: nat, hi: nat)
    requires Legit(db, effect) && CostsWithin(db, key, lo, hi)
    requires CostInputsWithin(BookAfter(db, effect), key, lo, hi)
    ensures Within(RowAt(BookAfter(db, effect).rows, key).cost, lo, hi)
  {
    if effect.CostSet? {
      assert BookAfter(db, effect).changes[|db.book.changes|].cost == effect.unitCost;
    } else if !effect.RowOpened? {
      PostedWithin(db, effect, key, lo, hi);
      PostAllWithin(db.book, Posted(db, effect), key, lo, hi);
    }
  }

  lemma {:induction false} FrozenStayWithin(db: Db, effect: Effect, key: StockKey, lo: nat, hi: nat)
    requires SaleRecords(db.sessions, db.sales) && Legit(db, effect) && CostsWithin(db, key, lo, hi)
    ensures AllFrozenWithin(SessionsAfter(db, effect), SalesAfter(db, effect), key, lo, hi)
  {
    TablesExtend(db, effect);
    var sales, sessions := SalesAfter(db, effect), SessionsAfter(db, effect);
    forall i | 0 <= i < |sales| ensures FrozenWithin(sessions, sales[i], key, lo, hi) {
      if i < |db.sales| {
        assert SaleRecord(db.sessions, db.sales[i]) && FrozenWithin(db.sessions, db.sales[i], key, lo, hi);
      }
    }
  }

  lemma {:induction false} CostsStayWithin(db: Db, effect: Effect, after: Db, key: StockKey, lo: nat, hi: nat)
    requires RecordsInv(db) && Applies(db, effect, after)
    requires CostsWithin(db, key, lo, hi) && CostInputsWithin(after.book, key, lo, hi)
    ensures CostsWithin(after, key, lo, hi)
  {
    AverageStaysWithin(db, effect, key, lo, hi);
    FrozenStayWithin(db, effect, key, lo, hi);
  }

  /** Over every history, whatever returns and cancellations bring back, the average cost
      and every frozen cost lie between the least and the greatest cost ever received or set. */
  lemma {:induction false} AverageCostInEveryHistory(cs: seq<Command>, key: StockKey, lo: nat, hi: nat)
    requires CostInputsWithin(Run(EMPTY, cs).book, key, lo, hi)
    ensures CostsWithin(Run(EMPTY, cs), key, lo, hi)
  {
    if |cs| > 0 {
      var front := cs[..|cs| - 1];
      EmptyInv();
      RunKeeps(EMPTY, front);
      var before, after := Run(EMPTY, front), Run(EMPTY, cs);
      var effect := StepApplies(before, cs[|cs| - 1]);
      EffectGrows(before, effect, after);
      AverageCostInEveryHistory(front, key, lo, hi);
      CostsStayWithin(before, effect, after, key, lo, hi);
    }
  }

  /** Once known, an average cost stays known through every later history. */
  lemma {:induction false} KnownCostStaysKnown(db: Db, cs: seq<Command>, key: StockKey)
    requires Inv(db) && RowAt(db.book.rows, key).cost.Some?
    ensures RowAt(Run(db, cs).book.rows, key).cost.Some?
  {
    if |cs| > 0 {
      var front := cs[..|cs| - 1];
      KnownCostStaysKnown(db, front, key);
      RunKeeps(db, front);
      var before := Run(db, front);
      var effect := StepApplies(before, cs[|cs| - 1]);
      if !effect.RowOpened? && !effect.CostSet? {
        PostAllKeepsCost(before.book, Posted(before, effect), key);
      }
    }
  }

  // ---------- The stock row and its valuation over any history ----------

  /** The movements journalled after the first state. */
  ghost function Since(before: StockBook, after: StockBook): seq<Movement>
    requires before.movements <= after.movements
  {
    after.movements[|before.movements|..]
  }

  /** Nobody set the cost of this stock by hand in between. */
  ghost predicate CostUntouched(before: StockBook, after: StockBook, key: StockKey)
    requires before.changes <= after.changes
  {
    forall i :: |before.changes| <= i < |after.changes| ==> after.changes[i].key != key
  }

  lemma {:induction false} RowAfterEffect(db: Db, effect: Effect, key: StockKey)
    requires Legit(db, effect)
    ensures db.book.movements <= BookAfter(db, effect).movements && db.book.changes <= BookAfter(db, effect).changes
    ensures Journalled(Since(db.book, BookAfter(db, effect)))
    ensures CostUntouched(db.book, BookAfter(db, effect), key) ==>
              RowAt(BookAfter(db, effect).rows, key) ==
              RowThrough(RowAt(db.book.rows, key), Since(db.book, BookAfter(db, effect)), key)
  {
    var after := BookAfter(db, effect);
    BookGrows(db, effect);
    if effect.CostSet? {
      assert after.changes[|db.book.changes|].key == effect.key;
    } else if !effect.RowOpened? {
      assert Since(db.book, after) == Posted(db, effect);
      PostAllRow(db.book, Posted(db, effect), key);
    }
  }

  /** Over any history in which nobody sets its cost by hand, a stock row, quantity and
      average cost, is the former row carried through the movements journalled since. */
  lemma {:induction false} RowIsItsJournal(db: Db, cs: seq<Command>, key: StockKey)
    requires Inv(db)
    ensures db.book.movements <= Run(db, cs).book.movements && db.book.changes <= Run(db, cs).book.changes
    ensures Journalled(Since(db.book, Run(db, cs).book))
    ensures CostUntouched(db.book, Run(db, cs).book, key) ==>
              RowAt(Run(db, cs).book.rows, key) ==
              RowThrough(RowAt(db.book.rows, key), Since(db.book, Run(db, cs).book), key)
  {
    if |cs| > 0 {
      var front := cs[..|cs| - 1];
      RowIsItsJournal(db, front, key);
      RunKeeps(db, front);
      var before, after := Run(db, front), Run(db, cs);
      var effect := StepApplies(before, cs[|cs| - 1]);
      RowAfterEffect(before, effect, key);
      RowJoins(db.book, before.book, after.book, key);
    }
  }

  lemma {:induction false} RowJoins(first: StockBook, before: StockBook, after: StockBook, key: StockKey)
    requires first.movements <= before.movements <= after.movements && first.changes <= before.changes <= after.changes
    requires Journalled(Since(first, before)) && Journalled(Since(before, after))
    requires CostUntouched(first, before, key) ==>
               RowAt(before.rows, key) == RowThrough(RowAt(first.rows, key), Since(first, before), key)
    requires CostUntouched(before, after, key) ==>
               RowAt(after.rows, key) == RowThrough(RowAt(before.rows, key), Since(before, after), key)
    ensures Journalled(Since(first, after))
    ensures CostUntouched(first, after, key) ==>
              RowAt(after.rows, key) == RowThrough(RowAt(first.rows, key), Since(first, after), key)
  {
    assert Since(first, after) == Since(first, before) + Since(before, after);
    RowThroughBoth(RowAt(first.rows, key), Since(first, before), Since(before, after), key);
    if CostUntouched(first, after, key) {
      forall i | |first.changes| <= i < |before.changes| ensures before.changes[i].key != key {
        assert after.changes[i] == before.changes[i];
      }
    }
  }

  /** Over any such history from a known cost, as long as what comes in at a known cost finds
      stock above zero, the valuation moves by the worth of what came in and went out, within
      half a cost quantum per unit held at each rounding. */
  lemma {:induction false} ValuationInEveryHistory(db: Db, cs: seq<Command>, key: StockKey)
    requires Inv(db) && RowAt(db.book.rows, key).cost.Some?
    requires db.book.movements <= Run(db, cs).book.movements && db.book.changes <= Run(db, cs).book.changes
    requires Journalled(Since(db.book, Run(db, cs).book)) && CostUntouched(db.book, Run(db, cs).book, key)
    requires FindsStock(RowAt(db.book.rows, key), Since(db.book, Run(db, cs).book), key)
    ensures RowAt(Run(db, cs).book.rows, key).cost.Some?
    ensures var row, ms := RowAt(db.book.rows, key), Since(db.book, Run(db, cs).book);
            var drift := Value(RowAt(Run(db, cs).book.rows, key)) - Value(row) - WorthThrough(row, ms, key);
            -UnitsHeld(row, ms, key) <= 2 * drift <= UnitsHeld(row, ms, key)
  {
    RowIsItsJournal(db, cs, key);
    ValuationDrift(RowAt(db.book.rows, key), Since(db.book, Run(db, cs).book), key);
  }

  // ---------- The drawer ----------

  /** What an effect puts into the drawer of a session, or takes out of it. */
  ghost function CashDelta(db: Db, effect: Effect, session: Uuid): int
    requires effect.SaleUndone? ==> effect.at < |db.sales|
    requires effect.SpendingUndone? ==> effect.at < |db.expenses|
  {
    match effect
    case SaleBooked(t, sale, _) => if t.session == session then Sum(sale.payments, By(Cash)) else 0
    case SaleUndone(at) => if db.sales[at].session == session then -Sum(db.sales[at].payments, By(Cash)) else 0
    case GoodsReturned(row) => -RefundedOf(ReturnedIn(session), Cash)(row)
    case DebtRepaid(p) => RepaidOf(session, Cash)(p)
    case MoneySpent(e) => -SpentOf(session, Cash)(e)
    case SpendingUndone(at) => SpentOf(session, Cash)(db.expenses[at])
    case _ => 0
  }

  lemma {:induction false} DrawerMoves(db: Db, effect: Effect, after: Db, session: Uuid)
    requires Applies(db, effect, after) && session in db.sessions
    ensures session in after.sessions
    ensures ExpectedCash(after, session) == ExpectedCash(db, session) + CashDelta(db, effect, session)
  {
    match effect
    case SaleBooked(t, sale, _) => SumPush(db.sales, sale, TakenOf(SoldIn(session), Cash));
    case SaleUndone(at) => SumReplace(db.sales, at, db.sales[at].(cancelled := true), TakenOf(SoldIn(session), Cash));
    case GoodsReturned(row) => SumPush(db.saleReturns, row, RefundedOf(ReturnedIn(session), Cash));
    case DebtRepaid(p) => SumPush(db.repayments, p, RepaidOf(session, Cash));
    case MoneySpent(e) => SumPush(db.expenses, e, SpentOf(session, Cash));
    case SpendingUndone(at) => SumReplace(db.expenses, at, db.expenses[at].(cancelled := true), SpentOf(session, Cash));
    case _ =>
  }

  ghost predicate DrawersInv(db: Db) {
    forall session :: session in db.sessions ==> ExpectedCash(db, session) >= 0
  }

  lemma {:induction false} CashNonneg(ps: seq<Payment>)
    requires forall p :: p in ps ==> p.amount > 0
    ensures Sum(ps, By(Cash)) >= 0
  {
    assert forall i :: 0 <= i < |ps| ==> ps[i] in ps;
    SumNonneg(ps, By(Cash));
  }

  lemma {:induction false} NewDrawer(db: Db, effect: Effect, after: Db, session: Uuid)
    requires RecordsInv(db) && Applies(db, effect, after)
    requires session !in db.sessions && session in after.sessions
    ensures ExpectedCash(after, session) == after.sessions[session].opening
  {
    assert forall i :: 0 <= i < |db.sales| ==> SaleRecord(db.sessions, db.sales[i]);
    assert forall i :: 0 <= i < |db.saleReturns| ==> ReturnRecord(db.sessions, db.sales, db.saleReturns[i]);
    SumZero(db.sales, TakenOf(SoldIn(session), Cash));
    SumZero(db.saleReturns, RefundedOf(ReturnedIn(session), Cash));
    SumZero(db.repayments, RepaidOf(session, Cash));
    SumZero(db.expenses, SpentOf(session, Cash));
  }

  /** No effect but a cancellation takes out of a drawer more than it holds. */
  lemma {:induction false} DeltaCovered(db: Db, effect: Effect, session: Uuid)
    requires Legit(db, effect) && ExpenseRecords(db.sessions, db.expenses) && !effect.SaleUndone?
               && session in db.sessions
    ensures CashDelta(db, effect, session) >= 0 || ExpectedCash(db, session) + CashDelta(db, effect, session) >= 0
  {
    if effect.SaleBooked? { CashNonneg(effect.sale.payments); }
  }

  lemma {:induction false} DrawersKept(db: Db, effect: Effect, after: Db)
    requires RecordsInv(db) && DrawersInv(db) && Applies(db, effect, after) && !effect.SaleUndone?
    ensures DrawersInv(after)
  {
    forall session | session in after.sessions ensures ExpectedCash(after, session) >= 0 {
      if session in db.sessions {
        assert ExpectedCash(db, session) >= 0;
        DeltaCovered(db, effect, session);
        DrawerMoves(db, effect, after, session);
      } else {
        NewDrawer(db, effect, after, session);
      }
    }
  }

  /** Without cancellations of sales, no drawer is ever expected below zero. */
  lemma {:induction false} DrawersInEveryHistory(cs: seq<Command>)
    requires forall c :: c in cs ==> !c.Cancel?
    ensures DrawersInv(Run(EMPTY, cs))
  {
    if |cs| > 0 {
      var front, c := cs[..|cs| - 1], cs[|cs| - 1];
      DrawersInEveryHistory(front);
      EmptyInv();
      RunKeeps(EMPTY, front);
      var before, after := Run(EMPTY, front), Run(EMPTY, cs);
      assert c in cs;
      var effect := StepApplies(before, c);
      DrawersKept(before, effect, after);
    }
  }

  /** A cancellation lowers the drawer of the sale's session by exactly its cash legs and
      touches no other; it leaves the drawer negative exactly when the drawer held less. */
  lemma {:induction false} CancellationAndDrawer(db: Db, id: Uuid, user: User, session: Uuid)
    requires CancelSaleSpec(db, id, user).Ok? && session in db.sessions
    ensures var after := CancelSaleSpec(db, id, user).value;
            var sale := db.sales[FindSale(db.sales, id)];
            && session in after.sessions
            && ExpectedCash(after, session) ==
              ExpectedCash(db, session) - (if sale.session == session then Sum(sale.payments, By(Cash)) else 0)
            && (sale.session == session ==>
              (ExpectedCash(after, session) < 0 <==> ExpectedCash(db, session) < Sum(sale.payments, By(Cash))))
  {
    DrawerMoves(db, SaleUndone(FindSale(db.sales, id)), CancelSaleSpec(db, id, user).value, session);
  }

  // ---------- After closing ----------

  ghost predicate IsClosed(db: Db, session: Uuid) {
    session in db.sessions && db.sessions[session].status.Closed?
  }

  lemma {:induction false} ClosedTotalsMoveOnlyBySales(db: Db, effect: Effect, after: Db, session: Uuid)
    requires Applies(db, effect, after) && IsClosed(db, session)
    requires effect.SaleBooked? ==> effect.terms.session != session
    requires effect.SaleUndone? ==> db.sales[effect.at].session != session
    ensures AggregateTotals(after, session) == AggregateTotals(db, session)
    ensures after.sessions[session] == db.sessions[session]
  {
    match effect
    case SaleBooked(t, sale, _) => SaleElsewhere(db.sales, sale, session);
    case SaleUndone(at) => UndoneElsewhere(db.sales, at, session);
    case GoodsReturned(row) => ReturnElsewhere(db.saleReturns, row, session);
    case DebtRepaid(p) => RepaidElsewhere(db.repayments, p, session);
    case MoneySpent(e) => SpentElsewhere(db.expenses, e, session);
    case SpendingUndone(at) => UnspentElsewhere(db.expenses, at, session);
    case _ =>
  }

  lemma {:induction false} ReturnElsewhere(rows: seq<SaleReturn>, row: SaleReturn, session: Uuid)
    requires row.session != session
    ensures var returned := ReturnedIn(session);
            && Sum(rows + [row], ReturnedOf(returned)) == Sum(rows, ReturnedOf(returned))
            && Sum(rows + [row], CreditReturnedOf(returned)) == Sum(rows, CreditReturnedOf(returned))
            && (forall means ::
              Sum(rows + [row], RefundedOf(returned, means)) == Sum(rows, RefundedOf(returned, means)))
  {
    var returned := ReturnedIn(session);
    SumPush(rows, row, ReturnedOf(returned));
    SumPush(rows, row, CreditReturnedOf(returned));
    forall means ensures Sum(rows + [row], RefundedOf(returned, means)) == Sum(rows, RefundedOf(returned, means)) {
      SumPush(rows, row, RefundedOf(returned, means));
    }
  }

  lemma {:induction false} RepaidElsewhere(rows: seq<Repayment>, row: Repayment, session: Uuid)
    requires row.session != session
    ensures forall means :: Sum(rows + [row], RepaidOf(session, means)) == Sum(rows, RepaidOf(session, means))
  {
    forall means ensures Sum(rows + [row], RepaidOf(session, means)) == Sum(rows, RepaidOf(session, means)) {
      SumPush(rows, row, RepaidOf(session, means));
    }
  }

  lemma {:induction false} SpentElsewhere(rows: seq<Expense>, row: Expense, session: Uuid)
    requires row.session != session
    ensures forall means :: Sum(rows + [row], SpentOf(session, means)) == Sum(rows, SpentOf(session, means))
  {
    forall means ensures Sum(rows + [row], SpentOf(session, means)) == Sum(rows, SpentOf(session, means)) {
      SumPush(rows, row, SpentOf(session, means));
    }
  }

  lemma {:induction false} UnspentElsewhere(rows: seq<Expense>, at: nat, session: Uuid)
    requires at < |rows| && rows[at].session != session
    ensures forall means ::
              Sum(rows[at := rows[at].(cancelled := true)], SpentOf(session, means)) ==
                Sum(rows, SpentOf(session, means))
  {
    forall means
      ensures Sum(rows[at := rows[at].(cancelled := true)], SpentOf(session, means)) ==
                Sum(rows, SpentOf(session, means)) {
      SumReplace(rows, at, rows[at].(cancelled := true), SpentOf(session, means));
    }
  }

  lemma {:induction false} SaleElsewhere(sales: seq<Sale>, sale: Sale, session: Uuid)
    requires sale.session != session
    ensures var sold := SoldIn(session);
            && Sum(sales + [sale], SalesCountOf(sold)) == Sum(sales, SalesCountOf(sold))
            && Sum(sales + [sale], GrossOf(sold)) == Sum(sales, GrossOf(sold))
            && Sum(sales + [sale], CreditOf(sold)) == Sum(sales, CreditOf(sold))
            && (forall means :: Sum(sales + [sale], TakenOf(sold, means)) == Sum(sales, TakenOf(sold, means)))
  {
    var sold := SoldIn(session);
    SumPush(sales, sale, SalesCountOf(sold));
    SumPush(sales, sale, GrossOf(sold));
    SumPush(sales, sale, CreditOf(sold));
    forall means ensures Sum(sales + [sale], TakenOf(sold, means)) == Sum(sales, TakenOf(sold, means)) {
      SumPush(sales, sale, TakenOf(sold, means));
    }
  }

  lemma {:induction false} UndoneElsewhere(sales: seq<Sale>, at: nat, session: Uuid)
    requires at < |sales| && sales[at].session != session
    ensures var sold := SoldIn(session);
            var after := sales[at := sales[at].(cancelled := true)];
            && Sum(after, SalesCountOf(sold)) == Sum(sales, SalesCountOf(sold))
            && Sum(after, GrossOf(sold)) == Sum(sales, GrossOf(sold))
            && Sum(after, CreditOf(sold)) == Sum(sales, CreditOf(sold))
            && (forall means :: Sum(after, TakenOf(sold, means)) == Sum(sales, TakenOf(sold, means)))
  {
    var sold := SoldIn(session);
    var sale := sales[at].(cancelled := true);
    SumReplace(sales, at, sale, SalesCountOf(sold));
    SumReplace(sales, at, sale, GrossOf(sold));
    SumReplace(sales, at, sale, CreditOf(sold));
    forall means ensures Sum(sales[at := sale], TakenOf(sold, means)) == Sum(sales, TakenOf(sold, means)) {
      SumReplace(sales, at, sale, TakenOf(sold, means));
    }
  }

  /** After a session is closed, its stored closing never changes, and its recomputed
      totals change only by a late offline sale that happened before the closing, or by
      a cancellation made by staff. */
  lemma {:induction false} AfterClosing(db: Db, c: Command, session: Uuid)
    requires Inv(db) && IsClosed(db, session)
    ensures session in Step(db, c).sessions && Step(db, c).sessions[session] == db.sessions[session]
    ensures AggregateTotals(Step(db, c), session) != AggregateTotals(db, session) ==>
              || ((c.Transmit? || c.CommitLate?) && c.event.session == session
                && c.event.at <= db.sessions[session].status.closedAt)
              || (c.Cancel? && c.user.staff && FindSale(db.sales, c.sale) < |db.sales|
                  && db.sales[FindSale(db.sales, c.sale)].session == session)
  {
    var effect := StepApplies(db, c);
    if !(effect.SaleBooked? && effect.terms.session == session)
      && !(effect.SaleUndone? && db.sales[effect.at].session == session) {
      ClosedTotalsMoveOnlyBySales(db, effect, Step(db, c), session);
    }
  }

  // ---------- Exactly-once effects ----------

  function SoldBy(sale: Uuid): Movement -> bool {
    (m: Movement) => m.kind.SaleOut? && m.reference == Some(sale)
  }

  function OwedFor(sale: Uuid): Entry -> bool {
    (e: Entry) => e.kind == CreditSale(sale)
  }

  function StockEffect(db: Db, sale: Uuid): seq<Movement> {
    var at := FindSale(db.sales, sale);
    if at < |db.sales| && db.sales[at].session in db.sessions
    then SaleMoves(db.sessions[db.sales[at].session].store, db.sales[at].items, sale) else []
  }

  function LedgerEffect(db: Db, sale: Uuid): seq<Entry> {
    var at := FindSale(db.sales, sale);
    if at < |db.sales| && db.sales[at].credit > 0 && db.sales[at].customer.Some?
    then [Entry(db.sales[at].customer.value, CreditSale(sale), db.sales[at].credit)] else []
  }

  /** The journals hold the effects of this sale once, in full, or nothing at all. */
  ghost predicate EffectsOnce(db: Db, sale: Uuid) {
    && Filter(db.book.movements, SoldBy(sale)) == StockEffect(db, sale)
    && Filter(db.entries, OwedFor(sale)) == LedgerEffect(db, sale)
  }

  lemma {:induction false} JournalGains(db: Db, effect: Effect, after: Db, sale: Uuid)
    requires Applies(db, effect, after)
    ensures Filter(after.book.movements, SoldBy(sale)) ==
            Filter(db.book.movements, SoldBy(sale)) +
            if effect.SaleBooked? && effect.terms.id == sale then Posted(db, effect) else []
  {
    var ms := Posted(db, effect);
    BookGrows(db, effect);
    assert db.book.movements + [] == db.book.movements;
    FilterConcat(db.book.movements, ms, SoldBy(sale));
    if effect.SaleBooked? && effect.terms.id == sale {
      FilterAll(ms, SoldBy(sale));
    } else {
      forall i | 0 <= i < |ms| ensures !SoldBy(sale)(ms[i]) { assert ms[i] in ms; }
      FilterNone(ms, SoldBy(sale));
      assert Filter(db.book.movements, SoldBy(sale)) + [] == Filter(db.book.movements, SoldBy(sale));
    }
  }

  lemma {:induction false} LedgerGains(db: Db, effect: Effect, after: Db, sale: Uuid)
    requires Applies(db, effect, after)
    ensures Filter(after.entries, OwedFor(sale)) ==
            Filter(db.entries, OwedFor(sale)) +
            if effect.SaleBooked? && effect.terms.id == sale then CreditEntries(effect.terms) else []
  {
    var added := EntryAppended(db, effect);
    FilterConcat(db.entries, added, OwedFor(sale));
    if effect.SaleBooked? {
      CreditEntriesFor(effect.terms, sale);
    } else {
      NoCreditAdded(added, sale);
      assert Filter(db.entries, OwedFor(sale)) + [] == Filter(db.entries, OwedFor(sale));
    }
  }

  lemma {:induction false} NoCreditAdded(added: seq<Entry>, sale: Uuid)
    requires forall i :: 0 <= i < |added| ==> !added[i].kind.CreditSale?
    ensures Filter(added, OwedFor(sale)) == []
  {
    FilterNone(added, OwedFor(sale));
  }

  lemma {:induction false} CreditEntriesFor(t: SaleTerms, sale: Uuid)
    requires t.credit > 0 ==> t.customer.Some?
    ensures Filter(CreditEntries(t), OwedFor(sale)) == if t.id == sale then CreditEntries(t) else []
  {
    if t.id == sale {
      FilterAll(CreditEntries(t), OwedFor(sale));
    } else {
      FilterNone(CreditEntries(t), OwedFor(sale));
    }
  }

  lemma {:induction false} OldEffectsStay(db: Db, effect: Effect, after: Db, sale: Uuid)
    requires SaleRecords(db.sessions, db.sales) && Applies(db, effect, after)
    requires !(effect.SaleBooked? && effect.terms.id == sale)
    ensures StockEffect(after, sale) == StockEffect(db, sale) && LedgerEffect(after, sale) == LedgerEffect(db, sale)
  {
    TablesExtend(db, effect);
    var at := FindSale(db.sales, sale);
    if at < |db.sales| {
      FoundAgain(db.sales, after.sales, sale);
      assert SaleRecord(db.sessions, db.sales[at]);
    }
  }

  lemma {:induction false} NewEffects(db: Db, effect: Effect, after: Db)
    requires Applies(db, effect, after) && effect.SaleBooked?
    ensures StockEffect(db, effect.terms.id) == [] && LedgerEffect(db, effect.terms.id) == []
    ensures StockEffect(after, effect.terms.id) == Posted(db, effect)
    ensures LedgerEffect(after, effect.terms.id) == CreditEntries(effect.terms)
  {
    assert after.sales[|db.sales|] == effect.sale;
    assert FindSale(after.sales, effect.terms.id) == |db.sales|;
  }

  lemma {:induction false} EffectsOnceKept(db: Db, effect: Effect, after: Db, sale: Uuid)
    requires SaleRecords(db.sessions, db.sales) && Applies(db, effect, after) && EffectsOnce(db, sale)
    ensures EffectsOnce(after, sale)
  {
    LedgerGains(db, effect, after, sale);
    JournalGains(db, effect, after, sale);
    if effect.SaleBooked? && effect.terms.id == sale {
      NewEffects(db, effect, after);
    } else {
      OldEffectsStay(db, effect, after, sale);
    }
  }

  /** In every history a sale identifier names at most one sale, and the stock and ledger
      effects of that sale are in the journals exactly once, even after it is cancelled. */
  lemma {:induction false} EffectsOnceInEveryHistory(cs: seq<Command>, sale: Uuid)
    ensures EffectsOnce(Run(EMPTY, cs), sale)
    ensures forall i, j :: 0 <= i < j < |Run(EMPTY, cs).sales| ==>
              Run(EMPTY, cs).sales[i].id != Run(EMPTY, cs).sales[j].id
  {
    EmptyInv();
    RunKeeps(EMPTY, cs);
    if |cs| > 0 {
      var front := cs[..|cs| - 1];
      EffectsOnceInEveryHistory(front, sale);
      RunKeeps(EMPTY, front);
      var effect := StepApplies(Run(EMPTY, front), cs[|cs| - 1]);
      EffectsOnceKept(Run(EMPTY, front), effect, Run(EMPTY, cs), sale);
    }
  }

  // ---------- Keyed replay ----------

  lemma {:induction false} ReturnIsKept(db: Db, q: ReturnRequest)
    requires ReturnSpec(db, q).Ok?
    ensures var (after, row) := ReturnSpec(db, q).value;
            var at := FindReturn(after.saleReturns, q.key);
            at < |after.saleReturns| && after.saleReturns[at] == row
            && row.sale == q.sale && row.session == q.session && row.author == q.author
  {
    var (after, row) := ReturnSpec(db, q).value;
    if FindReturn(db.saleReturns, q.key) == |db.saleReturns| {
      assert after.saleReturns[|db.saleReturns|] == row;
    }
  }

  lemma {:induction false} ReturnStillFound(before: seq<SaleReturn>, now: seq<SaleReturn>, key: Uuid)
    requires before <= now && FindReturn(before, key) < |before|
    ensures FindReturn(now, key) == FindReturn(before, key)
  {
    assert now[FindReturn(before, key)].key == key;
  }

  lemma {:induction false} ReturnAnswered(db: Db, q: ReturnRequest)
    requires FindReturn(db.saleReturns, q.key) < |db.saleReturns|
    requires ExistingReturn(db.saleReturns[FindReturn(db.saleReturns, q.key)], q).Ok?
    ensures ReturnSpec(db, q) == Ok((db, db.saleReturns[FindReturn(db.saleReturns, q.key)]))
  {
  }

  lemma {:induction false} ReturnStays(db: Db, q: ReturnRequest, later: seq<Command>)
    requires Inv(db) && ReturnSpec(db, q).Ok?
    ensures var (after, row) := ReturnSpec(db, q).value;
            var now := Run(after, later);
            var at := FindReturn(now.saleReturns, q.key);
            at < |now.saleReturns| && now.saleReturns[at] == row
            && row.sale == q.sale && row.session == q.session && row.author == q.author
  {
    var (after, row) := ReturnSpec(db, q).value;
    assert Step(db, TakeBack(q)) == after;
    StepKeeps(db, TakeBack(q));
    RunGrows(after, later);
    ReturnIsKept(db, q);
    ReturnStillFound(after.saleReturns, Run(after, later).saleReturns, q.key);
  }

  /** Replaying a return's key with its sale, session and author, after anything else has
      happened, gives back the original return and changes nothing. */
  lemma {:induction false} ReturnReplay(db: Db, q: ReturnRequest, later: seq<Command>, again: ReturnRequest)
    requires Inv(db) && ReturnSpec(db, q).Ok?
    requires again.key == q.key && again.sale == q.sale && again.session == q.session && again.author == q.author
    ensures var (after, row) := ReturnSpec(db, q).value;
            ReturnSpec(Run(after, later), again) == Ok((Run(after, later), row))
  {
    ReturnStays(db, q, later);
    ReturnAnswered(Run(ReturnSpec(db, q).value.0, later), again);
  }

  lemma {:induction false} RepaymentIsKept(db: Db, p: RepaymentInput)
    requires RepaymentSpec(db, p).Ok?
    ensures var (after, row) := RepaymentSpec(db, p).value;
            var at := FindRepayment(after.repayments, p.key);
            at < |after.repayments| && after.repayments[at] == row
            && row.customer == p.customer && row.session == p.session && row.author == p.author
  {
    var (after, row) := RepaymentSpec(db, p).value;
    if FindRepayment(db.repayments, p.key) == |db.repayments| {
      assert after.repayments[|db.repayments|] == row;
    }
  }

  lemma {:induction false} RepaymentStillFound(before: seq<Repayment>, now: seq<Repayment>, key: Uuid)
    requires before <= now && FindRepayment(before, key) < |before|
    ensures FindRepayment(now, key) == FindRepayment(before, key)
  {
    assert now[FindRepayment(before, key)].key == key;
  }

  lemma {:induction false} RepaymentReplay(db: Db, p: RepaymentInput, later: seq<Command>, again: RepaymentInput)
    requires Inv(db) && RepaymentSpec(db, p).Ok?
    requires again.key == p.key && again.customer == p.customer && again.session == p.session
               && again.author == p.author
    ensures var (after, row) := RepaymentSpec(db, p).value;
            RepaymentSpec(Run(after, later), again) == Ok((Run(after, later), row))
  {
    var (after, row) := RepaymentSpec(db, p).value;
    assert Step(db, Repay(p)) == after;
    StepKeeps(db, Repay(p));
    RunGrows(after, later);
    RepaymentIsKept(db, p);
    RepaymentStillFound(after.repayments, Run(after, later).repayments, p.key);
  }

  lemma {:induction false} ExpenseIsKept(db: Db, x: ExpenseInput)
    requires CreateExpenseSpec(db, x).Ok?
    ensures var (after, row) := CreateExpenseSpec(db, x).value;
            var at := FindExpense(after.expenses, x.key);
            at < |after.expenses| && after.expenses[at] == row && SameExpense(row, x) && x.amount > 0
  {
    var (after, row) := CreateExpenseSpec(db, x).value;
    if FindExpense(db.expenses, x.key) == |db.expenses| {
      assert after.expenses[|db.expenses|] == row;
    }
  }

  lemma {:induction false} ExpenseStillFound(before: seq<Expense>, now: seq<Expense>, key: Uuid)
    requires ExpensesExtend(before, now) && FindExpense(before, key) < |before|
    ensures FindExpense(now, key) == FindExpense(before, key)
  {
    var at := FindExpense(before, key);
    assert now[at].key == key;
    var found := FindExpense(now, key);
    assert now[found].key == key;
    assert found < |before| ==> before[found].key == key;
  }

  /** The original expense comes back even if it has been cancelled since. */
  lemma {:induction false} ExpenseReplay(db: Db, x: ExpenseInput, later: seq<Command>)
    requires Inv(db) && CreateExpenseSpec(db, x).Ok?
    ensures var (after, row) := CreateExpenseSpec(db, x).value;
            var now := Run(after, later);
            var r := CreateExpenseSpec(now, x);
            r.Ok? && r.value.0 == now && r.value.1 == row.(cancelled := r.value.1.cancelled)
            && now.expenses[FindExpense(now.expenses, x.key)] == r.value.1
  {
    var (after, row) := CreateExpenseSpec(db, x).value;
    assert Step(db, Spend(x)) == after;
    StepKeeps(db, Spend(x));
    RunGrows(after, later);
    ExpenseIsKept(db, x);
    ExpenseStillFound(after.expenses, Run(after, later).expenses, x.key);
  }

  /** In every history each idempotency key names at most one row. */
  lemma {:induction false} KeysInEveryHistory(cs: seq<Command>)
    ensures UniqueKeys(Run(EMPTY, cs))
  {
    EmptyInv();
    RunKeeps(EMPTY, cs);
  }
}
