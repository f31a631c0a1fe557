/** What every step of the server keeps, hence what holds after every history. */
module Invariants {
  import opened Sums
  import opened Tables
  import opened Inventory
  import opened Customers
  import opened CashDesk
  import opened Sales
  import opened Returns
  import opened Services

  // ---------- Unique keys ----------

  ghost predicate UniqueSales(rows: seq<Sale>) {
    forall i, j :: 0 <= i < j < |rows| ==> rows[i].id != rows[j].id
  }

  ghost predicate UniqueReturns(rows: seq<SaleReturn>) {
    forall i, j :: 0 <= i < j < |rows| ==> rows[i].key != rows[j].key
  }

  ghost predicate UniqueRepayments(rows: seq<Repayment>) {
    forall i, j :: 0 <= i < j < |rows| ==> rows[i].key != rows[j].key
  }

  ghost predicate UniqueExpenses(rows: seq<Expense>) {
    forall i, j :: 0 <= i < j < |rows| ==> rows[i].key != rows[j].key
  }

  ghost predicate UniqueEvents(rows: seq<ProcessedEvent>) {
    forall i, j :: 0 <= i < j < |rows| ==> rows[i].event != rows[j].event
  }

  ghost predicate UniqueKeys(db: Db) {
    && UniqueSales(db.sales) && UniqueReturns(db.saleReturns) && UniqueRepayments(db.repayments)
    && UniqueExpenses(db.expenses) && UniqueEvents(db.events)
  }

  lemma {:induction false} UniqueSalesKept(db: Db, effect: Effect)
    requires UniqueSales(db.sales) && Legit(db, effect)
    ensures UniqueSales(SalesAfter(db, effect))
  {
  }

  lemma {:induction false} UniqueReturnsKept(db: Db, effect: Effect)
    requires UniqueReturns(db.saleReturns) && Legit(db, effect)
    ensures UniqueReturns(ReturnsAfter(db, effect))
  {
  }

  lemma {:induction false} UniqueRepaymentsKept(db: Db, effect: Effect)
    requires UniqueRepayments(db.repayments) && Legit(db, effect)
    ensures UniqueRepayments(RepaymentsAfter(db, effect))
  {
  }

  lemma {:induction false} UniqueExpensesKept(db: Db, effect: Effect)
    requires UniqueExpenses(db.expenses) && Legit(db, effect)
    ensures UniqueExpenses(ExpensesAfter(db, effect))
  {
  }

  lemma {:induction false} UniqueEventsKept(db: Db, effect: Effect)
    requires UniqueEvents(db.events) && Legit(db, effect)
    ensures UniqueEvents(EventsAfter(db, effect))
  {
  }

  // ---------- Sales stay where they are ----------

  /** Sales are found where they were; only their cancellation mark may change. */
  ghost predicate SalesExtend(before: seq<Sale>, after: seq<Sale>) {
    && |before| <= |after|
    && (forall i :: 0 <= i < |before| ==>
          after[i] == before[i].(cancelled := after[i].cancelled) && (before[i].cancelled ==> after[i].cancelled))
  }

  ghost predicate SessionsExtend(before: map<Uuid, Session>, after: map<Uuid, Session>) {
    forall s :: s in before ==> s in after && after[s].store == before[s].store && after[s].opening == before[s].opening
  }

  lemma {:induction false} TablesExtend(db: Db, effect: Effect)
    requires Legit(db, effect)
    ensures SalesExtend(db.sales, SalesAfter(db, effect))
    ensures SessionsExtend(db.sessions, SessionsAfter(db, effect))
  {
  }

  lemma {:induction false} FoundAgain(before: seq<Sale>, after: seq<Sale>, id: Uuid)
    requires SalesExtend(before, after) && FindSale(before, id) < |before|
    ensures FindSale(after, id) == FindSale(before, id)
  {
    var at := FindSale(before, id);
    assert after[at].id == id;
    var now := FindSale(after, id);
    assert now < |after| && after[now].id == id;
    assert now < |before| ==> before[now].id == id;
  }

  lemma {:induction false} FoundAt(rows: seq<Sale>, i: nat)
    requires UniqueSales(rows) && i < |rows|
    ensures FindSale(rows, rows[i].id) == i
  {
  }

  // ---------- Records ----------

  ghost predicate SaleRecord(sessions: map<Uuid, Session>, s: Sale) {
    SaleSound(s) && s.session in sessions
  }

  ghost predicate ReturnRecord(sessions: map<Uuid, Session>, sales: seq<Sale>, r: SaleReturn) {
    && ReturnSound(r) && r.session in sessions
    && FindSale(sales, r.sale) < |sales|
    && !sales[FindSale(sales, r.sale)].cancelled
    && PricedFrom(sales[FindSale(sales, r.sale)], r.lines)
  }

  ghost predicate SaleRecords(sessions: map<Uuid, Session>, sales: seq<Sale>) {
    forall i :: 0 <= i < |sales| ==> SaleRecord(sessions, sales[i])
  }

  ghost predicate ReturnRecords(sessions: map<Uuid, Session>, sales: seq<Sale>, rows: seq<SaleReturn>) {
    forall i :: 0 <= i < |rows| ==> ReturnRecord(sessions, sales, rows[i])
  }

  ghost predicate RepaymentRecords(sessions: map<Uuid, Session>, rows: seq<Repayment>) {
    forall i :: 0 <= i < |rows| ==> SnapshotSound(rows[i]) && rows[i].session in sessions
  }

  ghost predicate ExpenseRecords(sessions: map<Uuid, Session>, rows: seq<Expense>) {
    forall i :: 0 <= i < |rows| ==> rows[i].amount > 0 && rows[i].session in sessions
  }

  ghost predicate EventRecords(sales: seq<Sale>, rows: seq<ProcessedEvent>) {
    forall i :: 0 <= i < |rows| ==> FindSale(sales, rows[i].entity) < |sales|
  }

  ghost predicate RecordsInv(db: Db) {
    && UniqueKeys(db)
    && SaleRecords(db.sessions, db.sales)
    && ReturnRecords(db.sessions, db.sales, db.saleReturns)
    && RepaymentRecords(db.sessions, db.repayments)
    && ExpenseRecords(db.sessions, db.expenses)
    && EventRecords(db.sales, db.events)
    && OneOpenPerRegister(db.sessions)
  }

  lemma {:induction false} SaleRecordsKept(db: Db, effect: Effect)
    requires SaleRecords(db.sessions, db.sales) && Legit(db, effect)
    ensures SaleRecords(SessionsAfter(db, effect), SalesAfter(db, effect))
  {
    TablesExtend(db, effect);
    var sales := SalesAfter(db, effect);
    forall i | 0 <= i < |sales| ensures SaleRecord(SessionsAfter(db, effect), sales[i]) {
      if i < |db.sales| { assert SaleRecord(db.sessions, db.sales[i]); }
    }
  }

  lemma {:induction false} ReturnRecordsKept(db: Db, effect: Effect)
    requires ReturnRecords(db.sessions, db.sales, db.saleReturns) && Legit(db, effect)
    ensures ReturnRecords(SessionsAfter(db, effect), SalesAfter(db, effect), ReturnsAfter(db, effect))
  {
    TablesExtend(db, effect);
    var rows, sales := ReturnsAfter(db, effect), SalesAfter(db, effect);
    forall i | 0 <= i < |rows| ensures ReturnRecord(SessionsAfter(db, effect), sales, rows[i]) {
      FoundAgain(db.sales, sales, rows[i].sale) by {
        if i < |db.saleReturns| { assert ReturnRecord(db.sessions, db.sales, db.saleReturns[i]); }
      }
      if i < |db.saleReturns| {
        assert ReturnRecord(db.sessions, db.sales, db.saleReturns[i]);
        if effect.SaleUndone? { NotUndoneWithReturns(db, effect.at, db.saleReturns[i]); }
      }
    }
  }

  /** A sale with returns is never cancelled. */
  lemma {:induction false} NotUndoneWithReturns(db: Db, at: nat, r: SaleReturn)
    requires Undoable(db, at) && r in db.saleReturns
    ensures FindSale(db.sales, r.sale) != at
  {
    assert !HasReturns(db.saleReturns, db.sales[at].id);
  }

  lemma {:induction false} RepaymentRecordsKept(db: Db, effect: Effect)
    requires RepaymentRecords(db.sessions, db.repayments) && Legit(db, effect)
    ensures RepaymentRecords(SessionsAfter(db, effect), RepaymentsAfter(db, effect))
  {
    TablesExtend(db, effect);
  }

  lemma {:induction false} ExpenseRecordsKept(db: Db, effect: Effect)
    requires ExpenseRecords(db.sessions, db.expenses) && Legit(db, effect)
    ensures ExpenseRecords(SessionsAfter(db, effect), ExpensesAfter(db, effect))
  {
    TablesExtend(db, effect);
  }

  lemma {:induction false} EventRecordsKept(db: Db, effect: Effect)
    requires EventRecords(db.sales, db.events) && Legit(db, effect)
    ensures EventRecords(SalesAfter(db, effect), EventsAfter(db, effect))
  {
    TablesExtend(db, effect);
    var rows, sales := EventsAfter(db, effect), SalesAfter(db, effect);
    forall i | 0 <= i < |rows| ensures FindSale(sales, rows[i].entity) < |sales| {
      if i < |db.events| {
        FoundAgain(db.sales, sales, rows[i].entity);
      } else {
        assert sales[|db.sales|].id == rows[i].entity;
      }
    }
  }

  lemma {:induction false} SessionsKept(db: Db, effect: Effect)
    requires OneOpenPerRegister(db.sessions) && Legit(db, effect)
    ensures OneOpenPerRegister(SessionsAfter(db, effect))
  {
  }

  lemma {:induction false} RecordsKept(db: Db, effect: Effect, after: Db)
    requires RecordsInv(db) && Applies(db, effect, after)
    ensures RecordsInv(after)
  {
    UniqueSalesKept(db, effect);
    UniqueReturnsKept(db, effect);
    UniqueRepaymentsKept(db, effect);
    UniqueExpensesKept(db, effect);
    UniqueEventsKept(db, effect);
    SaleRecordsKept(db, effect);
    ReturnRecordsKept(db, effect);
    RepaymentRecordsKept(db, effect);
    ExpenseRecordsKept(db, effect);
    EventRecordsKept(db, effect);
    SessionsKept(db, effect);
  }

  // ---------- Returned quantities and credit ----------

  ghost predicate QuantitiesInv(sales: seq<Sale>, rows: seq<SaleReturn>) {
    forall i, item: nat :: 0 <= i < |sales| && item < |sales[i].items| ==>
      AlreadyReturned(rows, sales[i].id, item) <= sales[i].items[item].quantity
  }

  function CreditTaken(sale: Uuid): SaleReturn -> int {
    (r: SaleReturn) => if r.sale == sale then r.creditReduction else 0
  }

  lemma {:induction false} NothingReturnedYet(db: Db, id: Uuid, item: nat)
    requires ReturnRecords(db.sessions, db.sales, db.saleReturns) && FindSale(db.sales, id) == |db.sales|
    ensures AlreadyReturned(db.saleReturns, id, item) == 0
    ensures Sum(db.saleReturns, CreditTaken(id)) == 0
  {
    assert forall i :: 0 <= i < |db.saleReturns| ==>
        ReturnRecord(db.sessions, db.sales, db.saleReturns[i]) && db.saleReturns[i].sale != id;
    SumZero(db.saleReturns, UnitsReturned(id, item));
    SumZero(db.saleReturns, CreditTaken(id));
  }

  lemma {:induction false} QuantityKept(db: Db, effect: Effect, i: nat, item: nat)
    requires ReturnRecords(db.sessions, db.sales, db.saleReturns) && UniqueSales(db.sales) && Legit(db, effect)
    requires QuantitiesInv(db.sales, db.saleReturns)
    requires i < |SalesAfter(db, effect)| && item < |SalesAfter(db, effect)[i].items|
    ensures AlreadyReturned(ReturnsAfter(db, effect), SalesAfter(db, effect)[i].id, item)
            <= SalesAfter(db, effect)[i].items[item].quantity
  {
    TablesExtend(db, effect);
    if i < |db.sales| {
      var id := db.sales[i].id;
      FoundAt(db.sales, i);
      assert AlreadyReturned(db.saleReturns, id, item) <= db.sales[i].items[item].quantity;
      if effect.GoodsReturned? && effect.row.sale != id {
        SumPush(db.saleReturns, effect.row, UnitsReturned(id, item));
      }
    } else {
      NothingReturnedYet(db, SalesAfter(db, effect)[i].id, item);
    }
  }

  /** The ledger's return credits are those of the returns... */
  ghost predicate CreditsMatch(entries: seq<Entry>, rows: seq<SaleReturn>) {
    forall id :: Sum(entries, ReturnCreditOf(id)) == -Sum(rows, CreditTaken(id))
  }

  /** ...and never exceed what the sale put on the book. */
  ghost predicate CreditsBounded(sales: seq<Sale>, rows: seq<SaleReturn>) {
    forall i :: 0 <= i < |sales| ==> Sum(rows, CreditTaken(sales[i].id)) <= sales[i].credit
  }

  /** At most one entry is appended, and it is a return credit only for a return. */
  lemma {:induction false} EntryAppended(db: Db, effect: Effect) returns (added: seq<Entry>)
    requires Legit(db, effect)
    ensures EntriesAfter(db, effect) == db.entries + added && |added| <= 1
    ensures !effect.GoodsReturned? && |added| == 1 ==> !added[0].kind.ReturnCredit?
    ensures effect.GoodsReturned? ==> added == ReturnEntries(db.sales[FindSale(db.sales, effect.row.sale)], effect.row)
    ensures |added| == 1 && added[0].kind.CreditSale? ==> effect.SaleBooked?
    ensures effect.SaleBooked? ==> added == CreditEntries(effect.terms)
  {
    added := EntriesAfter(db, effect)[|db.entries|..];
  }

  lemma {:induction false} CreditMatchKept(db: Db, effect: Effect, id: Uuid)
    requires Legit(db, effect)
    requires Sum(db.entries, ReturnCreditOf(id)) == -Sum(db.saleReturns, CreditTaken(id))
    ensures Sum(EntriesAfter(db, effect), ReturnCreditOf(id)) == -Sum(ReturnsAfter(db, effect), CreditTaken(id))
  {
    var added := EntryAppended(db, effect);
    if |added| == 1 {
      SumPush(db.entries, added[0], ReturnCreditOf(id));
      assert added == [added[0]];
    } else {
      assert db.entries + added == db.entries;
    }
    if effect.GoodsReturned? {
      SumPush(db.saleReturns, effect.row, CreditTaken(id));
    }
  }

  lemma {:induction false} CreditNotExceeded(entries: seq<Entry>, rows: seq<SaleReturn>, sale: Sale, row: SaleReturn)
    requires Sum(entries, ReturnCreditOf(sale.id)) == -Sum(rows, CreditTaken(sale.id))
    requires Sum(rows, CreditTaken(sale.id)) <= sale.credit
    requires row.sale == sale.id && row.creditReduction <= ReducibleCredit(entries, sale)
    ensures Sum(rows + [row], CreditTaken(sale.id)) <= sale.credit
  {
    SumPush(rows, row, CreditTaken(sale.id));
  }

  lemma {:induction false} CreditBoundKept(db: Db, effect: Effect, i: nat)
    requires ReturnRecords(db.sessions, db.sales, db.saleReturns) && UniqueSales(db.sales) && Legit(db, effect)
    requires CreditsMatch(db.entries, db.saleReturns) && CreditsBounded(db.sales, db.saleReturns)
    requires i < |SalesAfter(db, effect)|
    ensures Sum(ReturnsAfter(db, effect), CreditTaken(SalesAfter(db, effect)[i].id)) <= SalesAfter(db, effect)[i].credit
  {
    TablesExtend(db, effect);
    if i >= |db.sales| {
      NothingReturnedYet(db, SalesAfter(db, effect)[i].id, 0);
    } else {
      var id := db.sales[i].id;
      FoundAt(db.sales, i);
      if effect.GoodsReturned? && effect.row.sale == id {
        assert Sum(db.entries, ReturnCreditOf(id)) == -Sum(db.saleReturns, CreditTaken(id));
        CreditNotExceeded(db.entries, db.saleReturns, db.sales[i], effect.row);
      } else if effect.GoodsReturned? {
        SumPush(db.saleReturns, effect.row, CreditTaken(id));
      }
    }
  }

  ghost predicate ReturnsInv(db: Db) {
    && QuantitiesInv(db.sales, db.saleReturns)
    && CreditsMatch(db.entries, db.saleReturns)
    && CreditsBounded(db.sales, db.saleReturns)
  }

  lemma {:induction false} ReturnsKept(db: Db, effect: Effect, after: Db)
    requires RecordsInv(db) && ReturnsInv(db) && Applies(db, effect, after)
    ensures ReturnsInv(after)
  {
    forall i, item: nat | 0 <= i < |after.sales| && item < |after.sales[i].items|
      ensures AlreadyReturned(after.saleReturns, after.sales[i].id, item) <= after.sales[i].items[item].quantity
    {
      QuantityKept(db, effect, i, item);
    }
    forall id ensures Sum(after.entries, ReturnCreditOf(id)) == -Sum(after.saleReturns, CreditTaken(id)) {
      assert Sum(db.entries, ReturnCreditOf(id)) == -Sum(db.saleReturns, CreditTaken(id));
      CreditMatchKept(db, effect, id);
    }
    forall i | 0 <= i < |after.sales|
      ensures Sum(after.saleReturns, CreditTaken(after.sales[i].id)) <= after.sales[i].credit {
      CreditBoundKept(db, effect, i);
    }
  }

  // ---------- Ledger and stock ----------

  lemma {:induction false} CreditSaleKeepsLedger(entries: seq<Entry>, t: SaleTerms)
    requires LedgerInv(entries) && t.credit >= 0 && (t.credit > 0 ==> t.customer.Some?)
    ensures LedgerInv(entries + CreditEntries(t))
  {
    if t.credit > 0 {
      assert Balance(entries, t.customer.value) >= 0;
      AppendEntry(entries, CreditEntries(t)[0]);
    } else {
      assert entries + [] == entries;
    }
  }

  lemma {:induction false} ReturnKeepsLedger(entries: seq<Entry>, sale: Sale, row: SaleReturn)
    requires LedgerInv(entries) && row.creditReduction <= ReducibleCredit(entries, sale)
    ensures row.creditReduction > 0 ==> sale.customer.Some?
    ensures LedgerInv(entries + ReturnEntries(sale, row))
  {
    if row.creditReduction > 0 {
      AppendEntry(entries, ReturnEntries(sale, row)[0]);
    } else {
      assert entries + [] == entries;
    }
  }

  lemma {:induction false} LedgerKept(db: Db, effect: Effect)
    requires LedgerInv(db.entries) && Legit(db, effect)
    ensures LedgerInv(EntriesAfter(db, effect))
  {
    match effect
    case SaleBooked(t, sale, processed) => CreditSaleKeepsLedger(db.entries, t);
    case SaleUndone(at) =>
      if db.sales[at].credit != 0 { ReverseKeepsLedger(db.entries, CreditEntryAt(db.entries, db.sales[at].id), true); }
    case GoodsReturned(row) => ReturnKeepsLedger(db.entries, db.sales[FindSale(db.sales, row.sale)], row);
    case LedgerNoted(e) => AppendEntry(db.entries, e);
    case LedgerReversed(at) => ReverseKeepsLedger(db.entries, at, true);
    case DebtRepaid(p) => AppendEntry(db.entries, Entry(p.customer, Repaid(p.key), -p.amount));
    case _ =>
  }

  lemma {:induction false} StockKept(db: Db, effect: Effect)
    requires Conserved(db.book) && Legit(db, effect)
    ensures Conserved(BookAfter(db, effect))
  {
    if effect.RowOpened? || effect.CostSet? {
      assert forall key :: RowAt(BookAfter(db, effect).rows, key).quantity == RowAt(db.book.rows, key).quantity;
    } else {
      PostAllConserves(db.book, Posted(db, effect));
    }
  }

  // ---------- The whole invariant ----------

  ghost predicate Inv(db: Db) {
    RecordsInv(db) && ReturnsInv(db) && LedgerInv(db.entries) && Conserved(db.book)
  }

  lemma {:induction false} EffectKeeps(db: Db, effect: Effect, after: Db)
    requires Inv(db) && Applies(db, effect, after)
    ensures Inv(after)
  {
    RecordsKept(db, effect, after);
    ReturnsKept(db, effect, after);
    LedgerKept(db, effect);
    StockKept(db, effect);
  }

  lemma {:induction false} StepKeeps(db: Db, c: Command)
    requires Inv(db)
    ensures Inv(Step(db, c))
  {
    var effect := StepApplies(db, c);
    EffectKeeps(db, effect, Step(db, c));
  }

  lemma {:induction false} RunKeeps(db: Db, cs: seq<Command>)
    requires Inv(db)
    ensures Inv(Run(db, cs))
  {
    if |cs| > 0 {
      RunKeeps(db, cs[..|cs| - 1]);
      StepKeeps(Run(db, cs[..|cs| - 1]), cs[|cs| - 1]);
    }
  }

  lemma {:induction false} EmptyInv()
    ensures Inv(EMPTY)
  {
  }
}
