/** Which total of its session, and whose drawer, each amount goes to: stated on what was
    asked for, not on the row that was written. */
module Tender {
  import opened Sums
  import opened Tables
  import opened Customers
  import opened CashDesk
  import opened Sales
  import opened Returns
  import opened Expenses
  import opened Services
  import opened Invariants
  import opened Histories

  function TakenBy(t: SessionTotals, means: PaymentMethod): int {
    match means case Cash => t.cash case Wave => t.wave case OrangeMoney => t.orangeMoney
  }

  function RefundedBy(t: SessionTotals, means: PaymentMethod): int {
    match means case Cash => t.cashRefunds case Wave => t.waveRefunds case OrangeMoney => t.orangeMoneyRefunds
  }

  function RepaidBy(t: SessionTotals, means: PaymentMethod): int {
    match means case Cash => t.cashRepaid case Wave => t.waveRepaid case OrangeMoney => t.orangeMoneyRepaid
  }

  function SpentBy(t: SessionTotals, means: PaymentMethod): int {
    match means case Cash => t.cashSpent case Wave => t.waveSpent case OrangeMoney => t.orangeMoneySpent
  }

  /** The part of `amount` that goes to `here`. */
  function Share(applies: bool, amount: int): int {
    if applies then amount else 0
  }

  function LegsBy(means: PaymentMethod): Leg -> int {
    (leg: Leg) => if leg.paidBy == means then leg.amount else 0
  }

  // ---------- Sales ----------

  lemma {:induction false} PaymentsBy(legs: seq<Leg>, means: PaymentMethod)
    ensures Sum(PaymentsOf(legs), By(means)) == Sum(legs, LegsBy(means))
  {
    SumPointwise(PaymentsOf(legs), legs, By(means), LegsBy(means));
  }

  /** The sale is written for these terms, and nothing else that is counted changes. */
  ghost predicate Written(db: Db, now: Db, t: SaleTerms, sale: Sale) {
    && now.sales == db.sales + [sale] && sale.session == t.session && !sale.cancelled
    && sale.payments == PaymentsOf(t.legs) && sale.credit == t.credit
    && sale.total == Sum(t.legs, LegAmounts()) + t.credit
    && now.saleReturns == db.saleReturns && now.repayments == db.repayments && now.expenses == db.expenses
  }

  /** The legs go to the totals of the session, each to its own method, and the credit to the
      credit; no other session, and no refund, repayment or expense, moves. */
  ghost predicate Tendered(before: SessionTotals, after: SessionTotals, t: SaleTerms, here: bool,
      means: PaymentMethod) {
    && TakenBy(after, means) == TakenBy(before, means) + Share(here, Sum(t.legs, LegsBy(means)))
    && after.credit == before.credit + Share(here, t.credit)
    && after.gross == before.gross + Share(here, Sum(t.legs, LegAmounts()) + t.credit)
    && after.salesCount == before.salesCount + Share(here, 1)
    && RefundedBy(after, means) == RefundedBy(before, means) && after.returned == before.returned
    && RepaidBy(after, means) == RepaidBy(before, means) && SpentBy(after, means) == SpentBy(before, means)
  }

  lemma {:induction false} SaleTotals(db: Db, items: seq<ItemInput>, t: SaleTerms, offline: bool, s: Uuid,
      means: PaymentMethod)
    requires CompleteSpec(db, items, t, offline).Ok?
    ensures Tendered(AggregateTotals(db, s), AggregateTotals(CompleteSpec(db, items, t, offline).value.0, s), t,
                     s == t.session, means)
  {
    var (now, sale, _) := CompleteSpec(db, items, t, offline).value;
    SoldRow(db, items, t, offline);
    WrittenTotals(db, now, t, sale, s, means);
  }

  lemma {:induction false} SoldRow(db: Db, items: seq<ItemInput>, t: SaleTerms, offline: bool)
    requires CompleteSpec(db, items, t, offline).Ok?
    ensures Written(db, CompleteSpec(db, items, t, offline).value.0, t, CompleteSpec(db, items, t, offline).value.1)
  {
    CompleteBooksASale(db, items, t, offline);
    assert ExecuteSaleSpec(db, t, RequestLines(db, items, t, offline).value, offline).Ok?;
  }

  lemma {:induction false} WrittenTotals(db: Db, now: Db, t: SaleTerms, sale: Sale, s: Uuid, means: PaymentMethod)
    requires Written(db, now, t, sale)
    ensures Tendered(AggregateTotals(db, s), AggregateTotals(now, s), t, s == t.session, means)
  {
    BookedTotals(db, now, sale, s, means);
    PaymentsBy(t.legs, means);
  }

  lemma {:induction false} BookedTotals(db: Db, now: Db, sale: Sale, s: Uuid, means: PaymentMethod)
    requires now.sales == db.sales + [sale] && !sale.cancelled
    requires now.saleReturns == db.saleReturns && now.repayments == db.repayments && now.expenses == db.expenses
    ensures var before, after := AggregateTotals(db, s), AggregateTotals(now, s);
            && TakenBy(after, means) == TakenBy(before, means) + Share(s == sale.session, Sum(sale.payments, By(means)))
            && after.credit == before.credit + Share(s == sale.session, sale.credit)
            && after.gross == before.gross + Share(s == sale.session, sale.total)
            && after.salesCount == before.salesCount + Share(s == sale.session, 1)
            && RefundedBy(after, means) == RefundedBy(before, means) && after.returned == before.returned
            && RepaidBy(after, means) == RepaidBy(before, means) && SpentBy(after, means) == SpentBy(before, means)
  {
    SaleRowTotals(db.sales, sale, s, means);
  }

  lemma {:induction false} SaleRowTotals(sales: seq<Sale>, sale: Sale, s: Uuid, means: PaymentMethod)
    requires !sale.cancelled
    ensures Sum(sales + [sale], TakenOf(SoldIn(s), means)) ==
            Sum(sales, TakenOf(SoldIn(s), means)) + Share(s == sale.session, Sum(sale.payments, By(means)))
    ensures Sum(sales + [sale], CreditOf(SoldIn(s))) ==
            Sum(sales, CreditOf(SoldIn(s))) + Share(s == sale.session, sale.credit)
    ensures Sum(sales + [sale], GrossOf(SoldIn(s))) ==
            Sum(sales, GrossOf(SoldIn(s))) + Share(s == sale.session, sale.total)
    ensures Sum(sales + [sale], SalesCountOf(SoldIn(s))) ==
            Sum(sales, SalesCountOf(SoldIn(s))) + Share(s == sale.session, 1)
  {
    SumPush(sales, sale, TakenOf(SoldIn(s), means));
    SumPush(sales, sale, CreditOf(SoldIn(s)));
    SumPush(sales, sale, GrossOf(SoldIn(s)));
    SumPush(sales, sale, SalesCountOf(SoldIn(s)));
  }

  /** A cancellation takes all of it out again. */
  lemma {:induction false} CancellationTotals(db: Db, id: Uuid, user: User, s: Uuid, means: PaymentMethod)
    requires CancelSaleSpec(db, id, user).Ok?
    ensures var sale := db.sales[FindSale(db.sales, id)];
            var before, after := AggregateTotals(db, s), AggregateTotals(CancelSaleSpec(db, id, user).value, s);
            && TakenBy(after, means) == TakenBy(before, means) - Share(s == sale.session, Sum(sale.payments, By(means)))
            && after.credit == before.credit - Share(s == sale.session, sale.credit)
            && after.gross == before.gross - Share(s == sale.session, sale.total)
            && after.salesCount == before.salesCount - Share(s == sale.session, 1)
  {
    var at := FindSale(db.sales, id);
    var sale := db.sales[at];
    var gone := sale.(cancelled := true);
    assert CancelSaleSpec(db, id, user).value.sales == db.sales[at := gone];
    SumReplace(db.sales, at, gone, TakenOf(SoldIn(s), means));
    SumReplace(db.sales, at, gone, CreditOf(SoldIn(s)));
    SumReplace(db.sales, at, gone, GrossOf(SoldIn(s)));
    SumReplace(db.sales, at, gone, SalesCountOf(SoldIn(s)));
  }

  // ---------- Returns ----------

  /** A return gives its money back from the session it is made in, by the method asked for;
      what it takes off the book is counted apart. */
  lemma {:induction false} ReturnTotals(db: Db, q: ReturnRequest, s: Uuid, means: PaymentMethod)
    requires FindReturn(db.saleReturns, q.key) == |db.saleReturns| && ReturnSpec(db, q).Ok?
    ensures var ((now, row), before) := (ReturnSpec(db, q).value, AggregateTotals(db, s));
            var after := AggregateTotals(now, s);
            && RefundedBy(after, means) == RefundedBy(before, means)
                 + Share(s == q.session && q.refundBy == Some(means) && row.creditReduction < row.total,
                         row.total - row.creditReduction)
            && after.returned == before.returned + Share(s == q.session, row.total)
            && after.creditReturns == before.creditReturns + Share(s == q.session, row.creditReduction)
            && TakenBy(after, means) == TakenBy(before, means) && after.gross == before.gross
            && RepaidBy(after, means) == RepaidBy(before, means) && SpentBy(after, means) == SpentBy(before, means)
  {
    var row := ReturnSpec(db, q).value.1;
    ReturnedRow(db, q);
    SumPush(db.saleReturns, row, RefundedOf(ReturnedIn(s), means));
    SumPush(db.saleReturns, row, ReturnedOf(ReturnedIn(s)));
    SumPush(db.saleReturns, row, CreditReturnedOf(ReturnedIn(s)));
  }

  lemma {:induction false} ReturnedRow(db: Db, q: ReturnRequest)
    requires FindReturn(db.saleReturns, q.key) == |db.saleReturns| && ReturnSpec(db, q).Ok?
    ensures var (after, row) := ReturnSpec(db, q).value;
            && after.saleReturns == db.saleReturns + [row] && row.session == q.session
            && row.refundedBy == (if row.creditReduction < row.total then q.refundBy else None)
            && after.sales == db.sales && after.repayments == db.repayments && after.expenses == db.expenses
  {
  }

  // ---------- Repayments ----------

  /** A repayment goes to the method it was made by, in its session, and nowhere else. */
  lemma {:induction false} RepaymentTotals(db: Db, p: RepaymentInput, s: Uuid, means: PaymentMethod)
    requires FindRepayment(db.repayments, p.key) == |db.repayments| && RepaymentSpec(db, p).Ok?
    ensures var before, after := AggregateTotals(db, s), AggregateTotals(RepaymentSpec(db, p).value.0, s);
            && RepaidBy(after, means) == RepaidBy(before, means) + Share(s == p.session && means == p.paidBy, p.amount)
            && TakenBy(after, means) == TakenBy(before, means) && RefundedBy(after, means) == RefundedBy(before, means)
            && SpentBy(after, means) == SpentBy(before, means) && after.gross == before.gross
  {
    SumPush(db.repayments, RepaymentSpec(db, p).value.1, RepaidOf(s, means));
  }

  /** The drawer gains a repayment exactly when it is made in cash; the amount received is
      recorded as it was, with its change in cash only. */
  lemma {:induction false} RepaymentDrawer(db: Db, p: RepaymentInput, s: Uuid)
    requires FindRepayment(db.repayments, p.key) == |db.repayments| && RepaymentSpec(db, p).Ok? && s in db.sessions
    ensures var (after, row) := RepaymentSpec(db, p).value;
            && s in after.sessions
            && ExpectedCash(after, s) == ExpectedCash(db, s) + Share(s == p.session && p.paidBy == Cash, p.amount)
            && row.paidBy == p.paidBy && row.received == p.received
            && (p.paidBy == Cash ==>
                  p.received.Some? && p.received.value >= p.amount && row.change == Some(p.received.value - p.amount))
            && (p.paidBy != Cash ==> p.received == None && row.change == None)
  {
    RepaymentTotals(db, p, s, Cash);
    assert RepaymentSpec(db, p).value.0.sessions == db.sessions;
  }

  /** Its customer owes that much less, and no one else. */
  lemma {:induction false} RepaymentBalance(db: Db, p: RepaymentInput, c: Uuid)
    requires FindRepayment(db.repayments, p.key) == |db.repayments| && RepaymentSpec(db, p).Ok?
    ensures Balance(RepaymentSpec(db, p).value.0.entries, c) ==
            Balance(db.entries, c) - Share(c == p.customer, p.amount)
  {
    SumPush(db.entries, Entry(p.customer, Repaid(p.key), -p.amount), OwedBy(c));
  }

  // ---------- Expenses ----------

  /** An expense goes to the method it is paid by, in its session, and nowhere else. */
  lemma {:induction false} ExpenseTotals(db: Db, x: ExpenseInput, s: Uuid, means: PaymentMethod)
    requires FindExpense(db.expenses, x.key) == |db.expenses| && CreateExpenseSpec(db, x).Ok?
    ensures var before, after := AggregateTotals(db, s), AggregateTotals(CreateExpenseSpec(db, x).value.0, s);
            && SpentBy(after, means) == SpentBy(before, means) + Share(s == x.session && means == x.paidBy, x.amount)
            && TakenBy(after, means) == TakenBy(before, means) && RefundedBy(after, means) == RefundedBy(before, means)
            && RepaidBy(after, means) == RepaidBy(before, means) && after.gross == before.gross
  {
    SumPush(db.expenses, CreateExpenseSpec(db, x).value.1, SpentOf(s, means));
  }

  /** A cancelled expense comes out of the total it was in. */
  lemma {:induction false} ExpenseCancelledTotals(db: Db, key: Uuid, user: User, hasReason: bool, s: Uuid,
      means: PaymentMethod)
    requires CancelExpenseSpec(db, key, user, hasReason).Ok?
    ensures var e := db.expenses[FindExpense(db.expenses, key)];
            var before := AggregateTotals(db, s);
            var after := AggregateTotals(CancelExpenseSpec(db, key, user, hasReason).value, s);
            && SpentBy(after, means) == SpentBy(before, means) - Share(s == e.session && means == e.paidBy, e.amount)
            && TakenBy(after, means) == TakenBy(before, means) && RefundedBy(after, means) == RefundedBy(before, means)
            && RepaidBy(after, means) == RepaidBy(before, means)
  {
    var at := FindExpense(db.expenses, key);
    SumReplace(db.expenses, at, db.expenses[at].(cancelled := true), SpentOf(s, means));
  }

  // ---------- Opening ----------

  /** A session opens with its float in the drawer and nothing in its totals. */
  lemma {:induction false} OpeningTotals(db: Db, id: Uuid, register: Uuid, cashier: Uuid, opening: int)
    requires RecordsInv(db) && OpenSpec(db, id, register, cashier, opening).Ok?
    ensures var after := OpenSpec(db, id, register, cashier, opening).value;
            && id in after.sessions && id !in db.sessions && after.sessions[id].status == Open
            && after.sessions[id].cashier == cashier && after.sessions[id].register == register
            && register in db.registers && after.sessions[id].store == db.registers[register].store
            && ExpectedCash(after, id) == opening
            && (forall s :: s in db.sessions ==> s in after.sessions && after.sessions[s] == db.sessions[s])
  {
    var after := OpenSpec(db, id, register, cashier, opening).value;
    NewDrawer(db, SessionBegun(id, after.sessions[id]), after, id);
  }
}
