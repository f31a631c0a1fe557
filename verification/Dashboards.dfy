/** The manager's figures: what a sale and a return add to them, and how periods add up. */
module Dashboards {
  import opened Sums
  import opened Tables
  import opened CashDesk
  import opened Sales
  import opened Returns
  import opened Services
  import opened Tender

  function NetBy(d: Dashboard, means: PaymentMethod): int {
    match means case Cash => d.cash case Wave => d.wave case OrangeMoney => d.orangeMoney
  }

  /** Adjacent periods add up, so nothing is counted twice or missed at their boundary. */
  lemma {:induction false} PeriodsAddUp(db: Db, from: Instant, mid: Instant, until: Instant, store: Option<Uuid>,
      means: PaymentMethod)
    requires from <= mid <= until
    ensures var first := ManagerDashboard(db, from, mid, store);
            var second := ManagerDashboard(db, mid, until, store);
            var whole := ManagerDashboard(db, from, until, store);
            && whole.netSales == first.netSales + second.netSales
            && NetBy(whole, means) == NetBy(first, means) + NetBy(second, means)
            && whole.creditTotal == first.creditTotal + second.creditTotal
  {
    SalesSplit(db, from, mid, until, store, means);
    ReturnsSplit(db, from, mid, until, store, means);
  }

  lemma {:induction false} SalesSplit(db: Db, from: Instant, mid: Instant, until: Instant, store: Option<Uuid>,
      means: PaymentMethod)
    requires from <= mid <= until
    ensures var (a, b, all) := (SoldDuring(db, from, mid, store), SoldDuring(db, mid, until, store),
                                SoldDuring(db, from, until, store));
            && Sum(db.sales, GrossOf(all)) == Sum(db.sales, GrossOf(a)) + Sum(db.sales, GrossOf(b))
            && Sum(db.sales, CreditOf(all)) == Sum(db.sales, CreditOf(a)) + Sum(db.sales, CreditOf(b))
            && Sum(db.sales, TakenOf(all, means)) == Sum(db.sales, TakenOf(a, means)) + Sum(db.sales, TakenOf(b, means))
  {
    var a, b := SoldDuring(db, from, mid, store), SoldDuring(db, mid, until, store);
    var all := SoldDuring(db, from, until, store);
    SumSplit(db.sales, GrossOf(all), GrossOf(a), GrossOf(b));
    SumSplit(db.sales, CreditOf(all), CreditOf(a), CreditOf(b));
    SumSplit(db.sales, TakenOf(all, means), TakenOf(a, means), TakenOf(b, means));
  }

  lemma {:induction false} ReturnsSplit(db: Db, from: Instant, mid: Instant, until: Instant, store: Option<Uuid>,
      means: PaymentMethod)
    requires from <= mid <= until
    ensures var (a, b, all) := (ReturnedDuring(db, from, mid, store), ReturnedDuring(db, mid, until, store),
                                ReturnedDuring(db, from, until, store));
            var rows := db.saleReturns;
            && Sum(rows, ReturnedOf(all)) == Sum(rows, ReturnedOf(a)) + Sum(rows, ReturnedOf(b))
            && Sum(rows, CreditReturnedOf(all)) == Sum(rows, CreditReturnedOf(a)) + Sum(rows, CreditReturnedOf(b))
            && Sum(rows, RefundedOf(all, means)) == Sum(rows, RefundedOf(a, means)) + Sum(rows, RefundedOf(b, means))
  {
    var a, b := ReturnedDuring(db, from, mid, store), ReturnedDuring(db, mid, until, store);
    var all := ReturnedDuring(db, from, until, store);
    SumSplit(db.saleReturns, ReturnedOf(all), ReturnedOf(a), ReturnedOf(b));
    SumSplit(db.saleReturns, CreditReturnedOf(all), CreditReturnedOf(a), CreditReturnedOf(b));
    SumSplit(db.saleReturns, RefundedOf(all, means), RefundedOf(a, means), RefundedOf(b, means));
  }

  predicate Counts(db: Db, session: Uuid, at: Instant, from: Instant, until: Instant, store: Option<Uuid>) {
    from <= at < until && (store == None || (session in db.sessions && store == Some(db.sessions[session].store)))
  }

  /** The legs count under their own methods, and the credit as credit. */
  ghost predicate Counted(before: Dashboard, after: Dashboard, t: SaleTerms, counts: bool, means: PaymentMethod) {
    && NetBy(after, means) == NetBy(before, means) + Share(counts, Sum(t.legs, LegsBy(means)))
    && after.creditTotal == before.creditTotal + Share(counts, t.credit)
    && after.netSales == before.netSales + Share(counts, Sum(t.legs, LegAmounts()) + t.credit)
  }

  /** A sale counts in the period it was made in, for its store and for all stores, each leg
      under its own method. */
  lemma {:induction false} DashboardAfterSale(db: Db, items: seq<ItemInput>, t: SaleTerms, offline: bool, from: Instant,
      until: Instant, store: Option<Uuid>, means: PaymentMethod)
    requires CompleteSpec(db, items, t, offline).Ok?
    ensures Counted(ManagerDashboard(db, from, until, store),
                    ManagerDashboard(CompleteSpec(db, items, t, offline).value.0, from, until, store), t,
                    Counts(db, t.session, t.at, from, until, store), means)
  {
    var (now, sale, _) := CompleteSpec(db, items, t, offline).value;
    SoldRow(db, items, t, offline);
    DatedSale(db, items, t, offline);
    WrittenDashboard(db, now, t, sale, from, until, store, means);
  }

  lemma {:induction false} DatedSale(db: Db, items: seq<ItemInput>, t: SaleTerms, offline: bool)
    requires CompleteSpec(db, items, t, offline).Ok?
    ensures var (now, sale, _) := CompleteSpec(db, items, t, offline).value;
            sale.occurredAt == t.at && now.sessions == db.sessions
  {
    CompleteBooksASale(db, items, t, offline);
  }

  lemma {:induction false} WrittenDashboard(db: Db, now: Db, t: SaleTerms, sale: Sale, from: Instant, until: Instant,
      store: Option<Uuid>, means: PaymentMethod)
    requires Written(db, now, t, sale) && sale.occurredAt == t.at && now.sessions == db.sessions
    ensures Counted(ManagerDashboard(db, from, until, store), ManagerDashboard(now, from, until, store), t,
                    Counts(db, t.session, t.at, from, until, store), means)
  {
    DashboardAfterRow(db, now, sale, from, until, store, means);
    PaymentsBy(t.legs, means);
  }

  lemma {:induction false} DashboardAfterRow(db: Db, now: Db, sale: Sale, from: Instant, until: Instant,
      store: Option<Uuid>, means: PaymentMethod)
    requires now.sales == db.sales + [sale] && !sale.cancelled
    requires now.saleReturns == db.saleReturns && now.sessions == db.sessions
    ensures var before, after := ManagerDashboard(db, from, until, store), ManagerDashboard(now, from, until, store);
            var counts := Counts(db, sale.session, sale.occurredAt, from, until, store);
            && NetBy(after, means) == NetBy(before, means) + Share(counts, Sum(sale.payments, By(means)))
            && after.creditTotal == before.creditTotal + Share(counts, sale.credit)
            && after.netSales == before.netSales + Share(counts, sale.total)
  {
    var sold := SoldDuring(now, from, until, store);
    var was := SoldDuring(db, from, until, store);
    SumPush(db.sales, sale, TakenOf(sold, means));
    SumPush(db.sales, sale, CreditOf(sold));
    SumPush(db.sales, sale, GrossOf(sold));
    SumPointwise(db.sales, db.sales, TakenOf(sold, means), TakenOf(was, means));
    SumPointwise(db.sales, db.sales, CreditOf(sold), CreditOf(was));
    SumPointwise(db.sales, db.sales, GrossOf(sold), GrossOf(was));
    SameReturns(db, now, from, until, store, means);
  }

  lemma {:induction false} SameReturns(db: Db, now: Db, from: Instant, until: Instant, store: Option<Uuid>,
      means: PaymentMethod)
    requires now.saleReturns == db.saleReturns && now.sessions == db.sessions
    ensures var (one, was) := (ReturnedDuring(now, from, until, store), ReturnedDuring(db, from, until, store));
            var rows := db.saleReturns;
            && Sum(rows, ReturnedOf(one)) == Sum(rows, ReturnedOf(was))
            && Sum(rows, CreditReturnedOf(one)) == Sum(rows, CreditReturnedOf(was))
            && Sum(rows, RefundedOf(one, means)) == Sum(rows, RefundedOf(was, means))
  {
    var one, was := ReturnedDuring(now, from, until, store), ReturnedDuring(db, from, until, store);
    var rows := db.saleReturns;
    SumPointwise(rows, rows, ReturnedOf(one), ReturnedOf(was));
    SumPointwise(rows, rows, CreditReturnedOf(one), CreditReturnedOf(was));
    SumPointwise(rows, rows, RefundedOf(one, means), RefundedOf(was, means));
  }

  /** A return counts in the period it is made in, for the store it is made in, what it gives
      back under the method asked for and the rest off the credit. */
  lemma {:induction false} DashboardAfterReturn(db: Db, q: ReturnRequest, from: Instant, until: Instant,
      store: Option<Uuid>, means: PaymentMethod)
    requires FindReturn(db.saleReturns, q.key) == |db.saleReturns| && ReturnSpec(db, q).Ok?
    ensures var before := ManagerDashboard(db, from, until, store);
            var after := ManagerDashboard(ReturnSpec(db, q).value.0, from, until, store);
            var (row, counts) := (ReturnSpec(db, q).value.1, Counts(db, q.session, q.now, from, until, store));
            && NetBy(after, means) == NetBy(before, means)
                 - Share(counts && q.refundBy == Some(means) && row.creditReduction < row.total,
                         row.total - row.creditReduction)
            && after.creditTotal == before.creditTotal - Share(counts, row.creditReduction)
            && after.netSales == before.netSales - Share(counts, row.total)
  {
    var (now, row) := ReturnSpec(db, q).value;
    ReturnedRow(db, q);
    DatedReturn(db, q);
    DashboardAfterReturnRow(db, now, row, from, until, store, means);
  }

  lemma {:induction false} DatedReturn(db: Db, q: ReturnRequest)
    requires FindReturn(db.saleReturns, q.key) == |db.saleReturns| && ReturnSpec(db, q).Ok?
    ensures ReturnSpec(db, q).value.1.createdAt == q.now && ReturnSpec(db, q).value.0.sessions == db.sessions
  {
  }

  lemma {:induction false} DashboardAfterReturnRow(db: Db, now: Db, row: SaleReturn, from: Instant, until: Instant,
      store: Option<Uuid>, means: PaymentMethod)
    requires now.saleReturns == db.saleReturns + [row] && now.sales == db.sales && now.sessions == db.sessions
    ensures var before, after := ManagerDashboard(db, from, until, store), ManagerDashboard(now, from, until, store);
            var counts := Counts(db, row.session, row.createdAt, from, until, store);
            && NetBy(after, means) == NetBy(before, means)
                 - Share(counts && row.refundedBy == Some(means), row.total - row.creditReduction)
            && after.creditTotal == before.creditTotal - Share(counts, row.creditReduction)
            && after.netSales == before.netSales - Share(counts, row.total)
  {
    var one, was := ReturnedDuring(now, from, until, store), ReturnedDuring(db, from, until, store);
    var rows := db.saleReturns;
    SumPush(rows, row, ReturnedOf(one));
    SumPush(rows, row, CreditReturnedOf(one));
    SumPush(rows, row, RefundedOf(one, means));
    SumPointwise(rows, rows, ReturnedOf(one), ReturnedOf(was));
    SumPointwise(rows, rows, CreditReturnedOf(one), CreditReturnedOf(was));
    SumPointwise(rows, rows, RefundedOf(one, means), RefundedOf(was, means));
    SameSales(db, now, from, until, store, means);
  }

  lemma {:induction false} SameSales(db: Db, now: Db, from: Instant, until: Instant, store: Option<Uuid>,
      means: PaymentMethod)
    requires now.sessions == db.sessions
    ensures var (one, was) := (SoldDuring(now, from, until, store), SoldDuring(db, from, until, store));
            && Sum(db.sales, GrossOf(one)) == Sum(db.sales, GrossOf(was))
            && Sum(db.sales, CreditOf(one)) == Sum(db.sales, CreditOf(was))
            && Sum(db.sales, TakenOf(one, means)) == Sum(db.sales, TakenOf(was, means))
  {
    var one, was := SoldDuring(now, from, until, store), SoldDuring(db, from, until, store);
    SumPointwise(db.sales, db.sales, GrossOf(one), GrossOf(was));
    SumPointwise(db.sales, db.sales, CreditOf(one), CreditOf(was));
    SumPointwise(db.sales, db.sales, TakenOf(one, means), TakenOf(was, means));
  }
}
