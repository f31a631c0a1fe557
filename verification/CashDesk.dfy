/** Cash sessions: totals, the expected drawer, opening and closing. */
module CashDesk {
  import opened Sums
  import opened Tables

  // ---------- Totals over any selection of sales and returns ----------

  function By(means: PaymentMethod): Payment -> int {
    (p: Payment) => if p.paidBy == means then p.amount else 0
  }

  function Amounts(): Payment -> int {
    (p: Payment) => p.amount
  }

  function LineTotals(): SaleItem -> int {
    (item: SaleItem) => item.lineTotal
  }

  function Refunds(): ReturnLine -> int {
    (line: ReturnLine) => line.refund
  }

  function GrossOf(sel: Sale -> bool): Sale -> int {
    (s: Sale) => if sel(s) then s.total else 0
  }

  function SalesCountOf(sel: Sale -> bool): Sale -> int {
    (s: Sale) => if sel(s) then 1 else 0
  }

  function CreditOf(sel: Sale -> bool): Sale -> int {
    (s: Sale) => if sel(s) then s.credit else 0
  }

  function TakenOf(sel: Sale -> bool, means: PaymentMethod): Sale -> int {
    (s: Sale) => if sel(s) then Sum(s.payments, By(means)) else 0
  }

  function ReturnedOf(sel: SaleReturn -> bool): SaleReturn -> int {
    (r: SaleReturn) => if sel(r) then r.total else 0
  }

  function CreditReturnedOf(sel: SaleReturn -> bool): SaleReturn -> int {
    (r: SaleReturn) => if sel(r) then r.creditReduction else 0
  }

  /** Money really given back by this method; the part taken off the book never left the drawer. */
  function RefundedOf(sel: SaleReturn -> bool, means: PaymentMethod): SaleReturn -> int {
    (r: SaleReturn) => if sel(r) && r.refundedBy == Some(means) then r.total - r.creditReduction else 0
  }

  function RepaidOf(session: Uuid, means: PaymentMethod): Repayment -> int {
    (p: Repayment) => if p.session == session && p.paidBy == means then p.amount else 0
  }

  function SpentOf(session: Uuid, means: PaymentMethod): Expense -> int {
    (e: Expense) => if e.session == session && !e.cancelled && e.paidBy == means then e.amount else 0
  }

  function SoldIn(session: Uuid): Sale -> bool {
    (s: Sale) => s.session == session && !s.cancelled
  }

  function ReturnedIn(session: Uuid): SaleReturn -> bool {
    (r: SaleReturn) => r.session == session
  }

  datatype SessionTotals = SessionTotals(
    salesCount: int, gross: int, cash: int, wave: int, orangeMoney: int, credit: int,
    returned: int, cashRefunds: int, waveRefunds: int, orangeMoneyRefunds: int, creditReturns: int,
    cashRepaid: int, waveRepaid: int, orangeMoneyRepaid: int,
    cashSpent: int, waveSpent: int, orangeMoneySpent: int)

  function AggregateTotals(db: Db, session: Uuid): SessionTotals {
    var sold, returned := SoldIn(session), ReturnedIn(session);
    SessionTotals(
      Sum(db.sales, SalesCountOf(sold)),
      Sum(db.sales, GrossOf(sold)),
      Sum(db.sales, TakenOf(sold, Cash)), Sum(db.sales, TakenOf(sold, Wave)), Sum(db.sales, TakenOf(sold, OrangeMoney)),
      Sum(db.sales, CreditOf(sold)),
      Sum(db.saleReturns, ReturnedOf(returned)),
      Sum(db.saleReturns, RefundedOf(returned, Cash)), Sum(db.saleReturns, RefundedOf(returned, Wave)),
      Sum(db.saleReturns, RefundedOf(returned, OrangeMoney)),
      Sum(db.saleReturns, CreditReturnedOf(returned)),
      Sum(db.repayments, RepaidOf(session, Cash)), Sum(db.repayments, RepaidOf(session, Wave)),
      Sum(db.repayments, RepaidOf(session, OrangeMoney)),
      Sum(db.expenses, SpentOf(session, Cash)), Sum(db.expenses, SpentOf(session, Wave)),
      Sum(db.expenses, SpentOf(session, OrangeMoney)))
  }

  function ExpectedFrom(opening: int, t: SessionTotals): int {
    opening + t.cash - t.cashRefunds + t.cashRepaid - t.cashSpent
  }

  /** The cash that must be in the drawer now. */
  function ExpectedCash(db: Db, session: Uuid): int
    requires session in db.sessions
  {
    ExpectedFrom(db.sessions[session].opening, AggregateTotals(db, session))
  }

  method DrawerNow(db: Database, session: Uuid) returns (expected: int)
    requires session in db.sessions
    ensures expected == ExpectedCash(db.Rows(), session)
  {
    var sold, returned := SoldIn(session), ReturnedIn(session);
    expected := db.sessions[session].opening
      + Sum(db.sales, TakenOf(sold, Cash)) - Sum(db.saleReturns, RefundedOf(returned, Cash))
      + Sum(db.repayments, RepaidOf(session, Cash)) - Sum(db.expenses, SpentOf(session, Cash));
  }

  // ---------- The accounting identity ----------

  ghost predicate SaleSound(s: Sale) {
    && s.total == Sum(s.items, LineTotals())
    && s.total == Sum(s.payments, Amounts()) + s.credit
    && (s.credit > 0 ==> s.customer.Some?)
    && (forall p :: p in s.payments ==> p.amount > 0)
    && (forall i, j :: 0 <= i < j < |s.items| ==> s.items[i].product != s.items[j].product)
  }

  ghost predicate ReturnSound(r: SaleReturn) {
    && r.total == Sum(r.lines, Refunds())
    && 0 <= r.creditReduction <= r.total
    && (r.refundedBy.Some? <==> r.creditReduction < r.total)
    && (forall i, j :: 0 <= i < j < |r.lines| ==> r.lines[i].item != r.lines[j].item)
  }

  lemma {:induction false} PaymentsByMethod(ps: seq<Payment>)
    ensures Sum(ps, Amounts()) == Sum(ps, By(Cash)) + Sum(ps, By(Wave)) + Sum(ps, By(OrangeMoney))
  {
    if |ps| > 0 {
      PaymentsByMethod(ps[..|ps| - 1]);
    }
  }

  /** Gross sales are the money taken by each method plus the credit granted, for
      any selection of sales: a session, a day, a store. */
  lemma {:induction false} GrossIdentity(sales: seq<Sale>, sel: Sale -> bool)
    requires forall s :: s in sales ==> SaleSound(s)
    ensures Sum(sales, GrossOf(sel)) ==
            Sum(sales, TakenOf(sel, Cash)) + Sum(sales, TakenOf(sel, Wave)) + Sum(sales, TakenOf(sel, OrangeMoney))
            + Sum(sales, CreditOf(sel))
  {
    if |sales| > 0 {
      var last := |sales| - 1;
      GrossIdentity(sales[..last], sel);
      assert sales[last] in sales;
      PaymentsByMethod(sales[last].payments);
    }
  }

  lemma {:induction false} ReturnsIdentity(rs: seq<SaleReturn>, sel: SaleReturn -> bool)
    requires forall r :: r in rs ==> ReturnSound(r)
    ensures Sum(rs, ReturnedOf(sel)) ==
            Sum(rs, RefundedOf(sel, Cash)) + Sum(rs, RefundedOf(sel, Wave)) + Sum(rs, RefundedOf(sel, OrangeMoney))
            + Sum(rs, CreditReturnedOf(sel))
  {
    if |rs| > 0 {
      var last := |rs| - 1;
      ReturnsIdentity(rs[..last], sel);
      var r := rs[last];
      assert r in rs;
      assert r.refundedBy.Some? ==>
          r.refundedBy.value.Cash? || r.refundedBy.value.Wave? || r.refundedBy.value.OrangeMoney?;
    }
  }

  /** Net sales are exactly the net money by method plus the net credit. */
  lemma {:induction false} NetIdentity(db: Db, sold: Sale -> bool, returned: SaleReturn -> bool)
    requires forall s :: s in db.sales ==> SaleSound(s)
    requires forall r :: r in db.saleReturns ==> ReturnSound(r)
    ensures Sum(db.sales, GrossOf(sold)) - Sum(db.saleReturns, ReturnedOf(returned)) ==
            (Sum(db.sales, TakenOf(sold, Cash)) - Sum(db.saleReturns, RefundedOf(returned, Cash)))
            + (Sum(db.sales, TakenOf(sold, Wave)) - Sum(db.saleReturns, RefundedOf(returned, Wave)))
            + (Sum(db.sales, TakenOf(sold, OrangeMoney)) - Sum(db.saleReturns, RefundedOf(returned, OrangeMoney)))
            + (Sum(db.sales, CreditOf(sold)) - Sum(db.saleReturns, CreditReturnedOf(returned)))
  {
    GrossIdentity(db.sales, sold);
    ReturnsIdentity(db.saleReturns, returned);
  }

  lemma {:induction false} SessionIdentity(db: Db, session: Uuid)
    requires forall s :: s in db.sales ==> SaleSound(s)
    requires forall r :: r in db.saleReturns ==> ReturnSound(r)
    ensures var t := AggregateTotals(db, session);
            && t.gross == t.cash + t.wave + t.orangeMoney + t.credit
            && t.returned == t.cashRefunds + t.waveRefunds + t.orangeMoneyRefunds + t.creditReturns
  {
    GrossIdentity(db.sales, SoldIn(session));
    ReturnsIdentity(db.saleReturns, ReturnedIn(session));
  }

  // ---------- The manager's dashboard ----------

  /** A completed sale of the period, in one store or in all of them. */
  function SoldDuring(db: Db, from: Instant, until: Instant, store: Option<Uuid>): Sale -> bool {
    (s: Sale) => !s.cancelled && from <= s.occurredAt < until
                 && (store.Some? ==> s.session in db.sessions && db.sessions[s.session].store == store.value)
  }

  function ReturnedDuring(db: Db, from: Instant, until: Instant, store: Option<Uuid>): SaleReturn -> bool {
    (r: SaleReturn) => from <= r.createdAt < until
                       && (store.Some? ==> r.session in db.sessions && db.sessions[r.session].store == store.value)
  }

  datatype Dashboard = Dashboard(netSales: int, cash: int, wave: int, orangeMoney: int, creditTotal: int)

  function ManagerDashboard(db: Db, from: Instant, until: Instant, store: Option<Uuid>): Dashboard {
    var sold, returned := SoldDuring(db, from, until, store), ReturnedDuring(db, from, until, store);
    Dashboard(
      Sum(db.sales, GrossOf(sold)) - Sum(db.saleReturns, ReturnedOf(returned)),
      Sum(db.sales, TakenOf(sold, Cash)) - Sum(db.saleReturns, RefundedOf(returned, Cash)),
      Sum(db.sales, TakenOf(sold, Wave)) - Sum(db.saleReturns, RefundedOf(returned, Wave)),
      Sum(db.sales, TakenOf(sold, OrangeMoney)) - Sum(db.saleReturns, RefundedOf(returned, OrangeMoney)),
      Sum(db.sales, CreditOf(sold)) - Sum(db.saleReturns, CreditReturnedOf(returned)))
  }

  lemma {:induction false} DashboardIdentity(db: Db, from: Instant, until: Instant, store: Option<Uuid>)
    requires forall s :: s in db.sales ==> SaleSound(s)
    requires forall r :: r in db.saleReturns ==> ReturnSound(r)
    ensures var d := ManagerDashboard(db, from, until, store);
            d.netSales == d.cash + d.wave + d.orangeMoney + d.creditTotal
  {
    NetIdentity(db, SoldDuring(db, from, until, store), ReturnedDuring(db, from, until, store));
  }

  // ---------- Opening and closing ----------

  ghost predicate OneOpenPerRegister(sessions: map<Uuid, Session>) {
    forall a, b ::
      (a in sessions && b in sessions && sessions[a].status.Open? && sessions[b].status.Open?
       && sessions[a].register == sessions[b].register) ==> a == b
  }

  predicate RegisterBusy(sessions: map<Uuid, Session>, register: Uuid) {
    exists id :: id in sessions && sessions[id].register == register && sessions[id].status.Open?
  }

  function OpenSpec(db: Db, id: Uuid, register: Uuid, cashier: Uuid, opening: int): Result<Db, ServiceError> {
    if opening < 0 then Err(InvalidCashAmount)
    else if register !in db.registers then Err(NotFound)
    else
      var r := db.registers[register];
      if (cashier, r.store) !in db.access then Err(CashRegisterNotAllowed)
      else if !r.storeActive || !r.active then Err(CashRegisterUnavailable)
      else if RegisterBusy(db.sessions, register) then Err(CashSessionAlreadyOpen)
      else if id in db.sessions then Err(IntegrityError)
      else Ok(db.(sessions := db.sessions[id := Session(register, r.store, cashier, opening, Open)]))
  }

  method OpenCashSession(db: Database, id: Uuid, register: Uuid, cashier: Uuid, opening: int)
      returns (r: Result<Session, ServiceError>)
    modifies db
    ensures r.Ok? <==> OpenSpec(old(db.Rows()), id, register, cashier, opening).Ok?
    ensures r.Ok? ==> db.Rows() == OpenSpec(old(db.Rows()), id, register, cashier, opening).value
    ensures r.Ok? && OneOpenPerRegister(old(db.sessions)) ==> OneOpenPerRegister(db.sessions)
    ensures r.Err? ==>
              db.Rows() == old(db.Rows()) && OpenSpec(db.Rows(), id, register, cashier, opening) == Err(r.error)
  {
    if opening < 0 { return Err(InvalidCashAmount); }
    if register !in db.registers { return Err(NotFound); }
    var locked := db.registers[register];
    if (cashier, locked.store) !in db.access { return Err(CashRegisterNotAllowed); }
    if !locked.storeActive { return Err(CashRegisterUnavailable); }
    if !locked.active { return Err(CashRegisterUnavailable); }
    if RegisterBusy(db.sessions, register) { return Err(CashSessionAlreadyOpen); }
    if id in db.sessions { return Err(IntegrityError); }
    var session := Session(register, locked.store, cashier, opening, Open);
    db.sessions := db.sessions[id := session];
    return Ok(session);
  }

  function CloseSpec(db: Db, id: Uuid, counted: int, now: Instant): Result<Db, ServiceError> {
    if counted < 0 then Err(InvalidCashAmount)
    else if id !in db.sessions then Err(NotFound)
    else if !db.sessions[id].status.Open? then Err(CashSessionAlreadyClosed)
    else
      var expected := ExpectedCash(db, id);
      if expected < 0 then Err(IntegrityError)
      else Ok(db.(sessions :=
        db.sessions[id := db.sessions[id].(status := Closed(counted, expected, counted - expected, now))]))
  }

  method CloseCashSession(db: Database, id: Uuid, counted: int, now: Instant) returns (r: Result<Session, ServiceError>)
    modifies db
    ensures r.Ok? <==> CloseSpec(old(db.Rows()), id, counted, now).Ok?
    ensures r.Ok? ==> db.Rows() == CloseSpec(old(db.Rows()), id, counted, now).value
    ensures r.Ok? ==> r.value.status.Closed? && r.value.status.difference == counted - old(ExpectedCash(db.Rows(), id))
    ensures r.Err? ==> db.Rows() == old(db.Rows()) && CloseSpec(db.Rows(), id, counted, now) == Err(r.error)
  {
    if counted < 0 { return Err(InvalidCashAmount); }
    if id !in db.sessions { return Err(NotFound); }
    var locked := db.sessions[id];
    if !locked.status.Open? { return Err(CashSessionAlreadyClosed); }
    var expected := DrawerNow(db, id);
    // The database refuses a negative expected balance.
    if expected < 0 { return Err(IntegrityError); }
    locked := locked.(status := Closed(counted, expected, counted - expected, now));
    db.sessions := db.sessions[id := locked];
    return Ok(locked);
  }
}
