/** Returned goods: the debt of the sale is erased first, and only the rest is given back in
    money; only what is fit for sale goes back to the shelf. */
module DebtFirst {
  import opened Sums
  import opened Rounding
  import opened Tables
  import opened Inventory
  import opened Customers
  import opened CashDesk
  import opened Returns
  import opened Invariants

  function SaleOf(db: Db, q: ReturnRequest): Sale
    requires FindSale(db.sales, q.sale) < |db.sales|
  {
    db.sales[FindSale(db.sales, q.sale)]
  }

  /** The credit of the sale that no return has erased yet. */
  function CreditLeft(db: Db, sale: Sale): int {
    sale.credit - Sum(db.saleReturns, CreditTaken(sale.id))
  }

  /** The debt that a return of this sale may still erase: what is left of its credit, as
      far as its customer still owes anything. */
  function DebtLeft(db: Db, sale: Sale): int {
    if sale.customer.None? then 0 else Min(CreditLeft(db, sale), Balance(db.entries, sale.customer.value))
  }

  predicate NewKey(db: Db, q: ReturnRequest) {
    FindReturn(db.saleReturns, q.key) == |db.saleReturns|
  }

  lemma {:induction false} ReducibleIsDebtLeft(db: Db, sale: Sale)
    requires Inv(db) && sale in db.sales
    ensures ReducibleCredit(db.entries, sale) == DebtLeft(db, sale) >= 0
  {
    var i :| 0 <= i < |db.sales| && db.sales[i] == sale;
    assert SaleRecord(db.sessions, db.sales[i]);
    assert Sum(db.entries, ReturnCreditOf(sale.id)) == -Sum(db.saleReturns, CreditTaken(sale.id));
    assert Sum(db.saleReturns, CreditTaken(db.sales[i].id)) <= db.sales[i].credit;
    CreditTakenNonneg(db, sale.id);
    if sale.customer.Some? { assert Balance(db.entries, sale.customer.value) >= 0; }
  }

  lemma {:induction false} CreditTakenNonneg(db: Db, id: Uuid)
    requires RecordsInv(db)
    ensures Sum(db.saleReturns, CreditTaken(id)) >= 0
  {
    forall i | 0 <= i < |db.saleReturns| ensures CreditTaken(id)(db.saleReturns[i]) >= 0 {
      assert ReturnRecord(db.sessions, db.sales, db.saleReturns[i]);
    }
    SumNonneg(db.saleReturns, CreditTaken(id));
  }

  /** A new return erases as much debt as it can. */
  lemma {:induction false} DebtErasedFirst(db: Db, q: ReturnRequest)
    requires Inv(db) && NewKey(db, q) && ReturnSpec(db, q).Ok?
    ensures FindSale(db.sales, q.sale) < |db.sales|
    ensures var (after, row) := ReturnSpec(db, q).value;
            row.sale == q.sale && row.creditReduction == Min(row.total, DebtLeft(db, SaleOf(db, q)))
  {
    ReducibleIsDebtLeft(db, SaleOf(db, q));
  }

  /** The balance of the sale's customer falls by exactly that, and no other moves. */
  lemma {:induction false} BalanceAfterReturn(db: Db, q: ReturnRequest, c: Uuid)
    requires Inv(db) && NewKey(db, q) && ReturnSpec(db, q).Ok?
    ensures FindSale(db.sales, q.sale) < |db.sales|
    ensures var (after, row) := ReturnSpec(db, q).value;
            Balance(after.entries, c) ==
            Balance(db.entries, c) - if SaleOf(db, q).customer == Some(c) then row.creditReduction else 0
  {
    DebtErasedFirst(db, q);
    var (after, row) := ReturnSpec(db, q).value;
    ReducibleIsDebtLeft(db, SaleOf(db, q));
    ReturnTotal(row);
    if row.creditReduction > 0 {
      SumPush(db.entries, ReturnEntries(SaleOf(db, q), row)[0], OwedBy(c));
    } else {
      assert db.entries + [] == db.entries;
    }
  }

  lemma {:induction false} ReturnTotal(row: SaleReturn)
    requires row.total == Sum(row.lines, Refunds())
    ensures row.total >= 0
  {
    RefundsNonneg(row.lines);
  }

  /** Money is given back, by the method asked for, only once the credit of the sale is used
      up or its customer owes nothing; otherwise no method is recorded. */
  lemma {:induction false} MoneyLast(db: Db, q: ReturnRequest)
    requires Inv(db) && NewKey(db, q) && ReturnSpec(db, q).Ok?
    ensures FindSale(db.sales, q.sale) < |db.sales|
    ensures var ((after, row), sale) := (ReturnSpec(db, q).value, SaleOf(db, q));
            if row.creditReduction < row.total then
              && row.refundedBy == q.refundBy && q.refundBy.Some?
              && (sale.customer.Some? ==>
                    CreditLeft(after, sale) == 0 || Balance(after.entries, sale.customer.value) == 0)
            else row.refundedBy == None
  {
    var ((after, row), sale) := (ReturnSpec(db, q).value, SaleOf(db, q));
    DebtErasedFirst(db, q);
    SumPush(db.saleReturns, row, CreditTaken(sale.id));
    if sale.customer.Some? { BalanceAfterReturn(db, q, sale.customer.value); }
  }

  /** The drawer of the session of the return gives the rest if it is given in cash, and no
      other drawer moves. */
  lemma {:induction false} DrawerAfterReturn(db: Db, q: ReturnRequest, s: Uuid)
    requires Inv(db) && NewKey(db, q) && ReturnSpec(db, q).Ok? && s in db.sessions
    ensures var (after, row) := ReturnSpec(db, q).value;
            && s in after.sessions
            && ExpectedCash(after, s) ==
               ExpectedCash(db, s)
               - if s == q.session && q.refundBy == Some(Cash) then row.total - row.creditReduction else 0
  {
    var (after, row) := ReturnSpec(db, q).value;
    MoneyLast(db, q);
    DebtErasedFirst(db, q);
    SumPush(db.saleReturns, row, RefundedOf(ReturnedIn(s), Cash));
  }

  // ---------- When goods are taken back ----------

  /** The refund of one requested line: the price of the sale, rounded half up to the cent. */
  function RefundAsked(sale: Sale): RequestedLine -> int {
    (line: RequestedLine) =>
      if line.item < |sale.items| && line.quantity > 0
      then HalfUp(sale.items[line.item].unitPrice * line.quantity, QUANTITY_SCALE) else 0
  }

  function TotalAsked(sale: Sale, lines: seq<RequestedLine>): int {
    Sum(lines, RefundAsked(sale))
  }

  /** A line of the sale, by whole units if it is sold so, of which enough is still out. */
  predicate StillOut(db: Db, sale: Sale, line: RequestedLine) {
    && line.item < |sale.items| && 0 < line.quantity
    && AlreadyReturned(db.saleReturns, sale.id, line.item) + line.quantity <= sale.items[line.item].quantity
    && (sale.items[line.item].product in db.products && db.products[sale.items[line.item].product].saleUnit == Unit ==>
          line.quantity % 1000 == 0)
  }

  /** The request names goods of a standing sale, in the open session of its author and in
      the store of the sale. */
  predicate GoodsAccepted(db: Db, q: ReturnRequest) {
    && q.lines != []
    && q.session in db.sessions && db.sessions[q.session].status == Open && db.sessions[q.session].cashier == q.author
    && FindSale(db.sales, q.sale) < |db.sales|
    && var sale := SaleOf(db, q);
    && !sale.cancelled
    && sale.session in db.sessions && db.sessions[sale.session].store == db.sessions[q.session].store
    && (forall i, j :: 0 <= i < j < |q.lines| ==> q.lines[i].item != q.lines[j].item)
    && forall i :: 0 <= i < |q.lines| ==> StillOut(db, sale, q.lines[i])
  }

  /** What is left to give back in money can be: a method is named, and the drawer of the
      session holds it if it is cash. */
  predicate MoneyCovered(db: Db, q: ReturnRequest, money: int)
    requires q.session in db.sessions
  {
    money > 0 ==> q.refundBy.Some? && (q.refundBy == Some(Cash) ==> money <= ExpectedCash(db, q.session))
  }

  function MoneyDue(db: Db, sale: Sale, total: int): int {
    total - Min(total, DebtLeft(db, sale))
  }

  lemma {:induction false} PricedAsAsked(db: Db, sale: Sale, lines: seq<RequestedLine>)
    requires forall i :: 0 <= i < |lines| ==> LineAccepted(db, sale, lines[i])
    ensures Sum(PriceLines(db, sale, lines), Refunds()) == TotalAsked(sale, lines)
  {
    var priced := PriceLines(db, sale, lines);
    forall i | 0 <= i < |lines| ensures Refunds()(priced[i]) == RefundAsked(sale)(lines[i]) {
      assert LineAccepted(db, sale, lines[i]);
    }
    SumPointwise(priced, lines, Refunds(), RefundAsked(sale));
  }

  lemma {:induction false} GoodsAcceptedIff(db: Db, q: ReturnRequest)
    ensures ReturnProblem(db, q).None? <==> GoodsAccepted(db, q)
  {
  }

  /** A new return is accepted if and only if its goods are and the money left to give back,
      after the debt, can be; a return that the debt covers needs no method. */
  lemma {:induction false} ReturnsIff(db: Db, q: ReturnRequest)
    requires Inv(db) && NewKey(db, q)
    ensures ReturnSpec(db, q).Ok? <==>
              && GoodsAccepted(db, q)
              && (forall i :: 0 <= i < |q.lines| ==> RefundAsked(SaleOf(db, q))(q.lines[i]) > 0)
              && MoneyCovered(db, q, MoneyDue(db, SaleOf(db, q), TotalAsked(SaleOf(db, q), q.lines)))
    ensures ReturnSpec(db, q).Ok? ==> ReturnSpec(db, q).value.1.total == TotalAsked(SaleOf(db, q), q.lines)
  {
    GoodsAcceptedIff(db, q);
    if GoodsAccepted(db, q) {
      RowAsAsked(db, q);
      MoneyIff(db, q, ReturnRow(db, q, SaleOf(db, q), PriceLines(db, SaleOf(db, q), q.lines)));
    }
  }

  lemma {:induction false} RowAsAsked(db: Db, q: ReturnRequest)
    requires Inv(db) && GoodsAccepted(db, q)
    ensures var sale := SaleOf(db, q);
            var row := ReturnRow(db, q, sale, PriceLines(db, sale, q.lines));
            && row.total == TotalAsked(sale, q.lines)
            && row.total - row.creditReduction == MoneyDue(db, sale, row.total)
            && ((exists i :: 0 <= i < |row.lines| && row.lines[i].refund == 0) <==>
                  !(forall i :: 0 <= i < |q.lines| ==> RefundAsked(sale)(q.lines[i]) > 0))
  {
    ReducibleIsDebtLeft(db, SaleOf(db, q));
    PricedAsAsked(db, SaleOf(db, q), q.lines);
    RefundsAsAsked(db, SaleOf(db, q), q.lines);
  }

  lemma {:induction false} MoneyIff(db: Db, q: ReturnRequest, row: SaleReturn)
    requires q.session in db.sessions && row.refundedBy == if row.total > row.creditReduction then q.refundBy else None
    ensures MoneyProblem(db, q, row).None? <==>
              && MoneyCovered(db, q, row.total - row.creditReduction)
              && !(exists i :: 0 <= i < |row.lines| && row.lines[i].refund == 0)
  {
  }

  lemma {:induction false} RefundsAsAsked(db: Db, sale: Sale, lines: seq<RequestedLine>)
    requires forall i :: 0 <= i < |lines| ==> LineAccepted(db, sale, lines[i])
    ensures (exists i :: 0 <= i < |lines| && PriceLines(db, sale, lines)[i].refund == 0) <==>
              !(forall i :: 0 <= i < |lines| ==> RefundAsked(sale)(lines[i]) > 0)
  {
    var priced := PriceLines(db, sale, lines);
    forall i | 0 <= i < |lines| ensures priced[i].refund == RefundAsked(sale)(lines[i]) {
      assert LineAccepted(db, sale, lines[i]);
    }
  }

  // ---------- What goes back to the shelf ----------

  /** The units of this stock that a requested line puts back on the shelf. */
  function PutBack(sale: Sale, store: Uuid, key: StockKey): RequestedLine -> int {
    (line: RequestedLine) =>
      if line.restock && line.item < |sale.items| && key == StockKey(store, sale.items[line.item].product)
      then line.quantity else 0
  }

  lemma {:induction false} MovesPutBack(db: Db, sale: Sale, store: Uuid, lines: seq<RequestedLine>, ret: Uuid,
      key: StockKey)
    requires forall i :: 0 <= i < |lines| ==> LineAccepted(db, sale, lines[i])
    ensures forall i :: 0 <= i < |lines| ==> PriceLines(db, sale, lines)[i].item < |sale.items|
    ensures Sum(ReturnMoves(store, sale, PriceLines(db, sale, lines), ret), QuantityAt(key)) ==
            Sum(lines, PutBack(sale, store, key))
  {
    var priced := PriceLines(db, sale, lines);
    assert forall i :: 0 <= i < |lines| ==> LineAccepted(db, sale, lines[i]) && priced[i] == PriceLine(sale, lines[i]);
    if |lines| > 0 {
      var front := lines[..|lines| - 1];
      assert forall i :: 0 <= i < |front| ==> front[i] == lines[i];
      MovesPutBack(db, sale, store, front, ret, key);
      assert PriceLines(db, sale, front) == priced[..|priced| - 1];
      var moves, last := ReturnMoves(store, sale, priced[..|priced| - 1], ret), priced[|priced| - 1];
      if last.restock {
        SumPush(moves, Movement(StockKey(store, sale.items[last.item].product), ReturnIn, last.quantity,
                                sale.items[last.item].unitCost, Some(ret)), QuantityAt(key));
      } else {
        assert moves + [] == moves;
      }
    }
  }

  /** Stock grows by the lines to restock, in the store of the session, and by nothing else. */
  lemma {:induction false} StockAfterReturn(db: Db, q: ReturnRequest, key: StockKey)
    requires NewKey(db, q) && ReturnSpec(db, q).Ok?
    ensures q.session in db.sessions && FindSale(db.sales, q.sale) < |db.sales|
    ensures RowAt(ReturnSpec(db, q).value.0.book.rows, key).quantity ==
            RowAt(db.book.rows, key).quantity
            + Sum(q.lines, PutBack(SaleOf(db, q), db.sessions[q.session].store, key))
  {
    var (after, row) := ReturnSpec(db, q).value;
    var sale, store := SaleOf(db, q), db.sessions[q.session].store;
    MovesPutBack(db, sale, store, q.lines, row.key, key);
    PostAllQuantities(db.book, ReturnMoves(store, sale, row.lines, row.key), key);
  }
}
