/** Returns of sold goods: stock back at its frozen cost, debt first, money last. */
module Returns {
  import opened Sums
  import opened Rounding
  import opened Tables
  import opened Inventory
  import opened Customers
  import opened CashDesk

  datatype RequestedLine = RequestedLine(item: nat, quantity: int, restock: bool)

  datatype ReturnRequest = ReturnRequest(
    key: Uuid, sale: Uuid, session: Uuid, author: Uuid, lines: seq<RequestedLine>,
    refundBy: Option<PaymentMethod>, now: Instant)

  // ---------- Quantities already returned ----------

  function UnitsOf(item: nat): ReturnLine -> int {
    (line: ReturnLine) => if line.item == item then line.quantity else 0
  }

  function UnitsReturned(sale: Uuid, item: nat): SaleReturn -> int {
    (r: SaleReturn) => if r.sale == sale then Sum(r.lines, UnitsOf(item)) else 0
  }

  function AlreadyReturned(rows: seq<SaleReturn>, sale: Uuid, item: nat): int {
    Sum(rows, UnitsReturned(sale, item))
  }

  predicate LineAccepted(db: Db, sale: Sale, line: RequestedLine) {
    && line.item < |sale.items|
    && line.quantity > 0
    && var product := sale.items[line.item].product;
    && (product in db.products && db.products[product].saleUnit.Unit? ==> line.quantity % QUANTITY_SCALE == 0)
    && line.quantity <= sale.items[line.item].quantity - AlreadyReturned(db.saleReturns, sale.id, line.item)
  }

  predicate Returnable(db: Db, sale: Sale, lines: seq<RequestedLine>) {
    && (forall i, j :: 0 <= i < j < |lines| ==> lines[i].item != lines[j].item)
    && (forall i :: 0 <= i < |lines| ==> LineAccepted(db, sale, lines[i]))
  }

  function PriceLine(sale: Sale, line: RequestedLine): ReturnLine
    requires line.item < |sale.items| && line.quantity > 0
  {
    ReturnLine(line.item, line.quantity, LineCents(sale.items[line.item].unitPrice, line.quantity), line.restock)
  }

  function PriceLines(db: Db, sale: Sale, lines: seq<RequestedLine>): seq<ReturnLine>
    requires forall i :: 0 <= i < |lines| ==> LineAccepted(db, sale, lines[i])
  {
    seq(|lines|, i requires 0 <= i < |lines| => assert LineAccepted(db, sale, lines[i]); PriceLine(sale, lines[i]))
  }

  // ---------- Stock coming back ----------

  /** Only restocked lines move stock, at the cost frozen on the sale. */
  function ReturnMoves(store: Uuid, sale: Sale, lines: seq<ReturnLine>, key: Uuid): (ms: seq<Movement>)
    requires forall i :: 0 <= i < |lines| ==> lines[i].item < |sale.items|
    ensures forall m :: m in ms ==> WellFormed(m) && m.kind.ReturnIn?
    ensures forall m :: m in ms ==>
              exists i :: 0 <= i < |sale.items| && m.key == StockKey(store, sale.items[i].product)
                && m.unitCost == sale.items[i].unitCost
  {
    if |lines| == 0 then []
    else
      var line := lines[|lines| - 1];
      var item := sale.items[line.item];
      ReturnMoves(store, sale, lines[..|lines| - 1], key)
      + if line.restock
        then [Movement(StockKey(store, item.product), ReturnIn, line.quantity, item.unitCost, Some(key))] else []
  }

  // ---------- The service ----------

  function ExistingReturn(existing: SaleReturn, q: ReturnRequest): Result<SaleReturn, ServiceError> {
    if existing.sale != q.sale || existing.session != q.session || existing.author != q.author
    then Err(InvalidReturn) else Ok(existing)
  }

  /** Everything checked before money is considered: session, author, sale, lines. */
  function ReturnProblem(db: Db, q: ReturnRequest): (problem: Option<ServiceError>)
    ensures problem.None? ==>
              && q.session in db.sessions
              && FindSale(db.sales, q.sale) < |db.sales|
              && Returnable(db, db.sales[FindSale(db.sales, q.sale)], q.lines)
  {
    if |q.lines| == 0 then Some(InvalidReturn)
    else if q.session !in db.sessions then Some(NotFound)
    else if !db.sessions[q.session].status.Open? then Some(CashSessionClosed)
    else if db.sessions[q.session].cashier != q.author then Some(InvalidReturn)
    else
      var at := FindSale(db.sales, q.sale);
      if at == |db.sales| then Some(NotFound)
      else
        var sale := db.sales[at];
        if sale.cancelled then Some(InvalidReturn)
        else if sale.session !in db.sessions || db.sessions[sale.session].store != db.sessions[q.session].store
          then Some(InvalidReturn)
        else if !Returnable(db, sale, q.lines) then Some(InvalidReturn)
        else None
  }

  /** The debt first: what the customer still owes on this sale is erased, and only
      the rest is given back in money, by a method that is then compulsory. */
  function ReturnRow(db: Db, q: ReturnRequest, sale: Sale, lines: seq<ReturnLine>): SaleReturn {
    var total := Sum(lines, Refunds());
    var reduction := Min(total, ReducibleCredit(db.entries, sale));
    SaleReturn(q.key, q.sale, q.session, q.author, lines, total, reduction,
               if total > reduction then q.refundBy else None, q.now)
  }

  function MoneyProblem(db: Db, q: ReturnRequest, row: SaleReturn): Option<ServiceError>
    requires q.session in db.sessions
  {
    var money := row.total - row.creditReduction;
    if money > 0 && q.refundBy.None? then Some(InvalidReturn)
    else if row.refundedBy == Some(Cash) && money > ExpectedCash(db, q.session) then Some(InsufficientCashForRefund)
    // The tables refuse a refund of zero.
    else if exists i :: 0 <= i < |row.lines| && row.lines[i].refund == 0 then Some(IntegrityError)
    else None
  }

  function ReturnEntries(sale: Sale, row: SaleReturn): seq<Entry>
    requires row.creditReduction > 0 ==> sale.customer.Some?
  {
    if row.creditReduction > 0 then [Entry(sale.customer.value, ReturnCredit(sale.id, row.key), -row.creditReduction)]
      else []
  }

  function CommitReturn(db: Db, store: Uuid, sale: Sale, row: SaleReturn): Db
    requires forall i :: 0 <= i < |row.lines| ==> row.lines[i].item < |sale.items|
    requires row.creditReduction > 0 ==> sale.customer.Some?
  {
    db.(saleReturns := db.saleReturns + [row],
        entries := db.entries + ReturnEntries(sale, row),
        book := PostAll(db.book, ReturnMoves(store, sale, row.lines, row.key)))
  }

  function ReturnSpec(db: Db, q: ReturnRequest): Result<(Db, SaleReturn), ServiceError> {
    var found := FindReturn(db.saleReturns, q.key);
    if found < |db.saleReturns| then
      var existing := ExistingReturn(db.saleReturns[found], q);
      if existing.Ok? then Ok((db, existing.value)) else Err(existing.error)
    else
      var problem := ReturnProblem(db, q);
      if problem.Some? then Err(problem.value)
      else
        var sale := db.sales[FindSale(db.sales, q.sale)];
        var row := ReturnRow(db, q, sale, PriceLines(db, sale, q.lines));
        var money := MoneyProblem(db, q, row);
        if money.Some? then Err(money.value)
        else Ok((CommitReturn(db, db.sessions[q.session].store, sale, row), row))
  }

  method CheckLine(db: Database, sale: Sale, line: RequestedLine) returns (accepted: bool)
    ensures accepted == LineAccepted(db.Rows(), sale, line)
  {
    if line.quantity <= 0 { return false; }
    if line.item >= |sale.items| { return false; }
    var item := sale.items[line.item];
    if item.product in db.products && db.products[item.product].saleUnit.Unit? && line.quantity % QUANTITY_SCALE != 0 {
      return false;
    }
    var already := AlreadyReturned(db.saleReturns, sale.id, line.item);
    if line.quantity > item.quantity - already { return false; }
    return true;
  }

  /** The first `k` lines are distinct, acceptable and priced. */
  ghost predicate CheckedTo(db: Db, sale: Sale, requested: seq<RequestedLine>, k: nat, seen: set<nat>,
      lines: seq<ReturnLine>, total: int) {
    && k <= |requested|
    && seen == (set i | 0 <= i < k :: requested[i].item)
    && (forall i, j :: 0 <= i < j < k ==> requested[i].item != requested[j].item)
    && (forall i :: 0 <= i < k ==> LineAccepted(db, sale, requested[i]))
    && |lines| == k && (forall i :: 0 <= i < k ==> lines[i] == PriceLine(sale, requested[i]))
    && total == Sum(lines, Refunds())
  }

  lemma {:induction false} CheckedFurther(db: Db, sale: Sale, requested: seq<RequestedLine>, k: nat, seen: set<nat>,
      lines: seq<ReturnLine>, total: int)
    requires CheckedTo(db, sale, requested, k, seen, lines, total) && k < |requested|
    requires requested[k].item !in seen && LineAccepted(db, sale, requested[k])
    ensures var priced := PriceLine(sale, requested[k]);
            CheckedTo(db, sale, requested, k + 1, seen + {requested[k].item}, lines + [priced], total + priced.refund)
  {
    SumPush(lines, PriceLine(sale, requested[k]), Refunds());
  }

  lemma {:induction false} SeenTwice(db: Db, sale: Sale, requested: seq<RequestedLine>, k: nat, seen: set<nat>,
      lines: seq<ReturnLine>, total: int)
    requires CheckedTo(db, sale, requested, k, seen, lines, total) && k < |requested| && requested[k].item in seen
    ensures !Returnable(db, sale, requested)
  {
    var i :| 0 <= i < k && requested[i].item == requested[k].item;
  }

  /** The requested lines, checked one by one and priced at the sale's own price. */
  method CheckLines(db: Database, sale: Sale, requested: seq<RequestedLine>)
      returns (r: Option<seq<ReturnLine>>, total: int)
    ensures r.Some? <==> Returnable(db.Rows(), sale, requested)
    ensures r.Some? ==> r.value == PriceLines(db.Rows(), sale, requested) && total == Sum(r.value, Refunds())
  {
    ghost var rows := db.Rows();
    total := 0;
    var seen: set<nat> := {};
    var lines: seq<ReturnLine> := [];
    for k := 0 to |requested|
      invariant CheckedTo(rows, sale, requested, k, seen, lines, total)
    {
      var line := requested[k];
      if line.item in seen {
        SeenTwice(rows, sale, requested, k, seen, lines, total);
        return None, 0;
      }
      var accepted := CheckLine(db, sale, line);
      if !accepted { return None, 0; }
      CheckedFurther(rows, sale, requested, k, seen, lines, total);
      var priced := PriceLine(sale, line);
      total := total + priced.refund;
      lines := lines + [priced];
      seen := seen + {line.item};
    }
    return Some(lines), total;
  }

  method RestockLine(stocks: map<StockKey, StockRow>, movements: seq<Movement>, ghost changes: seq<CostChange>,
      m: Movement)
    returns (rows: map<StockKey, StockRow>, journal: seq<Movement>)
    requires WellFormed(m) && m.kind.ReturnIn?
    ensures StockBook(rows, journal, changes) == Post(StockBook(stocks, movements, changes), m)
  {
    var stock := RowAt(stocks, m.key);
    stock := stock.(cost := WeightedAverageCost(stock.quantity, stock.cost, m.quantity, m.unitCost));
    stock := stock.(quantity := stock.quantity + m.quantity);
    rows := stocks[m.key := stock];
    journal := movements + [m];
  }

  method Restock(book: StockBook, store: Uuid, sale: Sale, lines: seq<ReturnLine>, key: Uuid)
    returns (stocks: map<StockKey, StockRow>, movements: seq<Movement>)
    requires forall i :: 0 <= i < |lines| ==> lines[i].item < |sale.items|
    ensures StockBook(stocks, movements, book.changes) == PostAll(book, ReturnMoves(store, sale, lines, key))
  {
    stocks, movements := book.rows, book.movements;
    for k := 0 to |lines|
      invariant StockBook(stocks, movements, book.changes) == PostAll(book, ReturnMoves(store, sale, lines[..k], key))
    {
      var line := lines[k];
      assert lines[..k + 1][..k] == lines[..k];
      ghost var moves := ReturnMoves(store, sale, lines[..k], key);
      if line.restock {
        var item := sale.items[line.item];
        var movement := Movement(StockKey(store, item.product), ReturnIn, line.quantity, item.unitCost, Some(key));
        stocks, movements := RestockLine(stocks, movements, book.changes, movement);
        PostAllPush(book, moves, movement);
        assert ReturnMoves(store, sale, lines[..k + 1], key) == moves + [movement];
      } else {
        assert ReturnMoves(store, sale, lines[..k + 1], key) == moves + [] == moves;
      }
    }
    assert lines[..|lines|] == lines;
  }

  method CreateSaleReturn(db: Database, q: ReturnRequest) returns (r: Result<SaleReturn, ServiceError>)
    modifies db
    ensures r.Ok? <==> ReturnSpec(old(db.Rows()), q).Ok?
    ensures r.Ok? ==> (db.Rows(), r.value) == ReturnSpec(old(db.Rows()), q).value
    ensures r.Err? ==> db.Rows() == old(db.Rows()) && ReturnSpec(db.Rows(), q) == Err(r.error)
  {
    var found := FindReturn(db.saleReturns, q.key);
    if found < |db.saleReturns| { return ExistingReturn(db.saleReturns[found], q); }
    var sale;
    r, sale := PrepareReturn(db, q);
    if r.Ok? {
      WriteReturn(db, db.sessions[q.session].store, sale, r.value);
    }
  }

  method WriteReturn(db: Database, store: Uuid, sale: Sale, row: SaleReturn)
    requires forall i :: 0 <= i < |row.lines| ==> row.lines[i].item < |sale.items|
    requires row.creditReduction > 0 ==> sale.customer.Some?
    modifies db
    ensures db.Rows() == CommitReturn(old(db.Rows()), store, sale, row)
  {
    db.saleReturns := db.saleReturns + [row];
    if row.creditReduction > 0 {
      db.entries := db.entries + [Entry(sale.customer.value, ReturnCredit(sale.id, row.key), -row.creditReduction)];
    }
    var stocks, movements :=
        Restock(StockBook(db.stocks, db.movements, db.costChanges), store, sale, row.lines, row.key);
    db.stocks, db.movements := stocks, movements;
  }

  method PrepareReturn(db: Database, q: ReturnRequest) returns (r: Result<SaleReturn, ServiceError>, sale: Sale)
    requires FindReturn(db.saleReturns, q.key) == |db.saleReturns|
    ensures r.Ok? <==> ReturnSpec(db.Rows(), q).Ok?
    ensures r.Err? ==> ReturnSpec(db.Rows(), q) == Err(r.error)
    ensures r.Ok? ==>
              q.session in db.sessions && FindSale(db.sales, q.sale) < |db.sales|
                && sale == db.sales[FindSale(db.sales, q.sale)]
    ensures r.Ok? ==> (forall i :: 0 <= i < |r.value.lines| ==> r.value.lines[i].item < |sale.items|)
                      && (r.value.creditReduction > 0 ==> sale.customer.Some?)
                      && ReturnSpec(db.Rows(), q) ==
                        Ok((CommitReturn(db.Rows(), db.sessions[q.session].store, sale, r.value), r.value))
  {
    sale := Sale(0, 0, [], [], 0, None, 0, false, 0);
    var problem, lines, total := CheckRequest(db, q);
    if problem.Some? { return Err(problem.value), sale; }
    sale := db.sales[FindSale(db.sales, q.sale)];
    ghost var rows := db.Rows();
    var creditReduction := Min(total, ReducibleCredit(db.entries, sale));
    var money := total - creditReduction;
    var refundedBy: Option<PaymentMethod> := None;
    if money > 0 {
      if q.refundBy.None? { return Err(InvalidReturn), sale; }
      refundedBy := q.refundBy;
    }
    if refundedBy == Some(Cash) {
      var available := DrawerNow(db, q.session);
      if money > available { return Err(InsufficientCashForRefund), sale; }
    }
    if exists i :: 0 <= i < |lines| && lines[i].refund == 0 { return Err(IntegrityError), sale; }
    var row := SaleReturn(q.key, q.sale, q.session, q.author, lines, total, creditReduction, refundedBy, q.now);
    assert row == ReturnRow(rows, q, sale, lines);
    return Ok(row), sale;
  }

  method CheckRequest(db: Database, q: ReturnRequest)
      returns (problem: Option<ServiceError>, lines: seq<ReturnLine>, total: int)
    ensures problem == ReturnProblem(db.Rows(), q)
    ensures problem.None? ==>
              && lines == PriceLines(db.Rows(), db.sales[FindSale(db.sales, q.sale)], q.lines)
              && total == Sum(lines, Refunds())
  {
    lines, total := [], 0;
    if |q.lines| == 0 { return Some(InvalidReturn), lines, total; }
    if q.session !in db.sessions { return Some(NotFound), lines, total; }
    var session := db.sessions[q.session];
    if !session.status.Open? { return Some(CashSessionClosed), lines, total; }
    if session.cashier != q.author { return Some(InvalidReturn), lines, total; }
    var at := FindSale(db.sales, q.sale);
    if at == |db.sales| { return Some(NotFound), lines, total; }
    var sale := db.sales[at];
    if sale.cancelled { return Some(InvalidReturn), lines, total; }
    if sale.session !in db.sessions || db.sessions[sale.session].store != session.store {
      return Some(InvalidReturn), lines, total;
    }
    var checked;
    checked, total := CheckLines(db, sale, q.lines);
    if checked.None? { return Some(InvalidReturn), lines, total; }
    return None, checked.value, total;
  }

  // ---------- What an accepted return guarantees ----------

  lemma {:induction false} SumOfUnits(lines: seq<ReturnLine>, item: nat, i: nat)
    requires i < |lines| && lines[i].item == item
    requires forall j, k :: 0 <= j < k < |lines| ==> lines[j].item != lines[k].item
    ensures Sum(lines, UnitsOf(item)) == lines[i].quantity
  {
    var last := |lines| - 1;
    if i == last {
      SumZero(lines[..last], UnitsOf(item));
    } else {
      SumOfUnits(lines[..last], item, i);
    }
  }

  lemma {:induction false} RefundsNonneg(lines: seq<ReturnLine>)
    ensures Sum(lines, Refunds()) >= 0
  {
    SumNonneg(lines, Refunds());
  }

  lemma {:induction false} QuantityFits(rows: seq<SaleReturn>, sale: Sale, row: SaleReturn, item: nat)
    requires row.sale == sale.id && item < |sale.items|
    requires forall i, j :: 0 <= i < j < |row.lines| ==> row.lines[i].item != row.lines[j].item
    requires forall i :: 0 <= i < |row.lines| ==>
               row.lines[i].item < |sale.items|
               && row.lines[i].quantity <= sale.items[row.lines[i].item].quantity
                 - AlreadyReturned(rows, sale.id, row.lines[i].item)
    requires AlreadyReturned(rows, sale.id, item) <= sale.items[item].quantity
    ensures AlreadyReturned(rows + [row], sale.id, item) <= sale.items[item].quantity
  {
    SumPush(rows, row, UnitsReturned(sale.id, item));
    if i :| 0 <= i < |row.lines| && row.lines[i].item == item {
      SumOfUnits(row.lines, item, i);
    } else {
      SumZero(row.lines, UnitsOf(item));
    }
  }

  lemma {:induction false} NewReturnSound(db: Db, q: ReturnRequest)
    requires FindReturn(db.saleReturns, q.key) == |db.saleReturns|
    requires ReturnSpec(db, q).Ok?
    ensures var (after, row) := ReturnSpec(db, q).value;
            var sale := db.sales[FindSale(db.sales, q.sale)];
            && ReturnSound(row)
            && row.key == q.key && row.sale == sale.id && row.session == q.session && row.author == q.author
            && (forall i :: 0 <= i < |row.lines| ==>
                  row.lines[i].item < |sale.items|
                  && row.lines[i].refund == LineCents(sale.items[row.lines[i].item].unitPrice, row.lines[i].quantity))
            && (forall item: nat ::
                  item < |sale.items| && AlreadyReturned(db.saleReturns, sale.id, item) <= sale.items[item].quantity ==>
                  AlreadyReturned(after.saleReturns, sale.id, item) <= sale.items[item].quantity)
  {
    var (after, row) := ReturnSpec(db, q).value;
    var sale := db.sales[FindSale(db.sales, q.sale)];
    RefundsNonneg(row.lines);
    assert forall i :: 0 <= i < |q.lines| ==>
        LineAccepted(db, sale, q.lines[i]) && row.lines[i] == PriceLine(sale, q.lines[i]);
    forall item: nat | item < |sale.items|
      && AlreadyReturned(db.saleReturns, sale.id, item) <= sale.items[item].quantity
      ensures AlreadyReturned(after.saleReturns, sale.id, item) <= sale.items[item].quantity
    {
      assert forall i :: 0 <= i < |row.lines| ==>
        row.lines[i].quantity <= sale.items[row.lines[i].item].quantity
          - AlreadyReturned(db.saleReturns, sale.id, row.lines[i].item);
      QuantityFits(db.saleReturns, sale, row, item);
    }
  }

  // ---------- Rounding over a sequence of returns ----------

  function RefundOf(item: nat): ReturnLine -> int {
    (line: ReturnLine) => if line.item == item then line.refund else 0
  }

  function RefundedFor(sale: Uuid, item: nat): SaleReturn -> int {
    (r: SaleReturn) => if r.sale == sale then Sum(r.lines, RefundOf(item)) else 0
  }

  function CountOf(item: nat): ReturnLine -> int {
    (line: ReturnLine) => if line.item == item then 1 else 0
  }

  /** How many return lines name this line of this sale. */
  function LinesReturned(sale: Uuid, item: nat): SaleReturn -> int {
    (r: SaleReturn) => if r.sale == sale then Sum(r.lines, CountOf(item)) else 0
  }

  predicate Names(lines: seq<ReturnLine>, item: nat) {
    exists i :: 0 <= i < |lines| && lines[i].item == item
  }

  /** How many returns of the sale name this line of it. */
  function TimesReturned(sale: Uuid, item: nat): SaleReturn -> int {
    (r: SaleReturn) => if r.sale == sale && Names(r.lines, item) then 1 else 0
  }

  lemma {:induction false} NamedOnce(lines: seq<ReturnLine>, item: nat)
    requires forall i, j :: 0 <= i < j < |lines| ==> lines[i].item != lines[j].item
    ensures Sum(lines, CountOf(item)) == if Names(lines, item) then 1 else 0
  {
    if |lines| > 0 {
      var front, last := lines[..|lines| - 1], |lines| - 1;
      NamedOnce(front, item);
      if Names(lines, item) && lines[last].item != item {
        var i :| 0 <= i < |lines| && lines[i].item == item;
        assert front[i] == lines[i];
      }
    }
  }

  /** A return names a line at most once, so lines and returns count the same. */
  lemma {:induction false} LinesAreReturns(rows: seq<SaleReturn>, sale: Uuid, item: nat)
    requires forall r :: 0 <= r < |rows| ==> ReturnSound(rows[r])
    ensures Sum(rows, LinesReturned(sale, item)) == Sum(rows, TimesReturned(sale, item))
  {
    forall r | 0 <= r < |rows| ensures LinesReturned(sale, item)(rows[r]) == TimesReturned(sale, item)(rows[r]) {
      NamedOnce(rows[r].lines, item);
    }
    SumPointwise(rows, rows, LinesReturned(sale, item), TimesReturned(sale, item));
  }

  ghost predicate PricedAt(lines: seq<ReturnLine>, item: nat, price: nat) {
    forall i :: 0 <= i < |lines| && lines[i].item == item ==> lines[i].refund == LineCents(price, lines[i].quantity)
  }

  lemma {:induction false} OneRefundDrift(price: nat, quantity: nat)
    ensures -500 <= QUANTITY_SCALE * LineCents(price, quantity) - price * quantity <= 500
  {
    HalfUpError(price * quantity, QUANTITY_SCALE);
  }

  lemma {:induction false} Distribute(price: int, a: int, b: int)
    ensures price * (a + b) == price * a + price * b
  {
  }

  lemma {:induction false} LineRefundDrift(lines: seq<ReturnLine>, item: nat, price: nat)
    requires PricedAt(lines, item, price)
    ensures var drift := QUANTITY_SCALE * Sum(lines, RefundOf(item)) - price * Sum(lines, UnitsOf(item));
            -500 * Sum(lines, CountOf(item)) <= drift <= 500 * Sum(lines, CountOf(item))
  {
    if |lines| > 0 {
      var front, line := lines[..|lines| - 1], lines[|lines| - 1];
      assert PricedAt(front, item, price) by {
        assert forall i :: 0 <= i < |front| ==> front[i] == lines[i];
      }
      LineRefundDrift(front, item, price);
      if line.item == item {
        OneRefundDrift(price, line.quantity);
        Distribute(price, Sum(front, UnitsOf(item)), line.quantity);
      }
    }
  }

  /** After any number of returns, the refunds of a sale line differ from its price
      times the quantity returned by at most half a cent per return line. */
  lemma {:induction false} RefundDrift(rows: seq<SaleReturn>, sale: Uuid, item: nat, price: nat)
    requires forall i :: 0 <= i < |rows| && rows[i].sale == sale ==> PricedAt(rows[i].lines, item, price)
    ensures var drift :=
              QUANTITY_SCALE * Sum(rows, RefundedFor(sale, item)) - price * Sum(rows, UnitsReturned(sale, item));
            -500 * Sum(rows, LinesReturned(sale, item)) <= drift <= 500 * Sum(rows, LinesReturned(sale, item))
  {
    if |rows| > 0 {
      var front, row := rows[..|rows| - 1], rows[|rows| - 1];
      assert forall i :: 0 <= i < |front| ==> front[i] == rows[i];
      RefundDrift(front, sale, item, price);
      if row.sale == sale {
        LineRefundDrift(row.lines, item, price);
        Distribute(price, Sum(front, UnitsReturned(sale, item)), Sum(row.lines, UnitsOf(item)));
      }
    }
  }

  ghost predicate WholeUnits(lines: seq<ReturnLine>, item: nat) {
    forall i :: 0 <= i < |lines| && lines[i].item == item ==> lines[i].quantity % QUANTITY_SCALE == 0
  }

  lemma {:induction false} WholeLineRefunds(lines: seq<ReturnLine>, item: nat, price: nat)
    requires PricedAt(lines, item, price) && WholeUnits(lines, item)
    ensures QUANTITY_SCALE * Sum(lines, RefundOf(item)) == price * Sum(lines, UnitsOf(item))
  {
    if |lines| > 0 {
      var front, line := lines[..|lines| - 1], lines[|lines| - 1];
      assert PricedAt(front, item, price) && WholeUnits(front, item) by {
        assert forall i :: 0 <= i < |front| ==> front[i] == lines[i];
      }
      WholeLineRefunds(front, item, price);
      if line.item == item {
        var units := line.quantity / QUANTITY_SCALE;
        assert line.quantity == QUANTITY_SCALE * units;
        WholeUnitsAgree(price, units);
        assert QUANTITY_SCALE * (price * units) == price * line.quantity;
        Distribute(price, Sum(front, UnitsOf(item)), line.quantity);
      }
    }
  }

  /** Goods returned by whole units are refunded exactly. */
  lemma {:induction false} WholeUnitRefunds(rows: seq<SaleReturn>, sale: Uuid, item: nat, price: nat)
    requires forall i :: 0 <= i < |rows| && rows[i].sale == sale ==>
               PricedAt(rows[i].lines, item, price) && WholeUnits(rows[i].lines, item)
    ensures QUANTITY_SCALE * Sum(rows, RefundedFor(sale, item)) == price * Sum(rows, UnitsReturned(sale, item))
  {
    if |rows| > 0 {
      var front, row := rows[..|rows| - 1], rows[|rows| - 1];
      assert forall i :: 0 <= i < |front| ==> front[i] == rows[i];
      WholeUnitRefunds(front, sale, item, price);
      if row.sale == sale {
        WholeLineRefunds(row.lines, item, price);
        Distribute(price, Sum(front, UnitsReturned(sale, item)), Sum(row.lines, UnitsOf(item)));
      }
    }
  }
}
