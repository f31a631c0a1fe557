/** The server as a state machine: every service is one step, every history a run. */
module Services {
  import opened Sums
  import opened Rounding
  import opened Tables
  import opened Inventory
  import opened Customers
  import opened CashDesk
  import opened Sales
  import opened Returns
  import opened Expenses
  import opened Sync

  datatype Command =
    | Sell(items: seq<ItemInput>, terms: SaleTerms)
    | Transmit(event: SyncEvent, pusher: Uuid)
    // A request that passed the lookup earlier and reaches its transaction now.
    | CommitLate(event: SyncEvent, pusher: Uuid)
    | Cancel(sale: Uuid, user: User)
    | TakeBack(request: ReturnRequest)
    | Receive(store: Uuid, product: Uuid, quantity: int, unitCost: Option<int>)
    | CountStock(store: Uuid, product: Uuid, counted: int)
    | SetCost(stock: StockKey, unitCost: Option<int>, hasReason: bool)
    | OpenBook(customer: Uuid, amount: int)
    | AdjustBook(customer: Uuid, amount: int, hasReason: bool)
    | ReverseEntry(at: nat, hasReason: bool)
    | Repay(repayment: RepaymentInput)
    | Spend(expense: ExpenseInput)
    | CancelSpending(key: Uuid, user: User, hasReason: bool)
    | OpenSession(id: Uuid, register: Uuid, cashier: Uuid, opening: int)
    | CloseSession(id: Uuid, closingCount: int, now: Instant)
    | Administer(products: map<Uuid, Product>, customers: map<Uuid, Customer>, categories: map<Uuid, Category>,
                 registers: map<Uuid, Register>, access: set<(Uuid, Uuid)>)

  /** A failed service leaves no trace: its transaction is rolled back. */
  function Kept(db: Db, r: Result<Db, ServiceError>): Db {
    if r.Ok? then r.value else db
  }

  function Step(db: Db, c: Command): Db {
    match c
    case Sell(items, terms) => var r := CompleteSpec(db, items, terms, false); if r.Ok? then r.value.0 else db
    case Transmit(event, pusher) => Process(db, event, pusher).0
    case CommitLate(event, pusher) => Commit(db, event, pusher).0
    case Cancel(sale, user) => Kept(db, CancelSaleSpec(db, sale, user))
    case TakeBack(request) => var r := ReturnSpec(db, request); if r.Ok? then r.value.0 else db
    case Receive(store, product, quantity, unitCost) =>
      Kept(db, ReceiveStockSpec(db, store, product, quantity, unitCost))
    case CountStock(store, product, counted) => Kept(db, AdjustStockSpec(db, store, product, counted))
    case SetCost(stock, unitCost, hasReason) => Kept(db, SetStockUnitCostSpec(db, stock, unitCost, hasReason))
    case OpenBook(customer, amount) => Kept(db, OpeningBalanceSpec(db, customer, amount))
    case AdjustBook(customer, amount, hasReason) => Kept(db, AdjustmentSpec(db, customer, amount, hasReason))
    case ReverseEntry(at, hasReason) =>
      var r := ReverseSpec(db.entries, at, hasReason); if r.Ok? then db.(entries := r.value) else db
    case Repay(repayment) => var r := RepaymentSpec(db, repayment); if r.Ok? then r.value.0 else db
    case Spend(expense) => var r := CreateExpenseSpec(db, expense); if r.Ok? then r.value.0 else db
    case CancelSpending(key, user, hasReason) => Kept(db, CancelExpenseSpec(db, key, user, hasReason))
    case OpenSession(id, register, cashier, opening) => Kept(db, OpenSpec(db, id, register, cashier, opening))
    case CloseSession(id, counted, now) => Kept(db, CloseSpec(db, id, counted, now))
    case Administer(products, customers, categories, registers, access) =>
      db.(products := products, customers := customers, categories := categories, registers := registers, access :=
        access)
  }

  function Run(db: Db, cs: seq<Command>): Db {
    if |cs| == 0 then db else Step(Run(db, cs[..|cs| - 1]), cs[|cs| - 1])
  }

  lemma {:induction false} RunPush(db: Db, cs: seq<Command>, c: Command)
    ensures Run(db, cs + [c]) == Step(Run(db, cs), c)
  {
    assert (cs + [c])[..|cs|] == cs;
  }

  const EMPTY := Db(map[], map[], map[], map[], {}, map[], StockBook(map[], [], []), [], [], [], [], [], [])

  // ---------- The shape of each step ----------

  /** `sale` is what `db` would book for these terms. */
  ghost predicate NewSale(db: Db, t: SaleTerms, sale: Sale) {
    && t.session in db.sessions
    && t.credit >= 0 && (t.credit > 0 ==> t.customer.Some?)
    && FindSale(db.sales, t.id) == |db.sales|
    && sale.id == t.id && sale.session == t.session && sale.credit == t.credit && sale.customer == t.customer
      && !sale.cancelled
    && sale.occurredAt == t.at && SessionAccepts(db.sessions[t.session], t.at, true)
    && SaleSound(sale)
    && (forall i :: 0 <= i < |sale.items| ==>
          sale.items[i].unitCost ==
            RowAt(db.book.rows, StockKey(db.sessions[t.session].store, sale.items[i].product)).cost)
  }

  lemma {:induction false} CompleteBooksASale(db: Db, items: seq<ItemInput>, t: SaleTerms, offline: bool)
    requires CompleteSpec(db, items, t, offline).Ok?
    ensures var (after, sale, _) := CompleteSpec(db, items, t, offline).value;
            NewSale(db, t, sale) && after == CommitSale(db, t, db.sessions[t.session].store, sale)
  {
    ExecuteBooksASale(db, t, RequestLines(db, items, t, offline).value, offline);
  }

  lemma {:induction false} ExecuteBooksASale(db: Db, t: SaleTerms, lines: seq<Line>, allowNegative: bool)
    requires t.session in db.sessions && SoundLines(lines) && SessionAccepts(db.sessions[t.session], t.at, true)
    requires ExecuteSaleSpec(db, t, lines, allowNegative).Ok?
    ensures var (after, sale, _) := ExecuteSaleSpec(db, t, lines, allowNegative).value;
            NewSale(db, t, sale) && after == CommitSale(db, t, db.sessions[t.session].store, sale)
  {
    SaleRowSound(db.book.rows, db.sessions[t.session].store, t, lines);
  }

  /** Every step is one of these changes of the tables (reference data aside). */
  datatype Effect =
    | Idle
    | SaleBooked(terms: SaleTerms, sale: Sale, processed: seq<ProcessedEvent>)
    | SaleUndone(at: nat)
    | GoodsReturned(row: SaleReturn)
    | StockMoved(movement: Movement)
    | RowOpened(key: StockKey)
    | CostSet(key: StockKey, unitCost: nat)
    | LedgerNoted(entry: Entry)
    | LedgerReversed(at: nat)
    | DebtRepaid(repayment: Repayment)
    | MoneySpent(expense: Expense)
    | SpendingUndone(at: nat)
    | SessionBegun(id: Uuid, session: Session)
    | SessionEnded(id: Uuid, status: SessionStatus)

  /** The lines of a return are lines of its sale, at its prices. */
  ghost predicate PricedFrom(sale: Sale, lines: seq<ReturnLine>) {
    forall i :: 0 <= i < |lines| ==>
      lines[i].item < |sale.items|
        && lines[i].refund == LineCents(sale.items[lines[i].item].unitPrice, lines[i].quantity)
  }

  ghost predicate NewReturn(db: Db, row: SaleReturn) {
    && row.session in db.sessions && db.sessions[row.session].status.Open?
    && FindReturn(db.saleReturns, row.key) == |db.saleReturns|
    && ReturnSound(row)
    && var at := FindSale(db.sales, row.sale);
    && at < |db.sales|
    && var sale := db.sales[at];
    && !sale.cancelled && sale.session in db.sessions
      && db.sessions[sale.session].store == db.sessions[row.session].store
    && PricedFrom(sale, row.lines)
    && row.creditReduction <= ReducibleCredit(db.entries, sale)
    && (row.refundedBy == Some(Cash) ==> row.total - row.creditReduction <= ExpectedCash(db, row.session))
    && FitsQuantities(db, sale, row)
  }

  /** A line never fully over-returned before is not over-returned by this return. */
  ghost predicate FitsQuantities(db: Db, sale: Sale, row: SaleReturn) {
    forall item: nat ::
      item < |sale.items| && AlreadyReturned(db.saleReturns, sale.id, item) <= sale.items[item].quantity ==>
      AlreadyReturned(db.saleReturns + [row], sale.id, item) <= sale.items[item].quantity
  }

  ghost predicate Undoable(db: Db, at: nat) {
    && at < |db.sales|
    && at == FindSale(db.sales, db.sales[at].id)
    && db.sales[at].session in db.sessions && !db.sales[at].cancelled && !HasReturns(db.saleReturns, db.sales[at].id)
    && CancelledEntries(db.entries, db.sales[at]).Ok?
  }

  ghost predicate NewRepayment(db: Db, p: Repayment) {
    && p.session in db.sessions && db.sessions[p.session].status.Open?
    && FindRepayment(db.repayments, p.key) == |db.repayments|
    && SnapshotSound(p) && p.balanceBefore == Balance(db.entries, p.customer)
  }

  ghost predicate NewExpense(db: Db, e: Expense) {
    && e.session in db.sessions && db.sessions[e.session].status.Open?
    && FindExpense(db.expenses, e.key) == |db.expenses|
    && e.amount > 0 && !e.cancelled && (e.paidBy.Cash? ==> e.amount <= ExpectedCash(db, e.session))
  }

  ghost predicate ProcessedWith(db: Db, t: SaleTerms, processed: seq<ProcessedEvent>) {
    |processed| > 0 ==>
      |processed| == 1 && processed[0].entity == t.id && FindEvent(db.events, processed[0].event) == |db.events|
  }

  predicate HasOpening(entries: seq<Entry>, customer: Uuid) {
    exists i :: 0 <= i < |entries| && entries[i].customer == customer && entries[i].kind.OpeningBalance?
  }

  /** What must hold for an effect to happen. */
  ghost predicate Legit(db: Db, effect: Effect) {
    match effect
    case Idle => true
    case SaleBooked(t, sale, processed) => NewSale(db, t, sale) && ProcessedWith(db, t, processed)
    case SaleUndone(at) => Undoable(db, at)
    case GoodsReturned(row) => NewReturn(db, row)
    case StockMoved(m) => WellFormed(m) && (m.kind.StockIn? || m.kind.Adjustment?)
    case RowOpened(key) => true
    case CostSet(key, cost) => true
    case LedgerNoted(e) =>
      && (e.kind.Adjusted? || (e.kind.OpeningBalance? && e.amount > 0 && !HasOpening(db.entries, e.customer)))
      && Balance(db.entries, e.customer) + e.amount >= 0
    case LedgerReversed(at) => ReverseSpec(db.entries, at, true).Ok?
    case DebtRepaid(p) => NewRepayment(db, p)
    case MoneySpent(e) => NewExpense(db, e)
    case SpendingUndone(at) =>
      && at < |db.expenses| && !db.expenses[at].cancelled
      && db.expenses[at].session in db.sessions && db.sessions[db.expenses[at].session].status.Open?
    case SessionBegun(id, session) =>
      id !in db.sessions && session.status.Open? && !RegisterBusy(db.sessions, session.register)
    case SessionEnded(id, status) =>
      && id in db.sessions && db.sessions[id].status.Open? && status.Closed?
      && status.expected == ExpectedCash(db, id) && status.difference == status.counted - status.expected
  }

  // What each table becomes.

  ghost function SalesAfter(db: Db, effect: Effect): seq<Sale>
    requires Legit(db, effect)
  {
    match effect
    case SaleBooked(t, sale, processed) => db.sales + [sale]
    case SaleUndone(at) => db.sales[at := db.sales[at].(cancelled := true)]
    case _ => db.sales
  }

  ghost function ReturnsAfter(db: Db, effect: Effect): seq<SaleReturn> {
    if effect.GoodsReturned? then db.saleReturns + [effect.row] else db.saleReturns
  }

  ghost function EntriesAfter(db: Db, effect: Effect): seq<Entry>
    requires Legit(db, effect)
  {
    match effect
    case SaleBooked(t, sale, processed) => db.entries + CreditEntries(t)
    case SaleUndone(at) => CancelledEntries(db.entries, db.sales[at]).value
    case GoodsReturned(row) => db.entries + ReturnEntries(db.sales[FindSale(db.sales, row.sale)], row)
    case LedgerNoted(e) => db.entries + [e]
    case LedgerReversed(at) => ReverseSpec(db.entries, at, true).value
    case DebtRepaid(p) => db.entries + [Entry(p.customer, Repaid(p.key), -p.amount)]
    case _ => db.entries
  }

  /** The movements an effect posts, in order. */
  ghost function Posted(db: Db, effect: Effect): (ms: seq<Movement>)
    requires Legit(db, effect)
    ensures forall m :: m in ms ==> WellFormed(m)
  {
    match effect
    case SaleBooked(t, sale, processed) => SaleMoves(db.sessions[t.session].store, sale.items, t.id)
    case SaleUndone(at) => CancelMoves(db.sessions[db.sales[at].session].store, db.sales[at].items, db.sales[at].id)
    case GoodsReturned(row) =>
      ReturnMoves(db.sessions[row.session].store, db.sales[FindSale(db.sales, row.sale)], row.lines, row.key)
    case StockMoved(m) => [m]
    case _ => []
  }

  ghost function BookAfter(db: Db, effect: Effect): StockBook
    requires Legit(db, effect)
  {
    match effect
    case RowOpened(key) => db.book.(rows := db.book.rows[key := RowAt(db.book.rows, key)])
    case CostSet(key, cost) =>
      var row := RowAt(db.book.rows, key);
      db.book.(rows := db.book.rows[key := row.(cost := Some(cost))],
               changes := db.book.changes + [CostChange(key, row.cost, cost, row.quantity)])
    case _ => PostAll(db.book, Posted(db, effect))
  }

  ghost function RepaymentsAfter(db: Db, effect: Effect): seq<Repayment> {
    if effect.DebtRepaid? then db.repayments + [effect.repayment] else db.repayments
  }

  ghost function ExpensesAfter(db: Db, effect: Effect): seq<Expense>
    requires Legit(db, effect)
  {
    match effect
    case MoneySpent(e) => db.expenses + [e]
    case SpendingUndone(at) => db.expenses[at := db.expenses[at].(cancelled := true)]
    case _ => db.expenses
  }

  ghost function EventsAfter(db: Db, effect: Effect): seq<ProcessedEvent> {
    if effect.SaleBooked? then db.events + effect.processed else db.events
  }

  ghost function SessionsAfter(db: Db, effect: Effect): map<Uuid, Session>
    requires Legit(db, effect)
  {
    match effect
    case SessionBegun(id, session) => db.sessions[id := session]
    case SessionEnded(id, status) => db.sessions[id := db.sessions[id].(status := status)]
    case _ => db.sessions
  }

  ghost predicate Applies(db: Db, effect: Effect, after: Db) {
    && Legit(db, effect)
    && after.sales == SalesAfter(db, effect)
    && after.saleReturns == ReturnsAfter(db, effect)
    && after.entries == EntriesAfter(db, effect)
    && after.book == BookAfter(db, effect)
    && after.repayments == RepaymentsAfter(db, effect)
    && after.expenses == ExpensesAfter(db, effect)
    && after.events == EventsAfter(db, effect)
    && after.sessions == SessionsAfter(db, effect)
  }

  /** Sales are booked by selling or replaying, and undone by cancelling, with the right to. */
  ghost predicate CausedBy(db: Db, c: Command, effect: Effect)
    requires Legit(db, effect)
  {
    match effect
    case SaleBooked(t, sale, processed) =>
      || (c.Sell? && t == c.terms && db.sessions[t.session].status.Open?)
      || ((c.Transmit? || c.CommitLate?) && t == TermsOf(c.event))
    case SaleUndone(at) =>
      c.Cancel? && at == FindSale(db.sales, c.sale) && MayCancel(db.sessions[db.sales[at].session], c.user)
    case _ => true
  }

  lemma {:induction false} CompleteApplies(db: Db, items: seq<ItemInput>, t: SaleTerms, offline: bool)
    requires CompleteSpec(db, items, t, offline).Ok?
    ensures Applies(db, SaleBooked(t, CompleteSpec(db, items, t, offline).value.1, []),
              CompleteSpec(db, items, t, offline).value.0)
  {
    CompleteBooksASale(db, items, t, offline);
    assert db.events + [] == db.events;
  }

  lemma {:induction false} CommitApplies(db: Db, e: SyncEvent, user: Uuid) returns (effect: Effect)
    ensures Applies(db, effect, Commit(db, e, user).0)
    ensures effect.Idle? || (effect.SaleBooked? && effect.terms == TermsOf(e))
  {
    effect := Idle;
    if CompleteSpec(db, e.items, TermsOf(e), true).Ok? && FindEvent(db.events, e.event) == |db.events| {
      var (after, sale, discrepancy) := CompleteSpec(db, e.items, TermsOf(e), true).value;
      CompleteBooksASale(db, e.items, TermsOf(e), true);
      effect := SaleBooked(TermsOf(e), sale, [ProcessedEvent(e.event, e.entity, user, discrepancy)]);
    }
  }

  lemma {:induction false} ReturnApplies(db: Db, q: ReturnRequest) returns (effect: Effect)
    requires ReturnSpec(db, q).Ok?
    ensures effect.Idle? || effect.GoodsReturned?
    ensures Applies(db, effect, ReturnSpec(db, q).value.0)
  {
    effect := Idle;
    if FindReturn(db.saleReturns, q.key) == |db.saleReturns| {
      NewReturnSound(db, q);
      effect := GoodsReturned(ReturnSpec(db, q).value.1);
    }
  }

  lemma {:induction false} RepaymentApplies(db: Db, p: RepaymentInput) returns (effect: Effect)
    requires RepaymentSpec(db, p).Ok?
    ensures Applies(db, effect, RepaymentSpec(db, p).value.0)
    ensures effect.Idle? || effect.DebtRepaid?
  {
    effect := Idle;
    if FindRepayment(db.repayments, p.key) == |db.repayments| {
      RepaymentSnapshot(db, p);
      effect := DebtRepaid(RepaymentSpec(db, p).value.1);
    }
  }

  lemma {:induction false} PostOne(book: StockBook, m: Movement)
    requires WellFormed(m)
    ensures PostAll(book, [m]) == Post(book, m)
  {
    assert [m][..0] == [];
  }

  lemma {:induction false} StockStepApplies(db: Db, c: Command) returns (effect: Effect)
    requires c.Receive? || c.CountStock? || c.SetCost?
    ensures Applies(db, effect, Step(db, c))
    ensures !effect.SaleBooked? && !effect.SaleUndone?
  {
    effect := Idle;
    match c
    case Receive(store, product, quantity, unitCost) =>
      if ReceiveStockSpec(db, store, product, quantity, unitCost).Ok? {
        var cost: Option<nat> := if unitCost.Some? then Some(unitCost.value) else None;
        effect := StockMoved(Movement(StockKey(store, product), StockIn, quantity,
          LotCost(db.products[product], cost), None));
        PostOne(db.book, effect.movement);
      }
    case CountStock(store, product, counted) =>
      if AdjustStockSpec(db, store, product, counted).Ok? {
        var key := StockKey(store, product);
        var row := RowAt(db.book.rows, key);
        effect := if counted == row.quantity then RowOpened(key)
                  else StockMoved(Movement(key, Adjustment, counted - row.quantity, row.cost, None));
        if counted != row.quantity { PostOne(db.book, effect.movement); }
      }
    case SetCost(stock, unitCost, hasReason) =>
      if SetStockUnitCostSpec(db, stock, unitCost, hasReason).Ok? && db.book.rows[stock].cost != Some(unitCost.value) {
        effect := CostSet(stock, unitCost.value);
      }
  }

  lemma {:induction false} LedgerStepApplies(db: Db, c: Command) returns (effect: Effect)
    requires c.OpenBook? || c.AdjustBook? || c.ReverseEntry?
    requires LedgerInv(db.entries)
    ensures Applies(db, effect, Step(db, c))
    ensures !effect.SaleBooked? && !effect.SaleUndone?
  {
    effect := Idle;
    match c
    case OpenBook(customer, amount) =>
      if OpeningBalanceSpec(db, customer, amount).Ok? {
        assert Balance(db.entries, customer) >= 0;
        effect := LedgerNoted(Entry(customer, OpeningBalance, amount));
      }
    case AdjustBook(customer, amount, hasReason) =>
      if AdjustmentSpec(db, customer, amount, hasReason).Ok? {
        effect := LedgerNoted(Entry(customer, Adjusted, amount));
      }
    case ReverseEntry(at, hasReason) =>
      if ReverseSpec(db.entries, at, hasReason).Ok? { effect := LedgerReversed(at); }
  }

  lemma {:induction false} ExpenseStepApplies(db: Db, c: Command) returns (effect: Effect)
    requires c.Spend? || c.CancelSpending?
    ensures Applies(db, effect, Step(db, c))
    ensures !effect.SaleBooked? && !effect.SaleUndone?
  {
    effect := Idle;
    match c
    case Spend(expense) =>
      if CreateExpenseSpec(db, expense).Ok? && FindExpense(db.expenses, expense.key) == |db.expenses| {
        effect := MoneySpent(CreateExpenseSpec(db, expense).value.1);
      }
    case CancelSpending(key, user, hasReason) =>
      if CancelExpenseSpec(db, key, user, hasReason).Ok? { effect := SpendingUndone(FindExpense(db.expenses, key)); }
  }

  lemma {:induction false} SessionStepApplies(db: Db, c: Command) returns (effect: Effect)
    requires c.OpenSession? || c.CloseSession?
    ensures Applies(db, effect, Step(db, c))
    ensures !effect.SaleBooked? && !effect.SaleUndone?
  {
    effect := Idle;
    match c
    case OpenSession(id, register, cashier, opening) =>
      if OpenSpec(db, id, register, cashier, opening).Ok? {
        effect := SessionBegun(id, OpenSpec(db, id, register, cashier, opening).value.sessions[id]);
      }
    case CloseSession(id, counted, now) =>
      if CloseSpec(db, id, counted, now).Ok? {
        effect := SessionEnded(id, CloseSpec(db, id, counted, now).value.sessions[id].status);
      }
  }

  lemma {:induction false} SaleStepApplies(db: Db, c: Command) returns (effect: Effect)
    requires c.Sell? || c.Transmit? || c.CommitLate? || c.Cancel? || c.TakeBack?
    ensures Applies(db, effect, Step(db, c))
    ensures CausedBy(db, c, effect)
  {
    effect := Idle;
    match c
    case Sell(items, terms) =>
      if CompleteSpec(db, items, terms, false).Ok? {
        CompleteApplies(db, items, terms, false);
        effect := SaleBooked(terms, CompleteSpec(db, items, terms, false).value.1, []);
      }
    case Transmit(event, pusher) =>
      if Lookup(db, event, pusher).None? { effect := CommitApplies(db, event, pusher); }
    case CommitLate(event, pusher) => effect := CommitApplies(db, event, pusher);
    case Cancel(sale, user) =>
      if CancelSaleSpec(db, sale, user).Ok? { effect := SaleUndone(FindSale(db.sales, sale)); }
    case TakeBack(request) =>
      if ReturnSpec(db, request).Ok? { effect := ReturnApplies(db, request); }
  }

  /** The services do nothing but these effects. */
  lemma {:induction false} StepApplies(db: Db, c: Command) returns (effect: Effect)
    requires LedgerInv(db.entries)
    ensures Applies(db, effect, Step(db, c))
    ensures CausedBy(db, c, effect)
  {
    effect := Idle;
    if c.Receive? || c.CountStock? || c.SetCost? {
      effect := StockStepApplies(db, c);
    } else if c.OpenBook? || c.AdjustBook? || c.ReverseEntry? {
      effect := LedgerStepApplies(db, c);
    } else if c.Spend? || c.CancelSpending? {
      effect := ExpenseStepApplies(db, c);
    } else if c.OpenSession? || c.CloseSession? {
      effect := SessionStepApplies(db, c);
    } else if c.Repay? {
      if RepaymentSpec(db, c.repayment).Ok? { effect := RepaymentApplies(db, c.repayment); }
    } else if !c.Administer? {
      effect := SaleStepApplies(db, c);
    }
  }

  // ---------- Reference data ----------

  predicate SameReference(db: Db, after: Db) {
    && after.products == db.products && after.customers == db.customers && after.categories == db.categories
    && after.registers == db.registers && after.access == db.access
  }

  /** Nothing changes but the last purchase price of products. */
  ghost predicate SameButPrices(db: Db, after: Db) {
    && SameReference(db, after.(products := db.products)) && after.products.Keys == db.products.Keys
    && forall p :: p in db.products ==>
         after.products[p] == db.products[p].(purchasePrice := after.products[p].purchasePrice)
  }

  lemma {:induction false} ReceiptReference(db: Db, c: Command)
    requires c.Receive?
    ensures SameButPrices(db, Step(db, c))
  {
  }

  lemma {:induction false} StockReference(db: Db, c: Command)
    requires c.CountStock? || c.SetCost?
    ensures SameReference(db, Step(db, c))
  {
  }

  lemma {:induction false} LedgerReference(db: Db, c: Command)
    requires c.OpenBook? || c.AdjustBook? || c.ReverseEntry?
    ensures SameReference(db, Step(db, c))
  {
  }

  lemma {:induction false} SessionReference(db: Db, c: Command)
    requires c.OpenSession? || c.CloseSession?
    ensures SameReference(db, Step(db, c))
  {
  }

  lemma {:induction false} MoneyReference(db: Db, c: Command)
    requires c.Repay? || c.Spend? || c.CancelSpending?
    ensures SameReference(db, Step(db, c))
  {
  }

  lemma {:induction false} ExecuteReference(db: Db, t: SaleTerms, lines: seq<Line>, allowNegative: bool)
    requires t.session in db.sessions && ExecuteSaleSpec(db, t, lines, allowNegative).Ok?
    ensures SameReference(db, ExecuteSaleSpec(db, t, lines, allowNegative).value.0)
  {
  }

  lemma {:induction false} CompleteReference(db: Db, items: seq<ItemInput>, t: SaleTerms, offline: bool)
    requires CompleteSpec(db, items, t, offline).Ok?
    ensures SameReference(db, CompleteSpec(db, items, t, offline).value.0)
  {
    ExecuteReference(db, t, RequestLines(db, items, t, offline).value, offline);
  }

  lemma {:induction false} CommitReference(db: Db, e: SyncEvent, user: Uuid)
    ensures SameReference(db, Commit(db, e, user).0)
  {
    if CompleteSpec(db, e.items, TermsOf(e), true).Ok? { CompleteReference(db, e.items, TermsOf(e), true); }
  }

  lemma {:induction false} SaleReference(db: Db, c: Command)
    requires c.Sell? || c.Transmit? || c.CommitLate?
    ensures SameReference(db, Step(db, c))
  {
    match c
    case Sell(items, terms) =>
      if CompleteSpec(db, items, terms, false).Ok? { CompleteReference(db, items, terms, false); }
    case Transmit(event, pusher) => CommitReference(db, event, pusher);
    case CommitLate(event, pusher) => CommitReference(db, event, pusher);
  }

  lemma {:induction false} UndoingReference(db: Db, c: Command)
    requires c.Cancel? || c.TakeBack?
    ensures SameReference(db, Step(db, c))
  {
  }

  /** Only administration changes reference data, save that a receipt of stock may change
      the last purchase price of a product. */
  lemma {:induction false} ReferenceStays(db: Db, c: Command)
    requires !c.Administer?
    ensures if c.Receive? then SameButPrices(db, Step(db, c)) else SameReference(db, Step(db, c))
  {
    if c.Sell? || c.Transmit? || c.CommitLate? {
      SaleReference(db, c);
    } else if c.Cancel? || c.TakeBack? {
      UndoingReference(db, c);
    } else if c.Repay? || c.Spend? || c.CancelSpending? {
      MoneyReference(db, c);
    } else if c.OpenSession? || c.CloseSession? {
      SessionReference(db, c);
    } else if c.OpenBook? || c.AdjustBook? || c.ReverseEntry? {
      LedgerReference(db, c);
    } else if c.Receive? {
      ReceiptReference(db, c);
    } else {
      StockReference(db, c);
    }
  }
}
