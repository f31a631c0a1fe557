/** The server's tables: one datatype per row, one value for the whole database.

    Tables that only grow, or whose rows are found by a unique column, are kept as
    sequences in insertion order, so "at most one row per key" stays a theorem. */
module Tables {
  import opened Sums

  type Uuid = nat
  type Instant = nat

  /** A sold or returned quantity, in thousandths: the tables refuse zero and less. */
  type Units = n: int | n > 0 witness 1

  datatype PaymentMethod = Cash | Wave | OrangeMoney

  datatype ServiceError =
    | NotFound | IntegrityError
    | InvalidSaleItems | InvalidPayment | ProductNotFound | ProductInactive | CustomerNotFound | InsufficientStock
    | InvalidCancellation | InvalidReturn | InsufficientCashForRefund
    | CashSessionClosed | CashSessionAlreadyClosed | CashSessionAlreadyOpen | InvalidCashAmount
    | CashRegisterUnavailable | CashRegisterNotAllowed
    | InvalidLedgerEntry | NegativeCustomerBalance | InvalidCustomerPayment | CustomerOverpayment
    | InvalidStockQuantity | InvalidStockCost
    | InvalidExpense | InsufficientCash | ExpenseSessionNotOwned
    | ExpenseAlreadyCancelled | ExpenseCancellationNotAllowed | ExpenseNotCancellable

  datatype User = User(id: Uuid, staff: bool)

  // ---------- Reference data ----------

  datatype SaleUnit = Unit | Kg

  /** Prices in cents. */
  datatype Product = Product(name: string, sellingPrice: nat, purchasePrice: Option<nat>, saleUnit: SaleUnit,
      active: bool)

  datatype Customer = Customer(store: Uuid, active: bool)

  datatype Category = Category(active: bool, requiresDescription: bool)

  datatype Register = Register(store: Uuid, active: bool, storeActive: bool)

  // ---------- Cash sessions ----------

  datatype SessionStatus =
    | Open
    | Closed(counted: nat, expected: nat, difference: int, closedAt: Instant)

  datatype Session = Session(register: Uuid, store: Uuid, cashier: Uuid, opening: nat, status: SessionStatus)

  // ---------- Stock ----------

  datatype StockKey = StockKey(store: Uuid, product: Uuid)

  /** Quantity in thousandths, average cost in ten-thousandths (None: unknown). */
  datatype StockRow = StockRow(quantity: int, cost: Option<nat>)

  datatype MovementKind = StockIn | SaleOut | Adjustment | ReturnIn | Cancellation

  datatype Movement = Movement(key: StockKey, kind: MovementKind, quantity: int, unitCost: Option<nat>,
      reference: Option<Uuid>)

  datatype CostChange = CostChange(key: StockKey, previous: Option<nat>, cost: nat, quantityAtChange: int)

  datatype StockBook = StockBook(rows: map<StockKey, StockRow>, movements: seq<Movement>, changes: seq<CostChange>)

  // ---------- Sales and returns ----------

  datatype SaleItem = SaleItem(
    product: Uuid, name: string, catalogPrice: nat, unitPrice: nat,
    quantity: Units, lineTotal: nat, unitCost: Option<nat>)

  datatype Payment = Payment(paidBy: PaymentMethod, amount: int, received: Option<int>, change: Option<int>)

  datatype Sale = Sale(
    id: Uuid, session: Uuid, items: seq<SaleItem>, payments: seq<Payment>,
    total: int, customer: Option<Uuid>, credit: nat, cancelled: bool, occurredAt: Instant)

  datatype ReturnLine = ReturnLine(item: nat, quantity: Units, refund: nat, restock: bool)

  /** The idempotency key stands for the row's identity. */
  datatype SaleReturn = SaleReturn(
    key: Uuid, sale: Uuid, session: Uuid, author: Uuid, lines: seq<ReturnLine>,
    total: int, creditReduction: int, refundedBy: Option<PaymentMethod>, createdAt: Instant)

  // ---------- Customer book ----------

  /** An entry is identified by its position in the append-only ledger. */
  datatype EntryKind =
    | CreditSale(sale: Uuid)
    | Repaid(repayment: Uuid)
    | ReturnCredit(ofSale: Uuid, saleReturn: Uuid)
    | Adjusted
    | OpeningBalance
    | Reversal(reversalOf: nat)

  datatype Entry = Entry(customer: Uuid, kind: EntryKind, amount: int)

  datatype Repayment = Repayment(
    key: Uuid, customer: Uuid, session: Uuid, author: Uuid, paidBy: PaymentMethod,
    amount: int, received: Option<int>, change: Option<int>, balanceBefore: int, balanceAfter: int)

  // ---------- Expenses and processed events ----------

  datatype Expense = Expense(
    key: Uuid, session: Uuid, author: Uuid, category: Uuid, amount: int, paidBy: PaymentMethod, cancelled: bool)

  datatype ProcessedEvent = ProcessedEvent(event: Uuid, entity: Uuid, pushedBy: Uuid, discrepancy: bool)

  // ---------- The database ----------

  datatype Db = Db(
    products: map<Uuid, Product>,
    customers: map<Uuid, Customer>,
    categories: map<Uuid, Category>,
    registers: map<Uuid, Register>,
    access: set<(Uuid, Uuid)>,
    sessions: map<Uuid, Session>,
    book: StockBook,
    sales: seq<Sale>,
    saleReturns: seq<SaleReturn>,
    entries: seq<Entry>,
    repayments: seq<Repayment>,
    expenses: seq<Expense>,
    events: seq<ProcessedEvent>)

  /** The database the services work on, one field per table. */
  class Database {
    var products: map<Uuid, Product>
    var customers: map<Uuid, Customer>
    var categories: map<Uuid, Category>
    var registers: map<Uuid, Register>
    var access: set<(Uuid, Uuid)>
    var sessions: map<Uuid, Session>
    var stocks: map<StockKey, StockRow>
    var movements: seq<Movement>
    var costChanges: seq<CostChange>
    var sales: seq<Sale>
    var saleReturns: seq<SaleReturn>
    var entries: seq<Entry>
    var repayments: seq<Repayment>
    var expenses: seq<Expense>
    var events: seq<ProcessedEvent>

    ghost function Rows(): Db
      reads this
    {
      Db(products, customers, categories, registers, access, sessions,
         StockBook(stocks, movements, costChanges),
         sales, saleReturns, entries, repayments, expenses, events)
    }
  }

  const NO_STOCK := StockRow(0, None)

  /** The stock row of a key; a missing row counts as empty stock of unknown cost. */
  function RowAt(rows: map<StockKey, StockRow>, key: StockKey): StockRow {
    if key in rows then rows[key] else NO_STOCK
  }

  // Every finder gives the position of the first matching row, or the table's length.

  function FindSale(rows: seq<Sale>, id: Uuid): (at: nat)
    ensures at <= |rows|
    ensures at < |rows| ==> rows[at].id == id
    ensures forall i :: 0 <= i < at ==> rows[i].id != id
  {
    FirstWhere(rows, (row: Sale) => row.id == id)
  }

  function FindReturn(rows: seq<SaleReturn>, key: Uuid): (at: nat)
    ensures at <= |rows|
    ensures at < |rows| ==> rows[at].key == key
    ensures forall i :: 0 <= i < at ==> rows[i].key != key
  {
    FirstWhere(rows, (row: SaleReturn) => row.key == key)
  }

  function FindRepayment(rows: seq<Repayment>, key: Uuid): (at: nat)
    ensures at <= |rows|
    ensures at < |rows| ==> rows[at].key == key
    ensures forall i :: 0 <= i < at ==> rows[i].key != key
  {
    FirstWhere(rows, (row: Repayment) => row.key == key)
  }

  function FindExpense(rows: seq<Expense>, key: Uuid): (at: nat)
    ensures at <= |rows|
    ensures at < |rows| ==> rows[at].key == key
    ensures forall i :: 0 <= i < at ==> rows[i].key != key
  {
    FirstWhere(rows, (row: Expense) => row.key == key)
  }

  function FindEvent(rows: seq<ProcessedEvent>, event: Uuid): (at: nat)
    ensures at <= |rows|
    ensures at < |rows| ==> rows[at].event == event
    ensures forall i :: 0 <= i < at ==> rows[i].event != event
  {
    FirstWhere(rows, (row: ProcessedEvent) => row.event == event)
  }
}
