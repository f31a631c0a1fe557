/** Expenses paid from a cash session. */
module Expenses {
  import opened Sums
  import opened Tables
  import opened CashDesk

  datatype ExpenseInput = ExpenseInput(
    key: Uuid, session: Uuid, author: Uuid, category: Uuid, amount: int, paidBy: PaymentMethod, described: bool)

  predicate SameExpense(existing: Expense, x: ExpenseInput) {
    && existing.session == x.session && existing.author == x.author && existing.category == x.category
    && existing.amount == x.amount && existing.paidBy == x.paidBy
  }

  function CreateExpenseSpec(db: Db, x: ExpenseInput): Result<(Db, Expense), ServiceError> {
    if x.amount <= 0 then Err(InvalidExpense)
    else
      var found := FindExpense(db.expenses, x.key);
      if found < |db.expenses| then
        if SameExpense(db.expenses[found], x) then Ok((db, db.expenses[found])) else Err(InvalidExpense)
      else if x.session !in db.sessions then Err(NotFound)
      else if !db.sessions[x.session].status.Open? then Err(CashSessionClosed)
      else if db.sessions[x.session].cashier != x.author then Err(ExpenseSessionNotOwned)
      else if x.category !in db.categories || !db.categories[x.category].active then Err(InvalidExpense)
      else if db.categories[x.category].requiresDescription && !x.described then Err(InvalidExpense)
      else if x.paidBy.Cash? && x.amount > ExpectedCash(db, x.session) then Err(InsufficientCash)
      else
        var row := Expense(x.key, x.session, x.author, x.category, x.amount, x.paidBy, false);
        Ok((db.(expenses := db.expenses + [row]), row))
  }

  method CreateExpense(db: Database, x: ExpenseInput) returns (r: Result<Expense, ServiceError>)
    modifies db
    ensures r.Ok? <==> CreateExpenseSpec(old(db.Rows()), x).Ok?
    ensures r.Ok? ==> (db.Rows(), r.value) == CreateExpenseSpec(old(db.Rows()), x).value
    ensures r.Err? ==> db.Rows() == old(db.Rows()) && CreateExpenseSpec(db.Rows(), x) == Err(r.error)
  {
    if x.amount <= 0 { return Err(InvalidExpense); }
    var found := FindExpense(db.expenses, x.key);
    if found < |db.expenses| {
      if !SameExpense(db.expenses[found], x) { return Err(InvalidExpense); }
      return Ok(db.expenses[found]);
    }
    if x.session !in db.sessions { return Err(NotFound); }
    var session := db.sessions[x.session];
    if !session.status.Open? { return Err(CashSessionClosed); }
    if session.cashier != x.author { return Err(ExpenseSessionNotOwned); }
    if x.category !in db.categories || !db.categories[x.category].active { return Err(InvalidExpense); }
    if db.categories[x.category].requiresDescription && !x.described { return Err(InvalidExpense); }
    if x.paidBy.Cash? {
      var available := DrawerNow(db, x.session);
      if x.amount > available { return Err(InsufficientCash); }
    }
    var row := Expense(x.key, x.session, x.author, x.category, x.amount, x.paidBy, false);
    db.expenses := db.expenses + [row];
    return Ok(row);
  }

  function CancelExpenseSpec(db: Db, key: Uuid, user: User, hasReason: bool): Result<Db, ServiceError> {
    if !hasReason then Err(InvalidExpense)
    else
      var at := FindExpense(db.expenses, key);
      if at == |db.expenses| then Err(NotFound)
      else
        var e := db.expenses[at];
        if e.session !in db.sessions then Err(NotFound)
        else if e.cancelled then Err(ExpenseAlreadyCancelled)
        else if !user.staff && e.author != user.id then Err(ExpenseCancellationNotAllowed)
        else if !db.sessions[e.session].status.Open? then Err(ExpenseNotCancellable)
        else Ok(db.(expenses := db.expenses[at := e.(cancelled := true)]))
  }

  method CancelExpense(db: Database, key: Uuid, user: User, hasReason: bool) returns (r: Result<Expense, ServiceError>)
    modifies db
    ensures r.Ok? <==> CancelExpenseSpec(old(db.Rows()), key, user, hasReason).Ok?
    ensures r.Ok? ==> db.Rows() == CancelExpenseSpec(old(db.Rows()), key, user, hasReason).value
    ensures r.Err? ==> db.Rows() == old(db.Rows()) && CancelExpenseSpec(db.Rows(), key, user, hasReason) == Err(r.error)
  {
    if !hasReason { return Err(InvalidExpense); }
    var at := FindExpense(db.expenses, key);
    if at == |db.expenses| { return Err(NotFound); }
    var locked := db.expenses[at];
    if locked.session !in db.sessions { return Err(NotFound); }
    if locked.cancelled { return Err(ExpenseAlreadyCancelled); }
    if !user.staff && locked.author != user.id { return Err(ExpenseCancellationNotAllowed); }
    if !db.sessions[locked.session].status.Open? { return Err(ExpenseNotCancellable); }
    locked := locked.(cancelled := true);
    db.expenses := db.expenses[at := locked];
    return Ok(locked);
  }
}
