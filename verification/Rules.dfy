/** When the services of the desk accept a request, read off the tables, and what they do to
    balances and drawers. */
module Rules {
  import opened Sums
  import opened Tables
  import opened Customers
  import opened CashDesk
  import opened Returns
  import opened Expenses

  // ---------- Cash sessions ----------

  predicate Vacant(db: Db, register: Uuid) {
    forall s :: s in db.sessions && db.sessions[s].register == register ==> db.sessions[s].status != Open
  }

  lemma {:induction false} OpensIff(db: Db, id: Uuid, register: Uuid, cashier: Uuid, opening: int)
    ensures OpenSpec(db, id, register, cashier, opening).Ok? <==>
              && opening >= 0 && id !in db.sessions && Vacant(db, register)
              && register in db.registers && db.registers[register].active && db.registers[register].storeActive
              && (cashier, db.registers[register].store) in db.access
  {
  }

  /** A closing records what was counted against what was expected; nothing else of the
      session, and no other session, changes. */
  lemma {:induction false} ClosesIff(db: Db, id: Uuid, counted: int, now: Instant)
    ensures CloseSpec(db, id, counted, now).Ok? <==>
              counted >= 0 && id in db.sessions && db.sessions[id].status == Open && ExpectedCash(db, id) >= 0
    ensures CloseSpec(db, id, counted, now).Ok? ==>
              var before, after := db.sessions, CloseSpec(db, id, counted, now).value.sessions;
              && after.Keys == before.Keys && after[id] == before[id].(status := after[id].status)
              && after[id].status.Closed? && after[id].status.counted == counted && after[id].status.closedAt == now
              && after[id].status.expected == ExpectedCash(db, id)
              && after[id].status.counted == after[id].status.expected + after[id].status.difference
              && forall s :: s in before && s != id ==> after[s] == before[s]
  {
  }

  // ---------- The customer book ----------

  predicate NoOpeningYet(entries: seq<Entry>, customer: Uuid) {
    forall i :: 0 <= i < |entries| && entries[i].customer == customer ==> entries[i].kind != OpeningBalance
  }

  function Moved(entries: seq<Entry>, c: Uuid, customer: Uuid, amount: int): int {
    Balance(entries, c) + if c == customer then amount else 0
  }

  /** A customer gets one opening balance, which he then owes. */
  lemma {:induction false} OpeningBalanceIff(db: Db, customer: Uuid, amount: int)
    ensures OpeningBalanceSpec(db, customer, amount).Ok? <==>
              amount > 0 && customer in db.customers && NoOpeningYet(db.entries, customer)
    ensures OpeningBalanceSpec(db, customer, amount).Ok? ==>
              var after := OpeningBalanceSpec(db, customer, amount).value;
              && (forall c :: Balance(after.entries, c) == Moved(db.entries, c, customer, amount))
              && !NoOpeningYet(after.entries, customer)
  {
    var e := Entry(customer, OpeningBalance, amount);
    forall c { SumPush(db.entries, e, OwedBy(c)); }
    assert (db.entries + [e])[|db.entries|] == e;
  }

  /** An adjustment has an amount and a reason, and never leaves a negative balance. */
  lemma {:induction false} AdjustsIff(db: Db, customer: Uuid, amount: int, hasReason: bool)
    ensures AdjustmentSpec(db, customer, amount, hasReason).Ok? <==>
              amount != 0 && hasReason && customer in db.customers && Balance(db.entries, customer) + amount >= 0
    ensures AdjustmentSpec(db, customer, amount, hasReason).Ok? ==>
              var after := AdjustmentSpec(db, customer, amount, hasReason).value;
              forall c :: Balance(after.entries, c) == Moved(db.entries, c, customer, amount)
  {
    forall c { SumPush(db.entries, Entry(customer, Adjusted, amount), OwedBy(c)); }
  }

  /** An entry that is no reversal and not reversed yet is reversed, with a reason, unless
      its customer would owe less than nothing; then it counts for nothing. */
  lemma {:induction false} ReversesIff(entries: seq<Entry>, at: nat, hasReason: bool)
    ensures ReverseSpec(entries, at, hasReason).Ok? <==>
              && hasReason && at < |entries| && !entries[at].kind.Reversal?
              && (forall k :: 0 <= k < |entries| ==> entries[k].kind != Reversal(at))
              && entries[at].amount <= Balance(entries, entries[at].customer)
    ensures ReverseSpec(entries, at, hasReason).Ok? ==>
              var after := ReverseSpec(entries, at, hasReason).value;
              && entries <= after && IsReversed(after, at)
              && forall c :: Balance(after, c) == Moved(entries, c, entries[at].customer, -entries[at].amount)
  {
    if at < |entries| {
      var e := Entry(entries[at].customer, Reversal(at), -entries[at].amount);
      forall c { SumPush(entries, e, OwedBy(c)); }
      assert (entries + [e])[|entries|] == e;
    }
  }

  // ---------- Repayments ----------

  /** Cash at least as much as is repaid, or nothing in hand for mobile money. */
  predicate Tenderable(p: RepaymentInput) {
    match (p.paidBy, p.received)
    case (Cash, Some(received)) => received >= p.amount
    case (Cash, None) => false
    case (_, received) => received == None
  }

  /** A new repayment is accepted in the open session of its author, from a customer of the
      store, up to what he owes. */
  lemma {:induction false} RepaysIff(db: Db, p: RepaymentInput)
    requires FindRepayment(db.repayments, p.key) == |db.repayments|
    ensures RepaymentSpec(db, p).Ok? <==>
              && p.session in db.sessions && db.sessions[p.session].status == Open
              && db.sessions[p.session].cashier == p.author
              && p.customer in db.customers && db.customers[p.customer].store == db.sessions[p.session].store
              && 0 < p.amount <= Balance(db.entries, p.customer) && Tenderable(p)
  {
  }

  /** A key already used answers only the request it was used for, and changes nothing. */
  lemma {:induction false} RepaymentKeyAnswers(db: Db, p: RepaymentInput)
    requires FindRepayment(db.repayments, p.key) < |db.repayments|
    ensures var row := db.repayments[FindRepayment(db.repayments, p.key)];
            if row.customer == p.customer && row.session == p.session && row.author == p.author
            then RepaymentSpec(db, p) == Ok((db, row)) else RepaymentSpec(db, p) == Err(InvalidCustomerPayment)
  {
  }

  lemma {:induction false} ReturnKeyAnswers(db: Db, q: ReturnRequest)
    requires FindReturn(db.saleReturns, q.key) < |db.saleReturns|
    ensures var row := db.saleReturns[FindReturn(db.saleReturns, q.key)];
            if row.sale == q.sale && row.session == q.session && row.author == q.author
            then ReturnSpec(db, q) == Ok((db, row)) else ReturnSpec(db, q) == Err(InvalidReturn)
  {
  }

  // ---------- Expenses ----------

  /** A new expense is accepted in the open session of its author, in an active category,
      described where the category asks for it, in cash only as far as the drawer goes. */
  lemma {:induction false} SpendsIff(db: Db, x: ExpenseInput)
    requires FindExpense(db.expenses, x.key) == |db.expenses|
    ensures CreateExpenseSpec(db, x).Ok? <==>
              && x.amount > 0
              && x.session in db.sessions && db.sessions[x.session].status == Open
              && db.sessions[x.session].cashier == x.author
              && x.category in db.categories && db.categories[x.category].active
              && (db.categories[x.category].requiresDescription ==> x.described)
              && (x.paidBy == Cash ==> x.amount <= ExpectedCash(db, x.session))
  {
  }

  lemma {:induction false} ExpenseKeyAnswers(db: Db, x: ExpenseInput)
    requires x.amount > 0 && FindExpense(db.expenses, x.key) < |db.expenses|
    ensures var row := db.expenses[FindExpense(db.expenses, x.key)];
            if row == Expense(row.key, x.session, x.author, x.category, x.amount, x.paidBy, row.cancelled)
            then CreateExpenseSpec(db, x) == Ok((db, row)) else CreateExpenseSpec(db, x) == Err(InvalidExpense)
  {
  }

  /** An expense is cancelled, with a reason, by its author or by staff, while its session is
      open, and once. */
  lemma {:induction false} UnspendsIff(db: Db, key: Uuid, user: User, hasReason: bool)
    ensures CancelExpenseSpec(db, key, user, hasReason).Ok? <==>
              && hasReason && FindExpense(db.expenses, key) < |db.expenses|
              && var e := db.expenses[FindExpense(db.expenses, key)];
                 && !e.cancelled && (user.staff || user.id == e.author)
                 && e.session in db.sessions && db.sessions[e.session].status == Open
    ensures CancelExpenseSpec(db, key, user, hasReason).Ok? ==>
              var after := CancelExpenseSpec(db, key, user, hasReason).value.expenses;
              var at := FindExpense(db.expenses, key);
              && |after| == |db.expenses| && after[at] == db.expenses[at].(cancelled := true)
              && forall i :: 0 <= i < |after| && i != at ==> after[i] == db.expenses[i]
  {
  }
}
