/** The customer credit book: an append-only ledger whose sum is the balance. */
module Customers {
  import opened Sums
  import opened Tables

  // ---------- Balances ----------

  function OwedBy(customer: Uuid): Entry -> int {
    (e: Entry) => if e.customer == customer then e.amount else 0
  }

  function Balance(entries: seq<Entry>, customer: Uuid): int {
    Sum(entries, OwedBy(customer))
  }

  /** `reversal_of` refers to an earlier entry of the same customer that is not
      itself a reversal, for the opposite amount. */
  ghost predicate ReversalSound(entries: seq<Entry>, i: nat)
    requires i < |entries|
  {
    var e := entries[i];
    e.kind.Reversal? ==>
      var j := e.kind.reversalOf;
      j < i && !entries[j].kind.Reversal? && entries[j].customer == e.customer && entries[j].amount == -e.amount
  }

  predicate IsReversed(entries: seq<Entry>, i: nat) {
    exists k :: 0 <= k < |entries| && entries[k].kind == Reversal(i)
  }

  ghost predicate LedgerInv(entries: seq<Entry>) {
    && (forall i: nat :: i < |entries| ==> ReversalSound(entries, i))
    && (forall i, j :: 0 <= i < j < |entries| && entries[i].kind.Reversal? && entries[j].kind.Reversal? ==>
          entries[i].kind.reversalOf != entries[j].kind.reversalOf)
    && (forall customer :: Balance(entries, customer) >= 0)
  }

  /** Appending an entry that is not a reversal and leaves its customer's balance nonnegative. */
  lemma {:induction false} AppendEntry(entries: seq<Entry>, e: Entry)
    requires LedgerInv(entries)
    requires !e.kind.Reversal?
    requires Balance(entries, e.customer) + e.amount >= 0
    ensures LedgerInv(entries + [e])
    ensures forall customer ::
              Balance(entries + [e], customer) ==
              Balance(entries, customer) + if customer == e.customer then e.amount else 0
  {
    var after := entries + [e];
    forall customer
      ensures Balance(after, customer) == Balance(entries, customer) + (if customer == e.customer then e.amount else 0)
      ensures Balance(after, customer) >= 0
    {
      SumPush(entries, e, OwedBy(customer));
      assert Balance(entries, customer) >= 0;
    }
    forall i: nat | i < |after| ensures ReversalSound(after, i) {
      if i < |entries| {
        assert ReversalSound(entries, i);
        assert after[i] == entries[i];
        if entries[i].kind.Reversal? {
          assert after[entries[i].kind.reversalOf] == entries[entries[i].kind.reversalOf];
        }
      }
    }
  }

  // ---------- Reversals ----------

  function ReverseSpec(entries: seq<Entry>, at: nat, hasReason: bool): Result<seq<Entry>, ServiceError> {
    if !hasReason then Err(InvalidLedgerEntry)
    else if at >= |entries| then Err(NotFound)
    else if entries[at].kind.Reversal? || IsReversed(entries, at) then Err(InvalidLedgerEntry)
    else if Balance(entries, entries[at].customer) - entries[at].amount < 0 then Err(NegativeCustomerBalance)
    else Ok(entries + [Entry(entries[at].customer, Reversal(at), -entries[at].amount)])
  }

  lemma {:induction false} ReverseKeepsLedger(entries: seq<Entry>, at: nat, hasReason: bool)
    requires LedgerInv(entries)
    requires ReverseSpec(entries, at, hasReason).Ok?
    ensures LedgerInv(ReverseSpec(entries, at, hasReason).value)
  {
    var e := Entry(entries[at].customer, Reversal(at), -entries[at].amount);
    var after := entries + [e];
    forall customer ensures Balance(after, customer) >= 0 {
      SumPush(entries, e, OwedBy(customer));
      assert Balance(entries, customer) >= 0;
    }
    forall i: nat | i < |after| ensures ReversalSound(after, i) {
      if i < |entries| {
        assert ReversalSound(entries, i);
        if entries[i].kind.Reversal? {
          assert after[entries[i].kind.reversalOf] == entries[entries[i].kind.reversalOf];
        }
      }
    }
    forall i, j | 0 <= i < j < |after| && after[i].kind.Reversal? && after[j].kind.Reversal?
      ensures after[i].kind.reversalOf != after[j].kind.reversalOf
    {
      if j == |entries| { assert entries[i].kind != Reversal(at); }
    }
  }

  // ---------- The balance as the sum of what still stands ----------

  /** The first `n` entries that are neither reversals nor reversed anywhere in the ledger. */
  ghost function Standing(entries: seq<Entry>, n: nat, customer: Uuid): int
    requires n <= |entries|
  {
    if n == 0 then 0
    else
      var e := entries[n - 1];
      Standing(entries, n - 1, customer)
      + if e.customer == customer && !e.kind.Reversal? && !IsReversed(entries, n - 1) then e.amount else 0
  }

  lemma {:induction false} StandingAfterPlainEntry(entries: seq<Entry>, e: Entry, n: nat, customer: Uuid)
    requires n <= |entries| && !e.kind.Reversal?
    ensures Standing(entries + [e], n, customer) == Standing(entries, n, customer)
  {
    if n > 0 {
      StandingAfterPlainEntry(entries, e, n - 1, customer);
      var after := entries + [e];
      if IsReversed(after, n - 1) {
        var k :| 0 <= k < |after| && after[k].kind == Reversal(n - 1);
        assert entries[k].kind == Reversal(n - 1);
      }
      if IsReversed(entries, n - 1) {
        var k :| 0 <= k < |entries| && entries[k].kind == Reversal(n - 1);
        assert after[k].kind == Reversal(n - 1);
      }
    }
  }

  lemma {:induction false} StandingAfterReversal(entries: seq<Entry>, r: Entry, n: nat, customer: Uuid)
    requires n <= |entries| && r.kind.Reversal?
    requires var j := r.kind.reversalOf; j < |entries| && !entries[j].kind.Reversal? && !IsReversed(entries, j)
    ensures var j := r.kind.reversalOf;
            Standing(entries + [r], n, customer) ==
            Standing(entries, n, customer) - if j < n && entries[j].customer == customer then entries[j].amount else 0
  {
    if n > 0 {
      StandingAfterReversal(entries, r, n - 1, customer);
      var after := entries + [r];
      assert after[|entries|].kind == r.kind;
      if IsReversed(after, n - 1) && n - 1 != r.kind.reversalOf {
        var k :| 0 <= k < |after| && after[k].kind == Reversal(n - 1);
        assert entries[k].kind == Reversal(n - 1);
      }
      if IsReversed(entries, n - 1) {
        var k :| 0 <= k < |entries| && entries[k].kind == Reversal(n - 1);
        assert after[k].kind == Reversal(n - 1);
      }
    }
  }

  /** In every sound ledger, a balance is the sum of the entries that are neither
      reversals nor reversed. */
  lemma {:induction false} BalanceIsStanding(entries: seq<Entry>, customer: Uuid)
    requires forall i: nat :: i < |entries| ==> ReversalSound(entries, i)
    requires forall i, j :: 0 <= i < j < |entries| && entries[i].kind.Reversal? && entries[j].kind.Reversal? ==>
               entries[i].kind.reversalOf != entries[j].kind.reversalOf
    ensures Balance(entries, customer) == Standing(entries, |entries|, customer)
  {
    if |entries| > 0 {
      var n := |entries| - 1;
      var front, e := entries[..n], entries[n];
      assert entries == front + [e];
      forall i: nat | i < n ensures ReversalSound(front, i) {
        assert ReversalSound(entries, i);
        if front[i].kind.Reversal? { assert front[front[i].kind.reversalOf] == entries[front[i].kind.reversalOf]; }
      }
      assert forall i, j :: 0 <= i < j < n && front[i].kind.Reversal? && front[j].kind.Reversal? ==>
               entries[i].kind.reversalOf != entries[j].kind.reversalOf;
      BalanceIsStanding(front, customer);
      if e.kind.Reversal? {
        var j := e.kind.reversalOf;
        assert ReversalSound(entries, n);
        assert front[j] == entries[j];
        forall k | 0 <= k < n ensures front[k].kind != Reversal(j) {
          assert front[k] == entries[k];
        }
        StandingAfterReversal(front, e, n, customer);
      } else {
        StandingAfterPlainEntry(front, e, n, customer);
        forall k: nat | k < |entries| ensures entries[k].kind != Reversal(n) {
          assert ReversalSound(entries, k);
        }
      }
    }
  }

  // ---------- Credit of a sale ----------

  function ReturnCreditOf(sale: Uuid): Entry -> int {
    (e: Entry) => if e.kind.ReturnCredit? && e.kind.ofSale == sale then e.amount else 0
  }

  /** Credit of this sale that no return has yet erased, read in the ledger. */
  function SaleCreditRemaining(entries: seq<Entry>, sale: Sale): nat {
    if sale.credit == 0 then 0 else Max(sale.credit + Sum(entries, ReturnCreditOf(sale.id)), 0)
  }

  /** The part of a return that may still reduce the book. */
  function ReducibleCredit(entries: seq<Entry>, sale: Sale): nat {
    if sale.credit == 0 || sale.customer.None? then 0
    else Max(Min(SaleCreditRemaining(entries, sale), Balance(entries, sale.customer.value)), 0)
  }

  // ---------- Services ----------

  function OpeningBalanceSpec(db: Db, customer: Uuid, amount: int): Result<Db, ServiceError> {
    if amount <= 0 then Err(InvalidLedgerEntry)
    else if customer !in db.customers then Err(NotFound)
    else if exists e :: e in db.entries && e.customer == customer && e.kind.OpeningBalance? then Err(InvalidLedgerEntry)
    else Ok(db.(entries := db.entries + [Entry(customer, OpeningBalance, amount)]))
  }

  method RecordOpeningBalance(db: Database, customer: Uuid, amount: int) returns (r: Result<nat, ServiceError>)
    modifies db
    ensures r.Ok? <==> OpeningBalanceSpec(old(db.Rows()), customer, amount).Ok?
    ensures r.Ok? ==> db.Rows() == OpeningBalanceSpec(old(db.Rows()), customer, amount).value
    ensures r.Err? ==> db.Rows() == old(db.Rows()) && OpeningBalanceSpec(db.Rows(), customer, amount) == Err(r.error)
  {
    if amount <= 0 { return Err(InvalidLedgerEntry); }
    if customer !in db.customers { return Err(NotFound); }
    if exists e :: e in db.entries && e.customer == customer && e.kind.OpeningBalance? {
      return Err(InvalidLedgerEntry);
    }
    db.entries := db.entries + [Entry(customer, OpeningBalance, amount)];
    return Ok(|db.entries| - 1);
  }

  function AdjustmentSpec(db: Db, customer: Uuid, amount: int, hasReason: bool): Result<Db, ServiceError> {
    if amount == 0 || !hasReason then Err(InvalidLedgerEntry)
    else if customer !in db.customers then Err(NotFound)
    else if Balance(db.entries, customer) + amount < 0 then Err(NegativeCustomerBalance)
    else Ok(db.(entries := db.entries + [Entry(customer, Adjusted, amount)]))
  }

  method RecordAdjustment(db: Database, customer: Uuid, amount: int, hasReason: bool)
      returns (r: Result<nat, ServiceError>)
    modifies db
    ensures r.Ok? <==> AdjustmentSpec(old(db.Rows()), customer, amount, hasReason).Ok?
    ensures r.Ok? ==> db.Rows() == AdjustmentSpec(old(db.Rows()), customer, amount, hasReason).value
    ensures r.Err? ==>
              db.Rows() == old(db.Rows()) && AdjustmentSpec(db.Rows(), customer, amount, hasReason) == Err(r.error)
  {
    if amount == 0 { return Err(InvalidLedgerEntry); }
    if !hasReason { return Err(InvalidLedgerEntry); }
    if customer !in db.customers { return Err(NotFound); }
    var balance := Balance(db.entries, customer);
    if balance + amount < 0 { return Err(NegativeCustomerBalance); }
    db.entries := db.entries + [Entry(customer, Adjusted, amount)];
    return Ok(|db.entries| - 1);
  }

  method ReverseLedgerEntry(db: Database, at: nat, hasReason: bool) returns (r: Result<nat, ServiceError>)
    modifies db`entries
    ensures r.Ok? <==> ReverseSpec(old(db.entries), at, hasReason).Ok?
    ensures r.Ok? ==> db.entries == ReverseSpec(old(db.entries), at, hasReason).value
    ensures r.Err? ==> db.entries == old(db.entries) && ReverseSpec(db.entries, at, hasReason) == Err(r.error)
  {
    if !hasReason { return Err(InvalidLedgerEntry); }
    if at >= |db.entries| { return Err(NotFound); }
    var original := db.entries[at];
    if original.kind.Reversal? { return Err(InvalidLedgerEntry); }
    if IsReversed(db.entries, at) { return Err(InvalidLedgerEntry); }
    var delta := -original.amount;
    if Balance(db.entries, original.customer) + delta < 0 { return Err(NegativeCustomerBalance); }
    db.entries := db.entries + [Entry(original.customer, Reversal(at), delta)];
    return Ok(|db.entries| - 1);
  }

  // ---------- Repayments ----------

  datatype RepaymentInput = RepaymentInput(
    key: Uuid, customer: Uuid, session: Uuid, author: Uuid, paidBy: PaymentMethod, amount: int, received: Option<int>)

  /** Cash needs at least the amount in hand; mobile money takes no received amount. */
  predicate TenderAccepted(paidBy: PaymentMethod, amount: int, received: Option<int>) {
    if paidBy.Cash? then received.Some? && received.value >= amount else received.None?
  }

  function ChangeDue(paidBy: PaymentMethod, amount: int, received: Option<int>): Option<int> {
    if paidBy.Cash? && received.Some? then Some(received.value - amount) else None
  }

  function RepaymentRow(entries: seq<Entry>, p: RepaymentInput): Repayment {
    var balance := Balance(entries, p.customer);
    Repayment(p.key, p.customer, p.session, p.author, p.paidBy, p.amount,
              p.received, ChangeDue(p.paidBy, p.amount, p.received), balance, balance - p.amount)
  }

  function RepaymentSpec(db: Db, p: RepaymentInput): Result<(Db, Repayment), ServiceError> {
    var at := FindRepayment(db.repayments, p.key);
    if at < |db.repayments| then
      var existing := db.repayments[at];
      if existing.customer != p.customer || existing.session != p.session || existing.author != p.author
      then Err(InvalidCustomerPayment) else Ok((db, existing))
    else if p.session !in db.sessions || p.customer !in db.customers then Err(NotFound)
    else if !db.sessions[p.session].status.Open? then Err(CashSessionClosed)
    else if db.sessions[p.session].cashier != p.author then Err(InvalidCustomerPayment)
    else if db.customers[p.customer].store != db.sessions[p.session].store then Err(InvalidCustomerPayment)
    else if p.amount <= 0 || !TenderAccepted(p.paidBy, p.amount, p.received) then Err(InvalidCustomerPayment)
    else if p.amount > Balance(db.entries, p.customer) then Err(CustomerOverpayment)
    else
      var row := RepaymentRow(db.entries, p);
      Ok((db.(repayments := db.repayments + [row], entries :=
        db.entries + [Entry(p.customer, Repaid(p.key), -p.amount)]), row))
  }

  method RecordCustomerPayment(db: Database, p: RepaymentInput) returns (r: Result<Repayment, ServiceError>)
    modifies db
    ensures r.Ok? <==> RepaymentSpec(old(db.Rows()), p).Ok?
    ensures r.Ok? ==> (db.Rows(), r.value) == RepaymentSpec(old(db.Rows()), p).value
    ensures r.Err? ==> db.Rows() == old(db.Rows()) && RepaymentSpec(db.Rows(), p) == Err(r.error)
  {
    var at := FindRepayment(db.repayments, p.key);
    if at < |db.repayments| {
      var existing := db.repayments[at];
      if existing.customer != p.customer || existing.session != p.session || existing.author != p.author {
        return Err(InvalidCustomerPayment);
      }
      return Ok(existing);
    }
    if p.session !in db.sessions || p.customer !in db.customers { return Err(NotFound); }
    var session := db.sessions[p.session];
    if !session.status.Open? { return Err(CashSessionClosed); }
    if session.cashier != p.author { return Err(InvalidCustomerPayment); }
    if db.customers[p.customer].store != session.store { return Err(InvalidCustomerPayment); }
    if p.amount <= 0 { return Err(InvalidCustomerPayment); }
    if !TenderAccepted(p.paidBy, p.amount, p.received) { return Err(InvalidCustomerPayment); }
    var balance := Balance(db.entries, p.customer);
    if p.amount > balance { return Err(CustomerOverpayment); }
    var payment := RepaymentRow(db.entries, p);
    db.repayments := db.repayments + [payment];
    db.entries := db.entries + [Entry(p.customer, Repaid(p.key), -p.amount)];
    return Ok(payment);
  }

  /** A recorded payment photographs the balance it reduces, and never overpays. */
  ghost predicate SnapshotSound(p: Repayment) {
    p.amount > 0 && p.balanceAfter == p.balanceBefore - p.amount && p.balanceAfter >= 0
  }

  lemma {:induction false} RepaymentSnapshot(db: Db, p: RepaymentInput)
    requires FindRepayment(db.repayments, p.key) == |db.repayments|
    requires RepaymentSpec(db, p).Ok?
    ensures var (after, row) := RepaymentSpec(db, p).value;
            && SnapshotSound(row)
            && row.balanceBefore == Balance(db.entries, p.customer)
            && row.balanceAfter == Balance(after.entries, p.customer)
  {
    SumPush(db.entries, Entry(p.customer, Repaid(p.key), -p.amount), OwedBy(p.customer));
  }
}
