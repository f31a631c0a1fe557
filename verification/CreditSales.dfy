/** What becomes of the debt of a credit sale: born with the sale, gone with its
    cancellation, and erased before any money when goods come back. */
module CreditSales {
  import opened Sums
  import opened Tables
  import opened Customers
  import opened CashDesk
  import opened Sales
  import opened Services
  import opened Invariants
  import opened Histories

  /** The ledger holds the debt of this sale, and no entry takes it back. */
  ghost predicate DebtStands(entries: seq<Entry>, sale: Uuid) {
    exists at: nat :: at < |entries| && entries[at].kind == CreditSale(sale) && !TakenBack(entries, at)
  }

  ghost predicate TakenBack(entries: seq<Entry>, at: nat) {
    exists k :: 0 <= k < |entries| && entries[k].kind == Reversal(at)
  }

  function DebtOf(sale: Sale, customer: Uuid): int {
    if sale.customer == Some(customer) then sale.credit else 0
  }

  // ---------- Cancelling ----------

  lemma {:induction false} OnlyOneFiltered(entries: seq<Entry>, sale: Uuid, e: Entry, at: nat)
    requires Filter(entries, OwedFor(sale)) == [e] && at < |entries| && entries[at].kind == CreditSale(sale)
    ensures entries[at] == e
    ensures forall i :: 0 <= i < |entries| && entries[i].kind == CreditSale(sale) ==> i == at
  {
    var n := |entries| - 1;
    var front := entries[..n];
    if OwedFor(sale)(entries[n]) {
      assert Filter(entries, OwedFor(sale)) == Filter(front, OwedFor(sale)) + [entries[n]];
      assert |Filter(front, OwedFor(sale))| == 0 && Filter(front, OwedFor(sale)) == [];
      assert [] + [entries[n]] == [e] && [entries[n]][0] == [e][0];
      forall i | 0 <= i < n ensures front[i].kind != CreditSale(sale) {
        if front[i].kind == CreditSale(sale) { InFilter(front, OwedFor(sale), i); }
      }
    } else {
      OnlyOneFiltered(front, sale, e, at);
    }
  }

  lemma {:induction false} InFilter<T>(rows: seq<T>, p: T -> bool, i: nat)
    requires i < |rows| && p(rows[i])
    ensures |Filter(rows, p)| > 0
  {
    if i < |rows| - 1 { InFilter(rows[..|rows| - 1], p, i); }
  }

  lemma {:induction false} SomeFiltered(entries: seq<Entry>, sale: Uuid, e: Entry)
    requires Filter(entries, OwedFor(sale)) == [e]
    ensures exists at: nat :: at < |entries| && entries[at].kind == CreditSale(sale)
  {
    if forall at: nat :: at < |entries| ==> entries[at].kind != CreditSale(sale) {
      FilterNone(entries, OwedFor(sale));
    }
  }

  /** The entry of a credit sale: its customer, its amount, its only one. */
  lemma {:induction false} CreditEntryFound(db: Db, id: Uuid) returns (at: nat)
    requires Inv(db) && EffectsOnce(db, id)
    requires FindSale(db.sales, id) < |db.sales| && db.sales[FindSale(db.sales, id)].credit > 0
    ensures var sale := db.sales[FindSale(db.sales, id)];
            && sale.customer.Some? && at < |db.entries| && at == CreditEntryAt(db.entries, id)
            && db.entries[at] == Entry(sale.customer.value, CreditSale(id), sale.credit)
            && forall i :: 0 <= i < |db.entries| && db.entries[i].kind == CreditSale(id) ==> i == at
  {
    var sale := db.sales[FindSale(db.sales, id)];
    assert SaleRecord(db.sessions, sale);
    var e := Entry(sale.customer.value, CreditSale(id), sale.credit);
    SomeFiltered(db.entries, id, e);
    at := CreditEntryAt(db.entries, id);
    OnlyOneFiltered(db.entries, id, e, at);
  }

  lemma {:induction false} DebtStandsIff(entries: seq<Entry>, sale: Uuid, at: nat)
    requires at < |entries| && entries[at].kind == CreditSale(sale)
    requires forall i :: 0 <= i < |entries| && entries[i].kind == CreditSale(sale) ==> i == at
    ensures DebtStands(entries, sale) <==> !IsReversed(entries, at)
  {
  }

  /** An allowed cancellation erases exactly the debt of the sale, by an entry that takes
      back the one it was born with; every other balance stays. */
  lemma {:induction false} CancellingErasesTheDebt(db: Db, id: Uuid, user: User)
    requires Inv(db) && EffectsOnce(db, id) && CancelSaleSpec(db, id, user).Ok?
    ensures var after, sale := CancelSaleSpec(db, id, user).value, db.sales[FindSale(db.sales, id)];
            && (forall c :: Balance(after.entries, c) == Balance(db.entries, c) - DebtOf(sale, c))
            && (sale.credit > 0 ==> DebtStands(db.entries, id))
            && !DebtStands(after.entries, id)
  {
    var after, sale := CancelSaleSpec(db, id, user).value, db.sales[FindSale(db.sales, id)];
    if sale.credit > 0 {
      var at := CreditEntryFound(db, id);
      DebtStandsIff(db.entries, id, at);
      ReversedDebt(db.entries, after.entries, id, at);
      forall c ensures Balance(after.entries, c) == Balance(db.entries, c) - DebtOf(sale, c) {
        SumPush(db.entries, after.entries[|db.entries|], OwedBy(c));
      }
    } else {
      NoDebt(db, id);
    }
  }

  lemma {:induction false} ReversedDebt(entries: seq<Entry>, after: seq<Entry>, sale: Uuid, at: nat)
    requires at < |entries| && entries[at].kind == CreditSale(sale) && |after| == |entries| + 1 && entries <= after
    requires after[|entries|].kind == Reversal(at)
    requires forall i :: 0 <= i < |entries| && entries[i].kind == CreditSale(sale) ==> i == at
    ensures !DebtStands(after, sale)
  {
    assert forall i :: 0 <= i < |entries| ==> after[i] == entries[i];
    assert TakenBack(after, at);
  }

  lemma {:induction false} NoDebt(db: Db, id: Uuid)
    requires EffectsOnce(db, id) && FindSale(db.sales, id) < |db.sales|
    requires db.sales[FindSale(db.sales, id)].credit == 0
    ensures !DebtStands(db.entries, id)
  {
    forall at: nat | at < |db.entries| ensures db.entries[at].kind != CreditSale(id) {
      if db.entries[at].kind == CreditSale(id) { InFilter(db.entries, OwedFor(id), at); }
    }
  }

  /** Who may cancel: staff, or the cashier of the session while it is open. */
  predicate Allowed(db: Db, session: Uuid, user: User)
    requires session in db.sessions
  {
    user.staff || (db.sessions[session].status == Open && db.sessions[session].cashier == user.id)
  }

  ghost predicate Cancellable(db: Db, id: Uuid, user: User) {
    && FindSale(db.sales, id) < |db.sales|
    && var sale := db.sales[FindSale(db.sales, id)];
    && sale.session in db.sessions && Allowed(db, sale.session, user) && !sale.cancelled
    && (forall r :: r in db.saleReturns ==> r.sale != id)
    && (sale.credit > 0 ==>
          sale.customer.Some? && DebtStands(db.entries, id) && Balance(db.entries, sale.customer.value) >= sale.credit)
  }

  /** A sale is cancelled if and only if it stands without returns, the user is allowed, and
      its debt, if it has one, stands whole in the book. */
  lemma {:induction false} CancelsIff(db: Db, id: Uuid, user: User)
    requires Inv(db) && EffectsOnce(db, id)
    ensures CancelSaleSpec(db, id, user).Ok? <==> Cancellable(db, id, user)
  {
    var i := FindSale(db.sales, id);
    if i < |db.sales| {
      assert SaleRecord(db.sessions, db.sales[i]);
      if db.sales[i].credit > 0 {
        var at := CreditEntryFound(db, id);
        DebtStandsIff(db.entries, id, at);
      }
    }
  }

  lemma {:induction false} FreshDebtStands(entries: seq<Entry>, t: SaleTerms)
    requires LedgerInv(entries) && t.credit > 0 && t.customer.Some?
    ensures DebtStands(entries + CreditEntries(t), t.id)
  {
    var after, at := entries + CreditEntries(t), |entries|;
    assert after[at].kind == CreditSale(t.id);
    forall k: nat | k < |after| ensures after[k].kind != Reversal(at) {
      if k < |entries| { assert ReversalSound(entries, k); }
    }
    assert !TakenBack(after, at);
  }

  /** A sale on the book raises the balance of its customer by its credit, and no other. */
  lemma {:induction false} SellingOwes(db: Db, items: seq<ItemInput>, t: SaleTerms, offline: bool)
    requires CompleteSpec(db, items, t, offline).Ok?
    ensures var (after, sale, _) := CompleteSpec(db, items, t, offline).value;
            forall c :: Balance(after.entries, c) == Balance(db.entries, c) + DebtOf(sale, c)
  {
    CompleteBooksASale(db, items, t, offline);
    if t.credit > 0 {
      forall c { SumPush(db.entries, CreditEntries(t)[0], OwedBy(c)); }
    } else {
      assert db.entries + [] == db.entries;
    }
  }

  lemma {:induction false} SoldAt(db: Db, items: seq<ItemInput>, t: SaleTerms, offline: bool)
    requires CompleteSpec(db, items, t, offline).Ok?
    ensures var (sold, sale, _) := CompleteSpec(db, items, t, offline).value;
            && sold.sessions == db.sessions && sold.saleReturns == db.saleReturns
            && sold.sales == db.sales + [sale] && sale.session == t.session && sale.credit == t.credit
            && !sale.cancelled
            && FindSale(db.sales, t.id) == |db.sales| && FindSale(sold.sales, t.id) == |db.sales|
  {
    CompleteBooksASale(db, items, t, offline);
    var (sold, sale, _) := CompleteSpec(db, items, t, offline).value;
    assert sold.sales[|db.sales|] == sale && sale.id == t.id;
  }

  lemma {:induction false} SoldIsSound(db: Db, items: seq<ItemInput>, t: SaleTerms, offline: bool)
    requires Inv(db) && EffectsOnce(db, t.id) && CompleteSpec(db, items, t, offline).Ok?
    ensures var sold := CompleteSpec(db, items, t, offline).value.0;
            Inv(sold) && EffectsOnce(sold, t.id)
  {
    var (sold, sale, _) := CompleteSpec(db, items, t, offline).value;
    CompleteApplies(db, items, t, offline);
    EffectKeeps(db, SaleBooked(t, sale, []), sold);
    EffectsOnceKept(db, SaleBooked(t, sale, []), sold, t.id);
  }

  lemma {:induction false} NoReturnYet(db: Db, id: Uuid)
    requires ReturnRecords(db.sessions, db.sales, db.saleReturns) && FindSale(db.sales, id) == |db.sales|
    ensures forall r :: r in db.saleReturns ==> r.sale != id
  {
    forall r | r in db.saleReturns ensures r.sale != id {
      var i :| 0 <= i < |db.saleReturns| && db.saleReturns[i] == r;
      assert ReturnRecord(db.sessions, db.sales, db.saleReturns[i]);
    }
  }

  lemma {:induction false} DebtIsFresh(db: Db, items: seq<ItemInput>, t: SaleTerms, offline: bool)
    requires Inv(db) && CompleteSpec(db, items, t, offline).Ok?
    ensures var (sold, sale, _) := CompleteSpec(db, items, t, offline).value;
            t.credit > 0 ==>
              && sale.customer.Some? && DebtStands(sold.entries, t.id)
              && Balance(sold.entries, sale.customer.value) >= t.credit
  {
    CompleteBooksASale(db, items, t, offline);
    if t.credit > 0 {
      FreshDebtStands(db.entries, t);
      SellingOwes(db, items, t, offline);
      assert Balance(db.entries, t.customer.value) >= 0;
    }
  }

  lemma {:induction false} SoldIsCancellable(db: Db, items: seq<ItemInput>, t: SaleTerms, offline: bool, user: User)
    requires Inv(db) && EffectsOnce(db, t.id) && CompleteSpec(db, items, t, offline).Ok?
    requires t.session in db.sessions && Allowed(db, t.session, user)
    ensures Cancellable(CompleteSpec(db, items, t, offline).value.0, t.id, user)
  {
    SoldAt(db, items, t, offline);
    NoReturnYet(db, t.id);
    DebtIsFresh(db, items, t, offline);
  }

  /** A sale and its cancellation at once: always possible to whoever may cancel in that
      session, and every balance is as before. */
  lemma {:induction false} SaleThenCancellation(db: Db, items: seq<ItemInput>, t: SaleTerms, offline: bool, user: User)
    requires Inv(db) && EffectsOnce(db, t.id) && CompleteSpec(db, items, t, offline).Ok?
    requires t.session in db.sessions && Allowed(db, t.session, user)
    ensures var sold := CompleteSpec(db, items, t, offline).value.0;
            && CancelSaleSpec(sold, t.id, user).Ok?
            && forall c :: Balance(CancelSaleSpec(sold, t.id, user).value.entries, c) == Balance(db.entries, c)
  {
    var sold := CompleteSpec(db, items, t, offline).value.0;
    SoldIsSound(db, items, t, offline);
    SoldIsCancellable(db, items, t, offline, user);
    CancelsIff(sold, t.id, user);
    CancellingErasesTheDebt(sold, t.id, user);
    SellingOwes(db, items, t, offline);
    SoldAt(db, items, t, offline);
  }

  /** And so is every drawer. */
  lemma {:induction false} DrawersComeBack(db: Db, items: seq<ItemInput>, t: SaleTerms, offline: bool, user: User,
      s: Uuid)
    requires CompleteSpec(db, items, t, offline).Ok? && s in db.sessions
    requires CancelSaleSpec(CompleteSpec(db, items, t, offline).value.0, t.id, user).Ok?
    ensures var after := CancelSaleSpec(CompleteSpec(db, items, t, offline).value.0, t.id, user).value;
            s in after.sessions && ExpectedCash(after, s) == ExpectedCash(db, s)
  {
    var (sold, sale, _) := CompleteSpec(db, items, t, offline).value;
    CompleteApplies(db, items, t, offline);
    DrawerMoves(db, SaleBooked(t, sale, []), sold, s);
    CancellationAndDrawer(sold, t.id, user, s);
    SoldAt(db, items, t, offline);
  }
}
