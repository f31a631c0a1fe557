/** The debt shown at the till: the cached balance plus the credit not yet synchronised. */
module Debt {
  import opened Sums
  import opened Rounding
  import opened Tables
  import opened Customers
  import opened Sales
  import opened Sync
  import opened LocalTables
  import opened LocalSales
  import opened SyncEngine

  /** A cached customer: store and identifier. */
  type CustomerKey = (Uuid, Uuid)

  /** The credit a sale puts on a customer's book. */
  function CreditFor(s: LocalSale, key: CustomerKey): int {
    if s.store == key.0 && s.customer == Some(key.1) && OrElse(s.credit, 0) > 0 then OrElse(s.credit, 0) else 0
  }

  /** The same while the sale is not synchronised. */
  function CreditOn(s: LocalSale, key: CustomerKey): int {
    if s.status.SyncDone? then 0 else CreditFor(s, key)
  }

  function PendingCredit(key: CustomerKey): LocalSale -> int {
    (s: LocalSale) => CreditOn(s, key)
  }

  /** Credit of the unsynced sales the server has not booked. */
  function UnknownCredit(booked: seq<Sale>, key: CustomerKey): LocalSale -> int {
    (s: LocalSale) => if FindSale(booked, s.id) == |booked| then CreditOn(s, key) else 0
  }

  ghost function Displayed(t: Till, key: CustomerKey): int
    requires key in t.customers
  {
    t.customers[key] + Total(t.sales, PendingCredit(key))
  }

  // ---------- Pending credit by customer ----------

  function At(pending: map<Uuid, int>, c: Uuid): int {
    if c in pending then pending[c] else 0
  }

  function PlusCredit(pending: map<Uuid, int>, s: LocalSale, store: Uuid): map<Uuid, int> {
    if s.store == store && !s.status.SyncDone? && OrElse(s.credit, 0) > 0 && s.customer.Some?
    then pending[s.customer.value := At(pending, s.customer.value) + OrElse(s.credit, 0)]
    else pending
  }

  /** `pending` holds, for every customer of the store, the credit of `sales`. */
  ghost predicate CreditTallied(pending: map<Uuid, int>, sales: map<Uuid, LocalSale>, store: Uuid) {
    forall c :: At(pending, c) == Total(sales, PendingCredit((store, c)))
  }

  method PendingCreditByCustomer(sales: map<Uuid, LocalSale>, store: Uuid) returns (pending: map<Uuid, int>)
    ensures CreditTallied(pending, sales, store)
  {
    pending := map[];
    var todo := sales.Keys;
    NothingOwed(sales, store);
    while todo != {}
      invariant todo <= sales.Keys
      invariant CreditTallied(pending, sales - todo, store)
      decreases |todo|
    {
      var id :| id in todo;
      OneLessToDo(sales, todo, id);
      CreditOneMore(pending, sales - todo, id, sales[id], store);
      pending := PlusCredit(pending, sales[id], store);
      todo := todo - {id};
    }
    assert sales - {} == sales;
  }

  lemma {:induction false} NothingOwed(sales: map<Uuid, LocalSale>, store: Uuid)
    ensures CreditTallied(map[], sales - sales.Keys, store)
  {
    assert sales - sales.Keys == map[];
  }

  lemma {:induction false} OneLessToDo(sales: map<Uuid, LocalSale>, todo: set<Uuid>, id: Uuid)
    requires id in todo && todo <= sales.Keys
    ensures id !in sales - todo && sales - (todo - {id}) == (sales - todo)[id := sales[id]]
  {
  }

  lemma {:induction false} CreditOneMore(pending: map<Uuid, int>, sales: map<Uuid, LocalSale>, id: Uuid, s: LocalSale,
      store: Uuid)
    requires CreditTallied(pending, sales, store) && id !in sales
    ensures CreditTallied(PlusCredit(pending, s, store), sales[id := s], store)
  {
    forall c ensures At(PlusCredit(pending, s, store), c) == Total(sales[id := s], PendingCredit((store, c))) {
      TotalAdd(sales, id, s, PendingCredit((store, c)));
      assert At(PlusCredit(pending, s, store), c) == At(pending, c) + CreditOn(s, (store, c));
    }
  }

  // ---------- Displayed debt and real debt ----------

  /** What is shown beyond the server's balance and the credit it does not know, in cents. */
  ghost function Excess(t: Till, db: Db, key: CustomerKey): int
    requires key in t.customers
  {
    ToCents(Displayed(t, key)) - Balance(db.entries, key.1) - ToCents(Total(t.sales, UnknownCredit(db.sales, key)))
  }

  ghost predicate KeyedById(t: Till) {
    forall id :: id in t.sales ==> t.sales[id].id == id
  }

  /** Marking a sale as synchronised moves its credit into the cached balance: the debt
      shown does not move. */
  lemma {:induction false} MarkingKeepsDisplayed(t: Till, id: Uuid, serverId: Uuid, key: CustomerKey)
    requires key in t.customers
    ensures key in SyncedTill(t, id, serverId).customers
    ensures Displayed(SyncedTill(t, id, serverId), key) == Displayed(t, key)
  {
    if id in t.sales && !t.sales[id].status.SyncDone? {
      TotalReplace(t.sales, id, SyncedTill(t, id, serverId).sales[id], PendingCredit(key));
    }
  }

  /** Marking a sale the server holds changes nothing either in what the till knows better. */
  lemma {:induction false} MarkingKeepsExcess(t: Till, db: Db, id: Uuid, serverId: Uuid, key: CustomerKey)
    requires key in t.customers && KeyedById(t)
    requires id in t.sales ==> FindSale(db.sales, id) < |db.sales|
    ensures key in SyncedTill(t, id, serverId).customers
    ensures Excess(SyncedTill(t, id, serverId), db, key) == Excess(t, db, key)
  {
    MarkingKeepsDisplayed(t, id, serverId, key);
    if id in t.sales && !t.sales[id].status.SyncDone? {
      TotalReplace(t.sales, id, SyncedTill(t, id, serverId).sales[id], UnknownCredit(db.sales, key));
    }
  }

  /** A new sale raises the debt shown and the debt due by the same credit. */
  lemma {:induction false} CreatingKeepsExcess(t: Till, db: Db, x: SaleInput, stamp: Stamp, key: CustomerKey)
    requires CreateSpec(t, x, stamp).Ok? && key in t.customers && FindSale(db.sales, stamp.id) == |db.sales|
    ensures key in CreateSpec(t, x, stamp).value.0.customers
    ensures Excess(CreateSpec(t, x, stamp).value.0, db, key) == Excess(t, db, key)
  {
    var (after, sale) := CreateSpec(t, x, stamp).value;
    TotalAdd(t.sales, stamp.id, sale, PendingCredit(key));
    TotalAdd(t.sales, stamp.id, sale, UnknownCredit(db.sales, key));
  }

  /** Cancelling on the till hides the debt of a sale the server has booked, and is
      otherwise neutral. */
  lemma {:induction false} CancellingExcess(t: Till, db: Db, id: Uuid, key: CustomerKey)
    requires key in t.customers && KeyedById(t) && CancelledTill(t, id).1
    ensures key in CancelledTill(t, id).0.customers
    ensures Excess(CancelledTill(t, id).0, db, key) ==
            Excess(t, db, key) - if FindSale(db.sales, id) < |db.sales| then ToCents(CreditOn(t.sales[id], key)) else 0
  {
    TotalPick(t.sales, id, PendingCredit(key));
    TotalPick(t.sales, id, UnknownCredit(db.sales, key));
  }

  /** A late refusal of a sale already synchronised counts its credit a second time; any
      other refusal is neutral. */
  lemma {:induction false} RefusingExcess(t: Till, db: Db, id: Uuid, code: Code, key: CustomerKey)
    requires key in t.customers && KeyedById(t) && id in t.sales
    requires t.sales[id].status.SyncDone? ==> FindSale(db.sales, id) < |db.sales|
    ensures key in ConflictTill(t, id, code).customers
    ensures Excess(ConflictTill(t, id, code), db, key) ==
            Excess(t, db, key) + if t.sales[id].status.SyncDone? then ToCents(CreditFor(t.sales[id], key)) else 0
  {
    var refused := t.sales[id].(status := InConflict, conflict := Some(code));
    RefusedCredit(t.sales, id, refused, db.sales, key);
  }

  lemma {:induction false} RefusedCredit(sales: map<Uuid, LocalSale>, id: Uuid, refused: LocalSale, booked: seq<Sale>,
      key: CustomerKey)
    requires id in sales && refused.id == sales[id].id && !refused.status.SyncDone?
    requires CreditFor(refused, key) == CreditFor(sales[id], key)
    requires sales[id].status.SyncDone? ==> FindSale(booked, sales[id].id) < |booked|
    ensures Total(sales[id := refused], UnknownCredit(booked, key)) == Total(sales, UnknownCredit(booked, key))
    ensures Total(sales[id := refused], PendingCredit(key)) ==
            Total(sales, PendingCredit(key)) + if sales[id].status.SyncDone? then CreditFor(sales[id], key) else 0
  {
    TotalReplace(sales, id, refused, PendingCredit(key));
    TotalReplace(sales, id, refused, UnknownCredit(booked, key));
  }

  lemma {:induction false} RequeueingExcess(t: Till, db: Db, key: CustomerKey)
    requires key in t.customers
    ensures key in RequeuedTill(t).customers && Excess(RequeuedTill(t), db, key) == Excess(t, db, key)
  {
    var after := RequeuedTill(t);
    forall id | id in t.sales
      ensures after.sales[id].id == t.sales[id].id && CreditOn(after.sales[id], key) == CreditOn(t.sales[id], key)
    {
      assert after.sales[id] == Requeued(t.sales[id]);
    }
    TotalSame(t.sales, after.sales, PendingCredit(key));
    TotalSame(t.sales, after.sales, UnknownCredit(db.sales, key));
  }

  // ---------- The server books the sale ----------

  lemma {:induction false} NowBooked(booked: seq<Sale>, row: Sale, s: LocalSale, key: CustomerKey)
    ensures UnknownCredit(booked + [row], key)(s) == if s.id == row.id then 0 else UnknownCredit(booked, key)(s)
  {
    var more := booked + [row];
    assert more[|booked|] == row;
    var at := FindSale(booked, s.id);
    if at < |booked| {
      assert more[at].id == s.id;
    } else if s.id != row.id {
      assert forall i :: 0 <= i < |more| ==> more[i].id != s.id;
      assert FindSale(more, s.id) == |more|;
    }
  }

  lemma {:induction false} BookingMovesCredit(t: Till, booked: seq<Sale>, row: Sale, id: Uuid, key: CustomerKey)
    requires KeyedById(t) && id in t.sales && row.id == id && FindSale(booked, id) == |booked|
    ensures Total(t.sales, UnknownCredit(booked + [row], key)) ==
              Total(t.sales, UnknownCredit(booked, key)) - CreditOn(t.sales[id], key)
  {
    forall other | other in t.sales
      ensures UnknownCredit(booked + [row], key)(t.sales[other]) ==
              if other == id then 0 else UnknownCredit(booked, key)(t.sales[other])
    {
      NowBooked(booked, row, t.sales[other], key);
    }
    TotalExcept(t.sales, id, UnknownCredit(booked, key), UnknownCredit(booked + [row], key));
  }

  lemma {:induction false} BookedCredit(entries: seq<Entry>, t: SaleTerms, customer: Uuid)
    requires t.credit > 0 ==> t.customer.Some?
    ensures Balance(entries + CreditEntries(t), customer) ==
            Balance(entries, customer) + if t.credit > 0 && t.customer == Some(customer) then t.credit else 0
  {
    if t.credit > 0 {
      SumPush(entries, CreditEntries(t)[0], OwedBy(customer));
    } else {
      assert entries + [] == entries;
    }
  }

  /** What an event puts on a customer's book. */
  function Owed(e: SyncEvent, customer: Uuid): int {
    if e.credit > 0 && e.customer == Some(customer) then e.credit else 0
  }

  /** When the server books a sale of this till, its credit passes from what the server
      does not know to the balance, and the debt shown stays right; a sale booked for the
      same customer that is not on this till is a debt the till does not show. */
  lemma {:induction false} BookingExcess(t: Till, db: Db, e: SyncEvent, after: Db, key: CustomerKey)
    requires key in t.customers && KeyedById(t) && FindSale(db.sales, e.entity) == |db.sales| && Valid(db, e)
    requires after.sales == db.sales + [RowFor(db, e)] && after.entries == db.entries + CreditEntries(TermsOf(e))
    requires e.entity in t.sales ==>
               && ToSyncEvent(t.sales[e.entity]) == e && !t.sales[e.entity].status.SyncDone?
               && db.sessions[e.session].store == t.sales[e.entity].store
    requires key.1 in db.customers ==> db.customers[key.1].store == key.0
    ensures Excess(t, after, key) == Excess(t, db, key) - if e.entity in t.sales then 0 else Owed(e, key.1)
  {
    BookedCredit(db.entries, TermsOf(e), key.1);
    if e.entity in t.sales {
      BookingMovesCredit(t, db.sales, RowFor(db, e), e.entity, key);
      BookedForKey(db, t.sales[e.entity], key);
    } else {
      forall id | id in t.sales
        ensures UnknownCredit(after.sales, key)(t.sales[id]) == UnknownCredit(db.sales, key)(t.sales[id])
      {
        NowBooked(db.sales, RowFor(db, e), t.sales[id], key);
      }
      TotalAgree(t.sales, UnknownCredit(db.sales, key), UnknownCredit(after.sales, key));
    }
  }

  lemma {:induction false} BookedForKey(db: Db, sale: LocalSale, key: CustomerKey)
    requires sale.session in db.sessions && Valid(db, ToSyncEvent(sale)) && !sale.status.SyncDone?
    requires db.sessions[sale.session].store == sale.store
    requires key.1 in db.customers ==> db.customers[key.1].store == key.0
    ensures var e := ToSyncEvent(sale);
            (if e.credit > 0 && e.customer == Some(key.1) then e.credit else 0) == ToCents(CreditOn(sale, key))
  {
  }

  // ---------- Reading a balance again ----------

  /** A balance as the till reads it: cents rounded to the nearest FCFA. */
  function ReadBalance(balance: int): int {
    (2 * balance + CENTS_PER_FCFA) / (2 * CENTS_PER_FCFA)
  }

  lemma {:induction false} ReadBalanceError(balance: int)
    ensures -50 <= ToCents(ReadBalance(balance)) - balance <= 50
    ensures ToCents(ReadBalance(balance)) == balance <==> balance % CENTS_PER_FCFA == 0
  {
  }

  /** The book of a store replaced by balances the server gave. */
  function SaveCustomerBook(t: Till, store: Uuid, balances: map<Uuid, int>): Till {
    t.(customers :=
      (map key | key in t.customers && key.0 != store :: t.customers[key]) +
      (map c | c in balances :: (store, c) := ReadBalance(balances[c])))
  }

  /** One customer written with a balance the server gave. */
  function UpsertLocalCustomer(t: Till, key: CustomerKey, balance: int): Till {
    t.(customers := t.customers[key := ReadBalance(balance)])
  }

  /** The balance after a repayment, written back if the customer is cached. */
  function ApplyLocalCustomerPayment(t: Till, key: CustomerKey, balanceAfter: int): Till {
    if key in t.customers then UpsertLocalCustomer(t, key, balanceAfter) else t
  }

  /** A saved book leaves the store's customers of the book, at their balances to the FCFA,
      and no others; other stores, and sales and products, are as before. */
  lemma {:induction false} BookSavedWhole(t: Till, store: Uuid, balances: map<Uuid, int>, key: CustomerKey)
    ensures var after := SaveCustomerBook(t, store, balances);
            && after.sales == t.sales && after.products == t.products
            && (key.0 == store ==>
                  (key in after.customers <==> key.1 in balances)
                  && (key in after.customers ==> -50 <= ToCents(after.customers[key]) - balances[key.1] <= 50))
            && (key.0 != store ==>
                  (key in after.customers <==> key in t.customers)
                  && (key in t.customers ==> after.customers[key] == t.customers[key]))
  {
    if key.0 == store && key.1 in balances { ReadBalanceError(balances[key.1]); }
  }

  /** A repayment is written back to a cached customer only, and to no other. */
  lemma {:induction false} PaymentWrittenBack(t: Till, written: CustomerKey, balanceAfter: int, key: CustomerKey)
    ensures var after := ApplyLocalCustomerPayment(t, written, balanceAfter);
            && after.sales == t.sales && after.customers.Keys == t.customers.Keys
            && (key in t.customers ==>
                  if key == written then -50 <= ToCents(after.customers[key]) - balanceAfter <= 50
                  else after.customers[key] == t.customers[key])
  {
    ReadBalanceError(balanceAfter);
  }

  /** Credit of unsynced sales the server has booked already. */
  function BookedUnsynced(booked: seq<Sale>, key: CustomerKey): LocalSale -> int {
    (s: LocalSale) => if FindSale(booked, s.id) < |booked| then CreditOn(s, key) else 0
  }

  lemma {:induction false} PendingSplits(sales: map<Uuid, LocalSale>, booked: seq<Sale>, key: CustomerKey)
    ensures Total(sales, PendingCredit(key)) ==
              Total(sales, UnknownCredit(booked, key)) + Total(sales, BookedUnsynced(booked, key))
  {
    TotalSplit(sales, PendingCredit(key), UnknownCredit(booked, key), BookedUnsynced(booked, key));
  }

  /** The excess once a balance, however old, has replaced the cached one. */
  ghost function Reread(t: Till, db: Db, key: CustomerKey, balance: int): int {
    ToCents(ReadBalance(balance)) - Balance(db.entries, key.1) + ToCents(Total(t.sales, BookedUnsynced(db.sales, key)))
  }

  lemma {:induction false} RereadExcess(t: Till, db: Db, key: CustomerKey, balance: int)
    requires key in t.customers && t.customers[key] == ReadBalance(balance)
    ensures Excess(t, db, key) == Reread(t, db, key, balance)
  {
    PendingSplits(t.sales, db.sales, key);
  }

  // ---------- A balance read at one time and saved at another ----------

  /** Credit the server booked between two states, whatever its status on the till. */
  function BookedSince(before: seq<Sale>, after: seq<Sale>, key: CustomerKey): LocalSale -> int {
    (s: LocalSale) => if FindSale(before, s.id) == |before| && FindSale(after, s.id) < |after| then CreditFor(s, key)
      else 0
  }

  /** Credit booked between two states and already marked as synchronised. */
  function MarkedSince(before: seq<Sale>, after: seq<Sale>, key: CustomerKey): LocalSale -> int {
    (s: LocalSale) =>
      if s.status.SyncDone? && FindSale(before, s.id) == |before| && FindSale(after, s.id) < |after|
        then CreditFor(s, key) else 0
  }

  /** By how much the balance changed beyond what the sales of this till explain. */
  ghost function Unexplained(earlier: Db, t: Till, db: Db, key: CustomerKey): int {
    Balance(db.entries, key.1) - Balance(earlier.entries, key.1)
      - ToCents(Total(t.sales, BookedSince(earlier.sales, db.sales, key)))
  }

  lemma {:induction false} SinceSplits(sales: map<Uuid, LocalSale>, before: seq<Sale>, after: seq<Sale>,
      key: CustomerKey)
    requires forall id :: FindSale(before, id) < |before| ==> FindSale(after, id) < |after|
    ensures Total(sales, BookedUnsynced(after, key)) - Total(sales, BookedSince(before, after, key)) ==
            Total(sales, BookedUnsynced(before, key)) - Total(sales, MarkedSince(before, after, key))
  {
    var sum := (s: LocalSale) => BookedUnsynced(after, key)(s) + MarkedSince(before, after, key)(s);
    TotalSplit(sales, sum, BookedUnsynced(after, key), MarkedSince(before, after, key));
    TotalSplit(sales, sum, BookedUnsynced(before, key), BookedSince(before, after, key));
  }

  /** A balance read in one state and saved in a later one leaves exactly: its rounding,
      plus the credit booked before the reading and unsynced at the saving, minus the credit
      booked after the reading and marked before the saving, minus what else changed. */
  lemma {:induction false} SavedLate(earlier: Db, t: Till, db: Db, key: CustomerKey)
    requires forall id :: FindSale(earlier.sales, id) < |earlier.sales| ==> FindSale(db.sales, id) < |db.sales|
    ensures var balance := Balance(earlier.entries, key.1);
            Reread(t, db, key, balance) ==
              ToCents(ReadBalance(balance)) - balance
              + ToCents(Total(t.sales, BookedUnsynced(earlier.sales, key)))
              - ToCents(Total(t.sales, MarkedSince(earlier.sales, db.sales, key)))
              - Unexplained(earlier, t, db, key)
  {
    SinceSplits(t.sales, earlier.sales, db.sales, key);
  }

  lemma {:induction false} SinceBooked(before: seq<Sale>, booked: seq<Sale>, row: Sale, s: LocalSale, key: CustomerKey)
    requires FindSale(booked, row.id) == |booked| && FindSale(before, row.id) == |before|
    ensures BookedSince(before, booked + [row], key)(s) ==
            if s.id == row.id then CreditFor(s, key) else BookedSince(before, booked, key)(s)
  {
    var more := booked + [row];
    assert more[|booked|] == row;
    var at := FindSale(booked, s.id);
    if at < |booked| {
      assert more[at].id == s.id;
    } else if s.id != row.id {
      assert forall i :: 0 <= i < |more| ==> more[i].id != s.id;
      assert FindSale(more, s.id) == |more|;
    }
  }

  lemma {:induction false} BookingUnexplained(earlier: Db, t: Till, db: Db, e: SyncEvent, after: Db, key: CustomerKey)
    requires KeyedById(t) && FindSale(db.sales, e.entity) == |db.sales|
               && FindSale(earlier.sales, e.entity) == |earlier.sales|
    requires Valid(db, e)
    requires after.sales == db.sales + [RowFor(db, e)] && after.entries == db.entries + CreditEntries(TermsOf(e))
    requires e.entity in t.sales ==>
               && ToSyncEvent(t.sales[e.entity]) == e && !t.sales[e.entity].status.SyncDone?
               && db.sessions[e.session].store == t.sales[e.entity].store
    requires key.1 in db.customers ==> db.customers[key.1].store == key.0
    ensures Unexplained(earlier, t, after, key) ==
            Unexplained(earlier, t, db, key) + if e.entity in t.sales then 0 else Owed(e, key.1)
  {
    BookedCredit(db.entries, TermsOf(e), key.1);
    var f, g := BookedSince(earlier.sales, db.sales, key), BookedSince(earlier.sales, after.sales, key);
    forall id | id in t.sales
      ensures g(t.sales[id]) == if id == e.entity then CreditFor(t.sales[id], key) else f(t.sales[id])
    {
      SinceBooked(earlier.sales, db.sales, RowFor(db, e), t.sales[id], key);
    }
    if e.entity in t.sales {
      BookedForKey(db, t.sales[e.entity], key);
      TotalExcept(t.sales, e.entity, f, g);
    } else {
      TotalAgree(t.sales, f, g);
    }
  }

  /** Cancelling on the till a sale booked since removes what explained its credit. */
  lemma {:induction false} CancellingUnexplained(earlier: Db, t: Till, db: Db, id: Uuid, key: CustomerKey)
    requires CancelledTill(t, id).1
    ensures Unexplained(earlier, CancelledTill(t, id).0, db, key) ==
            Unexplained(earlier, t, db, key) + ToCents(BookedSince(earlier.sales, db.sales, key)(t.sales[id]))
  {
    TotalPick(t.sales, id, BookedSince(earlier.sales, db.sales, key));
  }

  lemma {:induction false} CreatingUnexplained(earlier: Db, t: Till, db: Db, x: SaleInput, stamp: Stamp,
      key: CustomerKey)
    requires CreateSpec(t, x, stamp).Ok? && FindSale(db.sales, stamp.id) == |db.sales|
    ensures Unexplained(earlier, CreateSpec(t, x, stamp).value.0, db, key) == Unexplained(earlier, t, db, key)
  {
    TotalAdd(t.sales, stamp.id, CreateSpec(t, x, stamp).value.1, BookedSince(earlier.sales, db.sales, key));
  }

  /** Statuses and cached balances play no part. */
  lemma {:induction false} SameUnexplained(earlier: Db, t: Till, after: Till, db: Db, key: CustomerKey)
    requires t.sales.Keys == after.sales.Keys
    requires forall id :: id in t.sales ==>
               after.sales[id].id == t.sales[id].id && CreditFor(after.sales[id], key) == CreditFor(t.sales[id], key)
    ensures Unexplained(earlier, after, db, key) == Unexplained(earlier, t, db, key)
  {
    TotalSame(t.sales, after.sales, BookedSince(earlier.sales, db.sales, key));
  }
}
