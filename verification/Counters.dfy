/** How wrong a pending counter can be: never too high, and put right by a refresh, in every
    run of carts of positive quantities, timely or not, with repeated products or not. */
module Counters {
  import opened Sums
  import opened Tables
  import opened Sync
  import opened LocalTables
  import opened LocalSales
  import opened Catalogue
  import opened Browser

  /** No counter exceeds what the unsynced sales take, or is negative. */
  ghost predicate NeverTooHigh(t: Till) {
    forall key :: key in t.products ==> 0 <= Pending(t.products[key]) <= PendingSum(t.sales, key)
  }

  /** Every sale, synchronised or not, is of positive quantities. */
  predicate AllPositive(sales: map<Uuid, LocalSale>) {
    forall id :: id in sales ==> PositiveItems(sales[id].items)
  }

  /** The till as the theorems below need it; an empty one is. */
  ghost predicate Cautious(t: Till) {
    NeverTooHigh(t) && AllPositive(t.sales)
  }

  lemma {:induction false} EmptyIsCautious(t: Till)
    requires t.products == map[] && t.sales == map[]
    ensures Cautious(t)
  {
  }

  predicate PositiveCart(b: Profile, a: Action) {
    a.Create? && CreateSpec(b.till, a.input, a.stamp).Ok? ==>
      PositiveItems(CreateSpec(b.till, a.input, a.stamp).value.1.items)
  }

  ghost predicate PositiveCarts(b: Profile, actions: seq<Action>) {
    |actions| > 0 ==>
      && PositiveCarts(b, actions[..|actions| - 1])
      && PositiveCart(Run(b, actions[..|actions| - 1]), actions[|actions| - 1])
  }

  // ---------- Each operation ----------

  lemma {:induction false} LastIsNoMore(items: seq<LocalItem>, p: Uuid)
    requires PositiveItems(items)
    ensures 0 <= LastMilli(items, p) <= Sold(items, p)
  {
    if |items| > 0 {
      var front := items[..|items| - 1];
      assert items == front + [items[|items| - 1]];
      SoldPush(front, items[|items| - 1], p);
      LastIsNoMore(front, p);
    }
  }

  lemma {:induction false} CreatedCautious(t: Till, x: SaleInput, stamp: Stamp)
    requires Cautious(t) && CreateSpec(t, x, stamp).Ok? && PositiveItems(CreateSpec(t, x, stamp).value.1.items)
    ensures Cautious(CreateSpec(t, x, stamp).value.0)
  {
    ItemsKnown(t.products, x.store, x.lines);
    RecordedCautious(t, CreateSpec(t, x, stamp).value.1);
  }

  lemma {:induction false} RecordedCautious(t: Till, sale: LocalSale)
    requires Cautious(t) && sale.id !in t.sales && !sale.status.SyncDone? && PositiveItems(sale.items)
    requires forall i :: 0 <= i < |sale.items| ==> StockKey(sale.store, sale.items[i].product) in t.products
    ensures Cautious(t.(sales := t.sales[sale.id := sale], products := Raised(t.products, sale.store, sale.items)))
  {
    var products := Raised(t.products, sale.store, sale.items);
    RaisedKeys(t.products, sale.store, sale.items);
    forall key | key in products
      ensures 0 <= Pending(products[key]) <= PendingSum(t.sales[sale.id := sale], key)
    {
      RecordedCounter(t, sale, key);
    }
  }

  lemma {:induction false} RecordedCounter(t: Till, sale: LocalSale, key: StockKey)
    requires NeverTooHigh(t) && sale.id !in t.sales && !sale.status.SyncDone? && PositiveItems(sale.items)
    requires forall i :: 0 <= i < |sale.items| ==> StockKey(sale.store, sale.items[i].product) in t.products
    requires key in t.products
    ensures key in Raised(t.products, sale.store, sale.items)
    ensures 0 <= Pending(Raised(t.products, sale.store, sale.items)[key]) <= PendingSum(t.sales[sale.id := sale], key)
  {
    RaisedAt(t.products, sale.store, sale.items, key);
    CreatedSum(t.sales, sale, key);
    LastIsNoMore(sale.items, key.product);
  }

  lemma {:induction false} LoweredCautious(t: Till, id: Uuid, key: StockKey)
    requires Cautious(t) && key in t.products && id in t.sales && !t.sales[id].status.SyncDone?
    ensures 0 <= Pending(Lowered(t.products, t.sales[id])[key])
              <= PendingSum(t.sales, key) - UnsyncedMilli(key)(t.sales[id])
  {
    SoldNonneg(t.sales[id].items, key.product);
    if key.store == t.sales[id].store { PendingSumCovers(t.sales, id, key.product); }
  }

  lemma {:induction false} SyncedCautious(t: Till, id: Uuid, serverId: Uuid)
    requires Cautious(t)
    ensures Cautious(SyncedTill(t, id, serverId))
  {
    if id in t.sales && !t.sales[id].status.SyncDone? {
      var after := SyncedTill(t, id, serverId);
      forall key | key in t.products
        ensures 0 <= Pending(after.products[key]) <= PendingSum(after.sales, key)
      {
        LoweredCautious(t, id, key);
        TotalReplace(t.sales, id, after.sales[id], UnsyncedMilli(key));
      }
    }
  }

  lemma {:induction false} CancelledCautious(t: Till, id: Uuid)
    requires Cautious(t)
    ensures Cautious(CancelledTill(t, id).0)
  {
    if id in t.sales && t.sales[id].status.PendingSync? {
      var after := CancelledTill(t, id).0;
      forall key | key in t.products
        ensures 0 <= Pending(after.products[key]) <= PendingSum(after.sales, key)
      {
        LoweredCautious(t, id, key);
        TotalPick(t.sales, id, UnsyncedMilli(key));
      }
    }
  }

  lemma {:induction false} RefusedCautious(t: Till, id: Uuid, code: Code)
    requires Cautious(t)
    ensures Cautious(ConflictTill(t, id, code))
  {
    if id in t.sales {
      var after := ConflictTill(t, id, code);
      forall key | key in t.products
        ensures 0 <= Pending(after.products[key]) <= PendingSum(after.sales, key)
      {
        ConflictSum(t.sales, id, after.sales[id], key);
        SoldNonneg(t.sales[id].items, key.product);
      }
    }
  }

  lemma {:induction false} RequeuedSum(sales: map<Uuid, LocalSale>, after: map<Uuid, LocalSale>, key: StockKey)
    requires after == map id | id in sales :: Requeued(sales[id])
    ensures PendingSum(after, key) == PendingSum(sales, key)
  {
    forall id | id in sales ensures UnsyncedMilli(key)(after[id]) == UnsyncedMilli(key)(sales[id]) {
      assert after[id] == Requeued(sales[id]);
    }
    TotalSame(sales, after, UnsyncedMilli(key));
  }

  lemma {:induction false} RequeuedPositive(sales: map<Uuid, LocalSale>, after: map<Uuid, LocalSale>)
    requires after == map id | id in sales :: Requeued(sales[id])
    requires AllPositive(sales)
    ensures AllPositive(after)
  {
    forall id | id in after ensures PositiveItems(after[id].items) { assert after[id].items == sales[id].items; }
  }

  lemma {:induction false} RequeuedCautious(t: Till)
    requires Cautious(t)
    ensures Cautious(RequeuedTill(t))
  {
    var after := RequeuedTill(t).sales;
    RequeuedPositive(t.sales, after);
    forall key | key in t.products ensures PendingSum(after, key) == PendingSum(t.sales, key) {
      RequeuedSum(t.sales, after, key);
    }
  }

  lemma {:induction false} RepairedCautious(t: Till)
    requires Cautious(t)
    ensures Cautious(Repaired(t))
  {
    RepairEstablishesIndex(t);
    forall key | key in t.products ensures PendingSum(t.sales, key) >= 0 { PendingNonneg(t.sales, key); }
    assert forall key :: key in t.products ==> CounterRight(Repaired(t).products, Repaired(t).sales, key);
  }

  /** A refresh puts every counter of its store right: one that no unsynced sale mentions
      is at zero already. */
  lemma {:induction false} RefreshIsRight(t: Till, store: Uuid, cs: seq<ServerProduct>, key: StockKey)
    requires Cautious(t) && RefreshSpec(t, store, cs).Ok?
    requires key.store == store && key in RefreshSpec(t, store, cs).value.products
    ensures CounterRight(RefreshSpec(t, store, cs).value.products, t.sales, key)
  {
    RefreshRightIff(t, store, cs, key);
    if !Mentioned(t.sales, key) { UnmentionedIsZero(t.sales, key); }
  }

  lemma {:induction false} RefreshedCautious(t: Till, store: Uuid, cs: seq<ServerProduct>)
    requires Cautious(t) && RefreshSpec(t, store, cs).Ok?
    ensures Cautious(RefreshSpec(t, store, cs).value)
  {
    var after := RefreshSpec(t, store, cs).value;
    forall key | key in after.products ensures 0 <= Pending(after.products[key]) <= PendingSum(after.sales, key) {
      BuiltAt(t, store, cs, key);
      PendingNonneg(t.sales, key);
      if key.store == store { RefreshIsRight(t, store, cs, key); }
    }
  }

  // ---------- Every run ----------

  lemma {:induction false} ActionCautious(b: Profile, a: Action)
    requires Cautious(b.till) && PositiveCart(b, a)
    ensures Cautious(TillAfter(b, a))
  {
    match a
    case Create(input, stamp) => if CreateSpec(b.till, input, stamp).Ok? { CreatedCautious(b.till, input, stamp); }
    case CancelSale(id) => CancelledCautious(b.till, id);
    case Refresh(store, catalogue) =>
      if RefreshSpec(b.till, store, catalogue).Ok? { RefreshedCautious(b.till, store, catalogue); }
    case Repair => RepairedCautious(b.till);
    case Requeue(owner) => RequeuedCautious(b.till);
    case Apply(owner, id, reply) =>
      if reply.Confirmed? { SyncedCautious(b.till, id, reply.serverId); }
      if reply.Refused? { RefusedCautious(b.till, id, reply.code); }
    case _ =>
  }

  /** Whatever the tabs do, late refusals, crashes and carts that repeat a product included:
      the till never sets aside more of a product than its unsynced sales take. */
  lemma {:induction false} CautiousInEveryRun(b: Profile, actions: seq<Action>)
    requires Cautious(b.till) && PositiveCarts(b, actions)
    ensures Cautious(Run(b, actions).till)
  {
    if |actions| > 0 {
      CautiousInEveryRun(b, actions[..|actions| - 1]);
      ActionCautious(Run(b, actions[..|actions| - 1]), actions[|actions| - 1]);
    }
  }

  /** After any such run, a refresh that goes through leaves every counter of its store right. */
  lemma {:induction false} RefreshAfterEveryRun(b: Profile, actions: seq<Action>, store: Uuid, cs: seq<ServerProduct>,
      key: StockKey)
    requires Cautious(b.till) && PositiveCarts(b, actions) && RefreshSpec(Run(b, actions).till, store, cs).Ok?
    requires key.store == store && key in RefreshSpec(Run(b, actions).till, store, cs).value.products
    ensures var after := RefreshSpec(Run(b, actions).till, store, cs).value;
            CounterRight(after.products, after.sales, key)
  {
    CautiousInEveryRun(b, actions);
    RefreshIsRight(Run(b, actions).till, store, cs, key);
  }
}
