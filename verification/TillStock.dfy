/** What the till lets out of its stock: a cart is recorded exactly when the cached stock
    covers each of its lines, and counters stay within the levels they are held against. */
module TillStock {
  import opened Sums
  import opened Tables
  import opened LocalTables
  import opened LocalSales
  import opened SyncEngine
  import opened Browser
  import opened Counters

  // ---------- When a cart is recorded ----------

  /** The cached stock covers this many thousandths: what it knows of the level, less what
      unsynced sales take; a level known to be unknown covers anything. */
  predicate Covers(p: LocalProduct, milli: int) {
    match (p.stockMilli, p.stock)
    case (Known(level), _) => milli <= level - Pending(p)
    case (_, Known(level)) => milli <= level - Pending(p)
    case (_, Unknown) => true
    case (_, Absent) => milli <= -Pending(p)
  }

  predicate LineCovered(t: Till, store: Uuid, line: CartLine) {
    && StockKey(store, line.product) in t.products && t.products[StockKey(store, line.product)].active
    && Covers(t.products[StockKey(store, line.product)], CartMilli(line))
  }

  /** What a line costs: its own price if it has one, else the cached price. */
  function LinePrice(t: Till, store: Uuid): CartLine -> int {
    (line: CartLine) =>
      if StockKey(store, line.product) in t.products
      then
        var p := t.products[StockKey(store, line.product)];
        TruncatedLineTotal(OrElse(line.unitPrice, p.sellingPrice), CartMilli(line))
      else 0
  }

  lemma {:induction false} NoProblemIff(t: Till, store: Uuid, line: CartLine)
    ensures LineProblem(t.products, store, line).None? <==> LineCovered(t, store, line)
  {
  }

  lemma {:induction false} AllLinesIff(t: Till, store: Uuid, lines: seq<CartLine>)
    ensures ItemsOf(t.products, store, lines).Ok? <==>
              forall i :: 0 <= i < |lines| ==> LineCovered(t, store, lines[i])
    ensures ItemsOf(t.products, store, lines).Ok? ==>
              Sum(ItemsOf(t.products, store, lines).value, LocalLineTotals()) == Sum(lines, LinePrice(t, store))
  {
    if |lines| > 0 {
      var front, last := lines[..|lines| - 1], lines[|lines| - 1];
      assert forall i :: 0 <= i < |front| ==> front[i] == lines[i];
      AllLinesIff(t, store, front);
      NoProblemIff(t, store, last);
      if ItemsOf(t.products, store, lines).Ok? {
        SumPush(ItemsOf(t.products, store, front).value, ItemOf(t.products[StockKey(store, last.product)], last),
                LocalLineTotals());
      }
    }
  }

  /** A cart is recorded if and only if it is not empty, has a customer if it is put on the
      book, its payments settle the prices of its lines, its identifier is new, and the
      cached stock covers every line. */
  lemma {:induction false} RecordedIff(t: Till, x: SaleInput, stamp: Stamp)
    ensures CreateSpec(t, x, stamp).Ok? <==>
              && x.lines != [] && (x.credit > 0 ==> x.customer.Some?)
              && (forall i :: 0 <= i < |x.lines| ==> LineCovered(t, x.store, x.lines[i]))
              && LocallySettles(x.legs, Sum(x.lines, LinePrice(t, x.store)), x.credit)
              && stamp.id !in t.sales
  {
    AllLinesIff(t, x.store, x.lines);
  }

  // ---------- Counters within levels ----------

  function LevelOf(p: LocalProduct): Option<int> {
    match (p.stockMilli, p.stock)
    case (Known(level), _) => Some(level)
    case (_, Known(level)) => Some(level)
    case (_, _) => None
  }

  /** No more is taken from a known level than it holds. */
  predicate Within(t: Till) {
    forall key :: key in t.products && LevelOf(t.products[key]).Some? ==>
      0 <= LevelOf(t.products[key]).value && Pending(t.products[key]) <= LevelOf(t.products[key]).value
  }

  lemma {:induction false} LastIsOnly(items: seq<LocalItem>, i: nat)
    requires DistinctItems(items) && i < |items|
    ensures LastMilli(items, items[i].product) == ItemMilli(items[i])
  {
    var last := |items| - 1;
    if i < last { LastIsOnly(items[..last], i); }
  }

  lemma {:induction false} RaisedWithin(t: Till, store: Uuid, items: seq<LocalItem>, key: StockKey)
    requires Within(t) && DistinctItems(items) && key in t.products
    requires forall i :: 0 <= i < |items| ==>
               && StockKey(store, items[i].product) in t.products
               && Covers(t.products[StockKey(store, items[i].product)], ItemMilli(items[i]))
    ensures key in Raised(t.products, store, items)
    ensures var p := Raised(t.products, store, items)[key];
            LevelOf(p) == LevelOf(t.products[key]) && (LevelOf(p).Some? ==> Pending(p) <= LevelOf(p).value)
  {
    RaisedAt(t.products, store, items, key);
    if key.store == store && Mentions(items, key.product) {
      var i :| 0 <= i < |items| && items[i].product == key.product;
      LastIsOnly(items, i);
    }
  }

  /** A recorded cart of distinct products takes no more than the known levels hold. */
  lemma {:induction false} CreationWithin(t: Till, x: SaleInput, stamp: Stamp)
    requires Within(t) && CreateSpec(t, x, stamp).Ok? && DistinctItems(CreateSpec(t, x, stamp).value.1.items)
    ensures Within(CreateSpec(t, x, stamp).value.0)
  {
    var (after, sale) := CreateSpec(t, x, stamp).value;
    AllLinesIff(t, x.store, x.lines);
    ItemsKnown(t.products, x.store, x.lines);
    RaisedKeys(t.products, x.store, sale.items);
    forall i | 0 <= i < |sale.items|
      ensures Covers(t.products[StockKey(x.store, sale.items[i].product)], ItemMilli(sale.items[i]))
    {
      assert LineCovered(t, x.store, x.lines[i]);
    }
    forall key | key in after.products ensures var p := after.products[key];
      LevelOf(p) == LevelOf(t.products[key]) && (LevelOf(p).Some? ==> Pending(p) <= LevelOf(p).value) {
      RaisedWithin(t, x.store, sale.items, key);
    }
  }

  lemma {:induction false} LoweredWithin(t: Till, sale: LocalSale, key: StockKey)
    requires Within(t) && PositiveItems(sale.items) && key in t.products
    ensures var p := Lowered(t.products, sale)[key];
            LevelOf(p) == LevelOf(t.products[key]) && (LevelOf(p).Some? ==> Pending(p) <= LevelOf(p).value)
  {
    SoldNonneg(sale.items, key.product);
  }

  lemma {:induction false} LoweringWithin(t: Till, after: Till, sale: LocalSale)
    requires Within(t) && PositiveItems(sale.items) && after.products == Lowered(t.products, sale)
    ensures Within(after)
  {
    forall key | key in after.products ensures var p := after.products[key];
      LevelOf(p) == LevelOf(t.products[key]) && (LevelOf(p).Some? ==> Pending(p) <= LevelOf(p).value) {
      LoweredWithin(t, sale, key);
    }
  }

  // ---------- Every run between two refreshes ----------

  /** No new levels, no recount. */
  predicate KeepsLevels(a: Action) {
    !a.Refresh? && !a.Repair?
  }

  ghost predicate FairCarts(b: Profile, actions: seq<Action>) {
    |actions| > 0 ==>
      && FairCarts(b, actions[..|actions| - 1])
      && FairCart(Run(b, actions[..|actions| - 1]), actions[|actions| - 1])
  }

  lemma {:induction false} AppliedWithin(t: Till, id: Uuid, reply: Reply)
    requires Within(t) && AllPositive(t.sales)
    ensures Within(Applied(t, id, reply)) && AllPositive(Applied(t, id, reply).sales)
  {
    if reply.Confirmed? && id in t.sales && !t.sales[id].status.SyncDone? {
      LoweringWithin(t, SyncedTill(t, id, reply.serverId), t.sales[id]);
    }
  }

  lemma {:induction false} CancelledWithin(t: Till, id: Uuid)
    requires Within(t) && AllPositive(t.sales)
    ensures Within(CancelledTill(t, id).0) && AllPositive(CancelledTill(t, id).0.sales)
  {
    if CancelledTill(t, id).1 { LoweringWithin(t, CancelledTill(t, id).0, t.sales[id]); }
  }

  lemma {:induction false} RequeuedWithin(t: Till)
    requires Within(t) && AllPositive(t.sales)
    ensures Within(RequeuedTill(t)) && AllPositive(RequeuedTill(t).sales)
  {
    forall id | id in t.sales ensures RequeuedTill(t).sales[id].items == t.sales[id].items {
    }
  }

  lemma {:induction false} ActionWithin(b: Profile, a: Action)
    requires Within(b.till) && AllPositive(b.till.sales) && KeepsLevels(a) && FairCart(b, a)
    ensures Within(TillAfter(b, a)) && AllPositive(TillAfter(b, a).sales)
  {
    match a
    case Create(input, stamp) => if CreateSpec(b.till, input, stamp).Ok? { CreationWithin(b.till, input, stamp); }
    case CancelSale(id) => CancelledWithin(b.till, id);
    case Requeue(owner) => RequeuedWithin(b.till);
    case Apply(owner, id, reply) => AppliedWithin(b.till, id, reply);
    case _ =>
  }

  /** In every run of fair carts between two refreshes, whatever is confirmed, refused, late
      or cancelled, a known level less its counter stays at or above zero. */
  lemma {:induction false} WithinInEveryRun(b: Profile, actions: seq<Action>)
    requires Within(b.till) && AllPositive(b.till.sales) && FairCarts(b, actions)
    requires forall i :: 0 <= i < |actions| ==> KeepsLevels(actions[i])
    ensures Within(Run(b, actions).till) && AllPositive(Run(b, actions).till.sales)
  {
    if |actions| > 0 {
      WithinInEveryRun(b, actions[..|actions| - 1]);
      ActionWithin(Run(b, actions[..|actions| - 1]), actions[|actions| - 1]);
    }
  }
}
