/** Refreshing the cached catalogue and rebuilding the pending counters at start-up. */
module Catalogue {
  import opened Sums
  import opened Tables
  import opened LocalTables
  import opened LocalSales

  /** A product as the server sends it: price in cents, stock in thousandths. Servers of
      the previous generation send no sale unit. */
  datatype ServerProduct = ServerProduct(id: Uuid, name: string, price: nat, saleUnit: Option<SaleUnit>, stock: int,
      active: bool)

  // ---------- Counting what the unsynced sales take ----------

  predicate Takes(s: LocalSale, key: StockKey) {
    !s.status.SyncDone? && s.store == key.store && Mentions(s.items, key.product)
  }

  ghost predicate Mentioned(sales: map<Uuid, LocalSale>, key: StockKey) {
    exists id :: id in sales && Takes(sales[id], key)
  }

  ghost predicate Tallies(pending: map<StockKey, int>, sales: map<Uuid, LocalSale>) {
    forall key ::
      && (key in pending <==> Mentioned(sales, key))
      && PendingSum(sales, key) == if key in pending then pending[key] else 0
  }

  method AddItems(pending: map<StockKey, int>, store: Uuid, items: seq<LocalItem>) returns (after: map<StockKey, int>)
    ensures Added(pending, store, items, after)
  {
    after := pending;
    for k := 0 to |items|
      invariant Added(pending, store, items[..k], after)
    {
      var key := StockKey(store, items[k].product);
      ghost var before := after;
      after := after[key := (if key in after then after[key] else 0) + ItemMilli(items[k])];
      AddedOneMore(pending, store, items[..k], items[k], before, after);
      assert items[..k + 1] == items[..k] + [items[k]];
    }
    assert items[..|items|] == items;
  }

  ghost predicate Added(pending: map<StockKey, int>, store: Uuid, items: seq<LocalItem>, after: map<StockKey, int>) {
    forall key: StockKey ::
      && (key in after <==> key in pending || (key.store == store && Mentions(items, key.product)))
      && (key in after ==>
            after[key] == (if key in pending then pending[key] else 0)
                          + if key.store == store then Sold(items, key.product) else 0)
  }

  lemma {:induction false} AddedOneMore(pending: map<StockKey, int>, store: Uuid, items: seq<LocalItem>,
      item: LocalItem, before: map<StockKey, int>, after: map<StockKey, int>)
    requires Added(pending, store, items, before)
    requires var key := StockKey(store, item.product);
             after == before[key := (if key in before then before[key] else 0) + ItemMilli(item)]
    ensures Added(pending, store, items + [item], after)
  {
    forall key: StockKey
      ensures key in after <==> key in pending || (key.store == store && Mentions(items + [item], key.product))
      ensures key in after ==>
                after[key] == (if key in pending then pending[key] else 0)
                  + if key.store == store then Sold(items + [item], key.product) else 0
    {
      SoldPush(items, item, key.product);
    }
  }

  lemma {:induction false} TallyOneMore(pending: map<StockKey, int>, sales: map<Uuid, LocalSale>, id: Uuid,
      sale: LocalSale, after: map<StockKey, int>)
    requires Tallies(pending, sales) && id !in sales
    requires if sale.status.SyncDone? then after == pending else Added(pending, sale.store, sale.items, after)
    ensures Tallies(after, sales[id := sale])
  {
    forall key
      ensures key in after <==> Mentioned(sales[id := sale], key)
      ensures PendingSum(sales[id := sale], key) == if key in after then after[key] else 0
    {
      MentionedOneMore(sales, id, sale, key);
      TakesOneMore(sales, id, sale, key);
    }
  }

  lemma {:induction false} TakesOneMore(sales: map<Uuid, LocalSale>, id: Uuid, sale: LocalSale, key: StockKey)
    requires id !in sales
    ensures PendingSum(sales[id := sale], key) == PendingSum(sales, key) + UnsyncedMilli(key)(sale)
    ensures !Mentions(sale.items, key.product) ==> Sold(sale.items, key.product) == 0
    ensures !Mentioned(sales, key) ==> PendingSum(sales, key) == 0
  {
    TotalAdd(sales, id, sale, UnsyncedMilli(key));
    if !Mentions(sale.items, key.product) { SumZero(sale.items, MilliOf(key.product)); }
    if !Mentioned(sales, key) { UnmentionedIsZero(sales, key); }
  }

  lemma {:induction false} MentionedOneMore(sales: map<Uuid, LocalSale>, id: Uuid, sale: LocalSale, key: StockKey)
    requires id !in sales
    ensures Mentioned(sales[id := sale], key) <==> Mentioned(sales, key) || Takes(sale, key)
  {
    var all := sales[id := sale];
    if Takes(sale, key) { assert all[id] == sale; }
    if other :| other in sales && Takes(sales[other], key) { assert all[other] == sales[other]; }
  }

  lemma {:induction false} NothingTallied()
    ensures Tallies(map[], map[])
  {
  }

  method AddSale(pending: map<StockKey, int>, ghost done: map<Uuid, LocalSale>, ghost id: Uuid, sale: LocalSale)
    returns (after: map<StockKey, int>)
    requires Tallies(pending, done) && id !in done
    ensures Tallies(after, done[id := sale])
  {
    after := pending;
    if !sale.status.SyncDone? { after := AddItems(pending, sale.store, sale.items); }
    TallyOneMore(pending, done, id, sale, after);
  }

  /** `done` is the part of `sales` outside `todo`, and its quantities are valid. */
  ghost predicate Checked(sales: map<Uuid, LocalSale>, todo: set<Uuid>, strict: bool) {
    todo <= sales.Keys && (strict ==> ValidQuantities(sales - todo))
  }

  lemma {:induction false} CheckedOneMore(sales: map<Uuid, LocalSale>, todo: set<Uuid>, id: Uuid, strict: bool)
    requires Checked(sales, todo, strict) && id in todo
    requires strict && !sales[id].status.SyncDone? ==> PositiveItems(sales[id].items)
    ensures Checked(sales, todo - {id}, strict)
    ensures sales - (todo - {id}) == (sales - todo)[id := sales[id]]
  {
    var before, after := sales - todo, sales - (todo - {id});
    assert after == before[id := sales[id]];
    if strict {
      forall other | other in after && !after[other].status.SyncDone? ensures PositiveItems(after[other].items) {
        if other != id { assert before[other] == after[other]; }
      }
    }
  }

  /** Counters of the unsynced sales; refused when `strict` and one of their quantities
      is not positive. */
  method PendingQuantities(sales: map<Uuid, LocalSale>, strict: bool) returns (r: Option<map<StockKey, int>>)
    ensures r.Some? ==> Tallies(r.value, sales)
    ensures r.Some? <==> (strict ==> ValidQuantities(sales))
  {
    var pending: map<StockKey, int> := map[];
    var todo := sales.Keys;
    NothingTallied();
    assert sales - todo == map[];
    while todo != {}
      invariant Checked(sales, todo, strict)
      invariant Tallies(pending, sales - todo)
      decreases |todo|
    {
      var id :| id in todo;
      if strict && !sales[id].status.SyncDone? && !PositiveItems(sales[id].items) { return None; }
      CheckedOneMore(sales, todo, id, strict);
      pending := AddSale(pending, sales - todo, id, sales[id]);
      todo := todo - {id};
    }
    assert sales - todo == sales;
    return Some(pending);
  }

  lemma {:induction false} UnmentionedIsZero(sales: map<Uuid, LocalSale>, key: StockKey)
    requires !Mentioned(sales, key)
    ensures PendingSum(sales, key) == 0
  {
    forall id | id in sales ensures UnsyncedMilli(key)(sales[id]) == 0 {
      if !sales[id].status.SyncDone? && sales[id].store == key.store { SumZero(sales[id].items, MilliOf(key.product)); }
    }
    TotalZero(sales, UnsyncedMilli(key));
  }

  // ---------- Refreshing a store's catalogue ----------

  /** Prices must be whole FCFA, and the quantity reader knows no minus sign. */
  function Unreadable(c: ServerProduct): Option<LocalError> {
    if c.price % 100 != 0 then Some(InvalidPrice)
    else if c.stock < 0 then Some(InvalidQuantity)
    else None
  }

  /** The old counter stands in when no unsynced sale mentions the product. */
  ghost function RefreshedCounter(t: Till, key: StockKey): int {
    if Mentioned(t.sales, key) then PendingSum(t.sales, key)
    else if key in t.products then Pending(t.products[key]) else 0
  }

  function CachedProduct(c: ServerProduct, counter: int): LocalProduct {
    if c.saleUnit.Some? then
      LocalProduct(c.name, c.price / 100, c.saleUnit, c.active, Known(c.stock), Absent, Some(counter), None)
    else
      LocalProduct(c.name, c.price / 100, None, c.active, Absent, Known(c.stock), None, Some(counter))
  }

  ghost function Built(t: Till, store: Uuid, cs: seq<ServerProduct>): Result<map<StockKey, LocalProduct>, LocalError> {
    if |cs| == 0 then Ok(map[])
    else
      var before, c := Built(t, store, cs[..|cs| - 1]), cs[|cs| - 1];
      if before.Err? then before
      else if Unreadable(c).Some? then Err(Unreadable(c).value)
      else Ok(before.value[StockKey(store, c.id) := CachedProduct(c, RefreshedCounter(t, StockKey(store, c.id)))])
  }

  function Elsewhere(products: map<StockKey, LocalProduct>, store: Uuid): map<StockKey, LocalProduct> {
    map key | key in products && key.store != store :: products[key]
  }

  ghost function RefreshSpec(t: Till, store: Uuid, cs: seq<ServerProduct>): Result<Till, LocalError> {
    var built := Built(t, store, cs);
    if built.Err? then Err(built.error)
    else Ok(t.(products := Elsewhere(t.products, store) + built.value))
  }

  method SaveProductCatalog(db: TillDb, store: Uuid, cs: seq<ServerProduct>) returns (problem: Option<LocalError>)
    modifies db
    ensures problem.None? ==> RefreshSpec(old(db.Snapshot()), store, cs) == Ok(db.Snapshot())
    ensures problem.Some? ==>
              db.Snapshot() == old(db.Snapshot()) && RefreshSpec(db.Snapshot(), store, cs) == Err(problem.value)
  {
    var pending := PendingQuantities(map id | id in db.sales && db.sales[id].store == store :: db.sales[id], false);
    TallyOfStore(db.sales, store, pending.value);
    var built := BuildLocalProducts(db.Snapshot(), db.products, store, cs, pending.value);
    if built.Err? { return Some(built.error); }
    db.products := Elsewhere(db.products, store) + built.value;
    return None;
  }

  method BuildLocalProducts(ghost t: Till, existing: map<StockKey, LocalProduct>, store: Uuid, cs: seq<ServerProduct>,
      pending: map<StockKey, int>)
    returns (r: Result<map<StockKey, LocalProduct>, LocalError>)
    requires existing == t.products
    requires forall key: StockKey :: key.store == store ==>
               && (key in pending <==> Mentioned(t.sales, key))
               && (key in pending ==> pending[key] == PendingSum(t.sales, key))
    ensures r == Built(t, store, cs)
  {
    var built: map<StockKey, LocalProduct> := map[];
    for k := 0 to |cs|
      invariant Built(t, store, cs[..k]) == Ok(built)
    {
      var c := cs[k];
      assert cs[..k + 1][..k] == cs[..k];
      FirstUnreadableStays(t, store, cs, k + 1);
      if c.price % 100 != 0 { return Err(InvalidPrice); }
      if c.stock < 0 { return Err(InvalidQuantity); }
      var key := StockKey(store, c.id);
      var counter := if key in pending then pending[key] else if key in existing then Pending(existing[key]) else 0;
      built := built[key := CachedProduct(c, counter)];
    }
    assert cs[..|cs|] == cs;
    return Ok(built);
  }

  lemma {:induction false} FirstUnreadableStays(t: Till, store: Uuid, cs: seq<ServerProduct>, k: nat)
    requires k <= |cs|
    ensures Built(t, store, cs[..k]).Err? ==> Built(t, store, cs) == Built(t, store, cs[..k])
    decreases |cs|
  {
    if k < |cs| {
      FirstUnreadableStays(t, store, cs[..|cs| - 1], k);
      assert cs[..|cs| - 1][..k] == cs[..k];
    } else {
      assert cs[..k] == cs;
    }
  }

  function OfStore(sales: map<Uuid, LocalSale>, store: Uuid): map<Uuid, LocalSale> {
    map id | id in sales && sales[id].store == store :: sales[id]
  }

  lemma {:induction false} StoreSum(sales: map<Uuid, LocalSale>, key: StockKey)
    ensures PendingSum(OfStore(sales, key.store), key) == PendingSum(sales, key)
    decreases |sales|
  {
    if |sales| > 0 {
      var id :| id in sales;
      StoreSum(sales - {id}, key);
      TotalPick(sales, id, UnsyncedMilli(key));
      StoreWithout(sales, id, key.store);
      if sales[id].store == key.store {
        TotalPick(OfStore(sales, key.store), id, UnsyncedMilli(key));
      }
    }
  }

  lemma {:induction false} StoreWithout(sales: map<Uuid, LocalSale>, id: Uuid, store: Uuid)
    requires id in sales
    ensures OfStore(sales - {id}, store) == OfStore(sales, store) - {id}
    ensures sales[id].store != store ==> OfStore(sales - {id}, store) == OfStore(sales, store)
    ensures sales[id].store == store ==> id in OfStore(sales, store) && OfStore(sales, store)[id] == sales[id]
  {
  }

  lemma {:induction false} TallyOfStore(sales: map<Uuid, LocalSale>, store: Uuid, pending: map<StockKey, int>)
    requires Tallies(pending, OfStore(sales, store))
    ensures forall key: StockKey :: key.store == store ==>
              && (key in pending <==> Mentioned(sales, key))
              && (key in pending ==> pending[key] == PendingSum(sales, key))
  {
    forall key: StockKey | key.store == store
      ensures key in pending <==> Mentioned(sales, key)
      ensures key in pending ==> pending[key] == PendingSum(sales, key)
    {
      StoreSum(sales, key);
      if id :| id in sales && Takes(sales[id], key) {
        assert OfStore(sales, store)[id] == sales[id];
      }
    }
  }

  lemma {:induction false} BuiltAt(t: Till, store: Uuid, cs: seq<ServerProduct>, key: StockKey)
    requires Built(t, store, cs).Ok?
    ensures key in Built(t, store, cs).value <==>
              key.store == store && exists i :: 0 <= i < |cs| && cs[i].id == key.product
    ensures key in Built(t, store, cs).value ==> Pending(Built(t, store, cs).value[key]) == RefreshedCounter(t, key)
  {
    if |cs| > 0 {
      var front, last := cs[..|cs| - 1], cs[|cs| - 1];
      BuiltAt(t, store, front, key);
      assert cs == front + [last];
      if i :| 0 <= i < |front| && front[i].id == key.product { assert cs[i].id == key.product; }
      if i :| 0 <= i < |cs| && cs[i].id == key.product && last.id != key.product { assert front[i].id == key.product; }
    }
  }

  /** A refresh goes through if and only if the server sends whole prices and no negative
      stock: one oversold product blocks the whole store's refresh. */
  lemma {:induction false} RefreshSucceedsIff(t: Till, store: Uuid, cs: seq<ServerProduct>)
    ensures RefreshSpec(t, store, cs).Ok? <==> forall i :: 0 <= i < |cs| ==> cs[i].price % 100 == 0 && cs[i].stock >= 0
  {
    if |cs| > 0 {
      var front := cs[..|cs| - 1];
      RefreshSucceedsIff(t, store, front);
      assert forall i :: 0 <= i < |front| ==> front[i] == cs[i];
    }
  }

  /** Whatever the tables contain, after a refresh a product's counter is right if and only if
      an unsynced sale mentions the product, or it was not cached, or its old counter was zero. */
  lemma {:induction false} RefreshRightIff(t: Till, store: Uuid, cs: seq<ServerProduct>, key: StockKey)
    requires RefreshSpec(t, store, cs).Ok? && key.store == store && key in RefreshSpec(t, store, cs).value.products
    ensures CounterRight(RefreshSpec(t, store, cs).value.products, t.sales, key) <==>
              Mentioned(t.sales, key) || key !in t.products || Pending(t.products[key]) == 0
  {
    BuiltAt(t, store, cs, key);
    if !Mentioned(t.sales, key) { UnmentionedIsZero(t.sales, key); }
  }

  lemma {:induction false} RefreshKeepsIndex(t: Till, store: Uuid, cs: seq<ServerProduct>)
    requires IndexHolds(t) && RefreshSpec(t, store, cs).Ok?
    ensures IndexHolds(RefreshSpec(t, store, cs).value)
  {
    var after := RefreshSpec(t, store, cs).value;
    forall key | key in after.products ensures CounterRight(after.products, after.sales, key) {
      BuiltAt(t, store, cs, key);
      if key.store == store {
        RefreshRightIff(t, store, cs, key);
        if !Mentioned(t.sales, key) { UnmentionedIsZero(t.sales, key); }
      }
    }
  }

  // ---------- Repair at start-up ----------

  /** Both generations of every counter are recomputed from the unsynced sales. */
  ghost function Repaired(t: Till): Till {
    t.(products := map key | key in t.products :: SetPending(t.products[key], PendingSum(t.sales, key)))
  }

  method RepairPendingSoldQuantities(db: TillDb) returns (ok: bool)
    modifies db
    ensures ok <==> ValidQuantities(old(db.sales))
    ensures db.Snapshot() == if ok then Repaired(old(db.Snapshot())) else old(db.Snapshot())
  {
    var quantities := PendingQuantities(db.sales, true);
    if quantities.None? { return false; }
    var pending := quantities.value;
    db.products := map key | key in db.products ::
      SetPending(db.products[key], if key in pending then pending[key] else 0);
    return true;
  }

  /** The repair establishes the index from any state, and a second one changes nothing. */
  lemma {:induction false} RepairEstablishesIndex(t: Till)
    ensures IndexHolds(Repaired(t))
    ensures Repaired(Repaired(t)) == Repaired(t)
  {
    var after := Repaired(t);
    assert forall key :: key in t.products ==>
        after.products[key] == SetPending(t.products[key], PendingSum(t.sales, key));
    assert Repaired(after).products == after.products;
  }

  /** The repair changes a counter if and only if it was wrong: where the index holds, it
      only writes the counter in force in both generations of fields. */
  lemma {:induction false} RepairChangesIffWrong(t: Till)
    ensures IndexHolds(t) <==>
              forall key :: key in t.products ==> Pending(Repaired(t).products[key]) == Pending(t.products[key])
    ensures IndexHolds(t) ==> forall key :: key in t.products ==>
              && Repaired(t).products[key] == SetPending(t.products[key], Pending(t.products[key]))
              && Available(Repaired(t).products[key]) == Available(t.products[key])
  {
    assert forall key :: key in t.products ==>
        Repaired(t).products[key] == SetPending(t.products[key], PendingSum(t.sales, key));
    if forall key :: key in t.products ==> Pending(Repaired(t).products[key]) == Pending(t.products[key]) {
      forall key | key in t.products ensures CounterRight(t.products, t.sales, key) {
        assert Pending(Repaired(t).products[key]) == PendingSum(t.sales, key);
      }
    }
  }
}
