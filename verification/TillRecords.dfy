/** A sale as the till keeps it, sends it, and has it booked; and the catalogue as it is
    cached. */
module TillRecords {
  import opened Sums
  import opened Tables
  import opened CashDesk
  import opened Sales
  import opened Sync
  import opened LocalTables
  import opened LocalSales
  import opened Catalogue
  import opened SyncEngine
  import opened SaleRules
  import opened TillStock

  // ---------- What is kept ----------

  /** An item is its line at the price in force; its catalogue price and unit are kept unless
      neither the product nor the line knows of thousandths or of a price of its own. */
  predicate IsItemOf(p: LocalProduct, line: CartLine, item: LocalItem) {
    && item.product == line.product && item.name == p.name && ItemMilli(item) == CartMilli(line)
    && item.unitPrice == OrElse(line.unitPrice, p.sellingPrice)
    && item.lineTotal == TruncatedLineTotal(item.unitPrice, ItemMilli(item))
    && if p.saleUnit == None && line.milli == None && line.unitPrice == None
       then item.catalogPrice == None && item.saleUnit == None
       else
         && item.catalogPrice == Some(p.sellingPrice)
         && item.saleUnit == if p.saleUnit == None then Some(Unit) else p.saleUnit
  }

  predicate IsRecordOf(leg: LocalLeg, p: LocalPayment) {
    && p.paidBy == leg.paidBy && p.amount == leg.amount
    && match leg.paidBy
       case Cash =>
         p.received == Some(OrElse(leg.received, 0)) && p.change == Some(OrElse(leg.received, 0) - leg.amount)
       case _ => p.received == None && p.change == None
  }

  /** The record of a cart: pending, dated, with one item for each line, one payment for each
      leg, and a customer only if it is put on the book. */
  lemma {:induction false} RecordedSale(t: Till, x: SaleInput, stamp: Stamp)
    requires CreateSpec(t, x, stamp).Ok?
    ensures var (after, s) := CreateSpec(t, x, stamp).value;
            && after.sales == t.sales[stamp.id := s] && after.customers == t.customers
            && s.id == stamp.id && s.event == stamp.event && s.createdAt == stamp.at && s.status == PendingSync
            && s.session == x.session && s.store == x.store && s.credit == Some(x.credit)
            && s.customer == (if x.credit > 0 then x.customer else None)
            && s.total == Sum(x.lines, LinePrice(t, x.store))
            && |s.items| == |x.lines| && |s.payments| == |x.legs|
            && (forall i :: 0 <= i < |x.legs| ==> IsRecordOf(x.legs[i], s.payments[i]))
    ensures var s := CreateSpec(t, x, stamp).value.1;
            forall i :: 0 <= i < |x.lines| ==>
              && StockKey(x.store, x.lines[i].product) in t.products
              && IsItemOf(t.products[StockKey(x.store, x.lines[i].product)], x.lines[i], s.items[i])
  {
    AllLinesIff(t, x.store, x.lines);
    ItemsKnown(t.products, x.store, x.lines);
  }

  // ---------- What is sent ----------

  predicate IsInputOf(item: LocalItem, input: ItemInput) {
    && input.product == item.product && input.name == item.name && input.quantity == ItemMilli(item)
    && input.unitPrice == Some(100 * item.unitPrice)
    && input.catalogPrice == if OrElse(item.catalogPrice, 0) == 0 then None else Some(100 * item.catalogPrice.value)
  }

  predicate IsLegOf(p: LocalPayment, leg: Leg) {
    && leg.paidBy == p.paidBy && leg.amount == 100 * p.amount
    && leg.received == if p.paidBy == Cash then Some(100 * OrElse(p.received, 0)) else None
  }

  /** An event is its sale, in cents. */
  lemma {:induction false} SentSale(s: LocalSale)
    ensures var e := ToSyncEvent(s);
            && e.event == s.event && e.entity == s.id && e.at == s.createdAt && e.session == s.session
            && (if s.customer.Some? && OrElse(s.credit, 0) > 0
                then e.customer == s.customer && e.credit == 100 * s.credit.value
                else e.customer == None && e.credit == 0)
            && |e.items| == |s.items| && (forall i :: 0 <= i < |s.items| ==> IsInputOf(s.items[i], e.items[i]))
            && |e.legs| == |s.payments| && (forall i :: 0 <= i < |s.payments| ==> IsLegOf(s.payments[i], e.legs[i]))
  {
  }

  // ---------- What is booked ----------

  function PaidLocally(means: PaymentMethod): LocalPayment -> int {
    (p: LocalPayment) => if p.paidBy == means then 100 * p.amount else 0
  }

  lemma {:induction false} AskedAsSold(s: LocalSale, p: Uuid)
    ensures Asked(ToSyncEvent(s).items, p) == LocalTables.Sold(s.items, p)
  {
    SentSale(s);
    SumPointwise(ToSyncEvent(s).items, s.items, AskedOf(p), MilliOf(p));
  }

  lemma {:induction false} PaidAsRecorded(s: LocalSale, means: PaymentMethod, payments: seq<Payment>)
    requires |payments| == |s.payments|
    requires forall i :: 0 <= i < |payments| ==> IsPaymentOf(ToSyncEvent(s).legs[i], payments[i])
    ensures Sum(payments, By(means)) == Sum(s.payments, PaidLocally(means))
  {
    SentSale(s);
    SumPointwise(payments, s.payments, By(means), PaidLocally(means));
  }

  /** The row of a product is what the till sold of it, at the till's price. */
  predicate IsRowSold(s: LocalSale, row: SaleItem) {
    && row.quantity == LocalTables.Sold(s.items, row.product)
    && exists i :: 0 <= i < |s.items| && SoldAs(s.items[i], row)
  }

  predicate SoldAs(item: LocalItem, row: SaleItem) {
    && item.product == row.product && row.name == item.name && row.unitPrice == 100 * item.unitPrice
    && (OrElse(item.catalogPrice, 0) != 0 ==> row.catalogPrice == 100 * item.catalogPrice.value)
  }

  lemma {:induction false} RowSold(db: Db, s: LocalSale, line: Line, row: SaleItem, store: Uuid)
    requires IsLineOf(db.products, ToSyncEvent(s).items, line, true) && IsRowOf(db, store, line, row)
    ensures IsRowSold(s, row)
  {
    var items := ToSyncEvent(s).items;
    var at := FirstWhere(items, IsOf(line.product));
    SentSale(s);
    AskedAsSold(s, line.product);
    assert IsInputOf(s.items[at], items[at]);
    assert SoldAs(s.items[at], row);
  }

  /** What the server books of a sale is what the till recorded: who, when, how it was paid,
      what was put on the book, and each product once. */
  lemma {:induction false} BookedAsSold(db: Db, s: LocalSale)
    requires CompleteSpec(db, ToSyncEvent(s).items, TermsOf(ToSyncEvent(s)), true).Ok?
    ensures var row := CompleteSpec(db, ToSyncEvent(s).items, TermsOf(ToSyncEvent(s)), true).value.1;
            && row.id == s.id && row.session == s.session && row.occurredAt == s.createdAt
            && (if OnBook(s) then row.customer == s.customer && row.credit == 100 * OrElse(s.credit, 0)
                else row.customer == None && row.credit == 0)
            && (forall k :: 0 <= k < |row.items| ==> IsRowSold(s, row.items[k]))
            && (forall means :: Sum(row.payments, By(means)) == Sum(s.payments, PaidLocally(means)))
  {
    var e := ToSyncEvent(s);
    var (row, lines) := (CompleteSpec(db, e.items, TermsOf(e), true).value.1,
                         RequestLines(db, e.items, TermsOf(e), true).value);
    BookedRow(db, e.items, TermsOf(e), true);
    forall k | 0 <= k < |row.items| ensures IsRowSold(s, row.items[k]) {
      LineAt(db, e.items, TermsOf(e), true, k);
      RowSold(db, s, lines[k], row.items[k], db.sessions[e.session].store);
    }
    forall means ensures Sum(row.payments, By(means)) == Sum(s.payments, PaidLocally(means)) {
      PaidAsRecorded(s, means, row.payments);
    }
  }

  // ---------- The cached catalogue ----------

  /** A product is cached as the server listed it last, its level less what is pending. */
  predicate IsCached(c: ServerProduct, p: LocalProduct) {
    && p.name == c.name && 100 * p.sellingPrice == c.price && p.active == c.active && p.saleUnit == c.saleUnit
    && LevelOf(p) == Some(c.stock) && Available(p) == Some(c.stock - Pending(p))
  }

  lemma {:induction false} CachedAt(t: Till, store: Uuid, cs: seq<ServerProduct>, i: nat)
    requires Built(t, store, cs).Ok? && i < |cs| && forall j :: i < j < |cs| ==> cs[j].id != cs[i].id
    ensures StockKey(store, cs[i].id) in Built(t, store, cs).value
    ensures IsCached(cs[i], Built(t, store, cs).value[StockKey(store, cs[i].id)])
  {
    var last := |cs| - 1;
    if i < last { CachedAt(t, store, cs[..last], i); }
  }

  /** After a refresh a store has the listed products, as listed, and no others; the rest of
      the till is as it was. */
  lemma {:induction false} RefreshedCatalogue(t: Till, store: Uuid, cs: seq<ServerProduct>)
    requires RefreshSpec(t, store, cs).Ok?
    ensures var after := RefreshSpec(t, store, cs).value;
            && after.sales == t.sales && after.customers == t.customers
            && (forall key: StockKey :: key.store != store ==>
                  (key in after.products <==> key in t.products)
                  && (key in t.products ==> after.products[key] == t.products[key]))
            && (forall key: StockKey :: key.store == store ==>
                  (key in after.products <==> exists i :: 0 <= i < |cs| && cs[i].id == key.product))
            && (forall i :: 0 <= i < |cs| && (forall j :: i < j < |cs| ==> cs[j].id != cs[i].id) ==>
                  StockKey(store, cs[i].id) in after.products
                  && IsCached(cs[i], after.products[StockKey(store, cs[i].id)]))
  {
    var after := RefreshSpec(t, store, cs).value;
    forall key: StockKey
      ensures key.store == store ==> (key in after.products <==> exists i :: 0 <= i < |cs| && cs[i].id == key.product)
      ensures key.store != store ==> (key in after.products <==> key in t.products)
                                     && (key in t.products ==> after.products[key] == t.products[key])
    {
      BuiltAt(t, store, cs, key);
    }
    forall i | 0 <= i < |cs| && (forall j :: i < j < |cs| ==> cs[j].id != cs[i].id)
      ensures StockKey(store, cs[i].id) in after.products
      ensures IsCached(cs[i], after.products[StockKey(store, cs[i].id)])
    {
      CachedAt(t, store, cs, i);
    }
  }
}
