/** Two runs of one browser of the small shop, from an empty till: a synchronised sale that
    reverts, and a pending counter that stays wrong. */
module TabRuns {
  import opened Sums
  import opened Rounding
  import opened Tables
  import opened Sync
  import opened LocalTables
  import opened LocalSales
  import opened Catalogue
  import opened SyncLock
  import opened SyncEngine
  import opened Browser
  import opened Shop

  /** An empty till, no lease, no pass. */
  function EmptyProfile(): Profile {
    Profile(Till(map[], map[], map[]), 0, None, map[])
  }

  // ---------- A synchronised sale that reverts ----------

  function RecordingActions(price: nat, milli: nat, lot: Units): seq<Action> {
    [] + [Refresh(STORE, PriceList(price, lot))] + [Create(Purchase(price, milli), Stamp(7, 70, 0))]
  }

  /** Two tabs list the same sale, the second one when the lease of the first is over. */
  function BothList(first: Uuid, second: Uuid): seq<Action> {
    [] + [Begin(first)] + [List(first)] + [Tick(LEASE_DURATION)] + [Begin(second)] + [List(second)]
  }

  lemma {:induction false} RecordingRun(b: Profile, price: nat, milli: nat, lot: Units)
    requires b == EmptyProfile() && Sells(price, milli, lot)
    ensures var after := Run(b, RecordingActions(price, milli, lot));
            && after == b.(till := after.till)
            && after.till.sales == map[7 := RiceSale(price, milli)]
            && IndexHolds(after.till) && RICE_KEY in after.till.products
  {
    var x, stamp := Purchase(price, milli), Stamp(7, 70, 0);
    RunPush(b, [], Refresh(STORE, PriceList(price, lot)));
    RunPush(b, [] + [Refresh(STORE, PriceList(price, lot))], Create(x, stamp));
    Refreshes(price, lot);
    Records(StockedTill(price, lot), price, milli, lot);
  }

  lemma {:induction false} Begins(b: Profile, owner: Uuid)
    requires !HeldByOther(b.lease, owner, b.now)
    ensures Step(b, Begin(owner)) ==
            Profile(b.till, b.now, Some(Lease(owner, b.now + LEASE_DURATION)), b.passes[owner := {}])
  {
  }

  lemma {:induction false} Lists(b: Profile, owner: Uuid)
    requires owner in b.passes
    ensures Step(b, List(owner)) == b.(passes := b.passes[owner := PendingIds(b.till)])
  {
  }

  lemma {:induction false} Ticks(b: Profile, later: Instant)
    requires later >= b.now
    ensures Step(b, Tick(later)) == b.(now := later)
  {
  }

  /** Neither tab's lease ever bars the other: a frozen tab does not renew. */
  lemma {:induction false} BothTabsList(b: Profile, first: Uuid, second: Uuid)
    requires b.now == 0 && b.lease.None? && b.passes == map[] && first != second
    ensures var after := Run(b, BothList(first, second));
            && after.till == b.till
            && after.passes == map[first := PendingIds(b.till), second := PendingIds(b.till)]
  {
    var acts := [] + [Begin(first)];
    RunPush(b, [], Begin(first));
    Begins(b, first);
    RunPush(b, acts, List(first));
    Lists(Run(b, acts), first);
    var listed := Run(b, acts + [List(first)]);
    RunPush(b, acts + [List(first)], Tick(LEASE_DURATION));
    Ticks(listed, LEASE_DURATION);
    RunPush(b, acts + [List(first)] + [Tick(LEASE_DURATION)], Begin(second));
    Begins(listed.(now := LEASE_DURATION), second);
    RunPush(b, acts + [List(first)] + [Tick(LEASE_DURATION)] + [Begin(second)], List(second));
    Lists(Run(b, acts + [List(first)] + [Tick(LEASE_DURATION)] + [Begin(second)]), second);
  }

  /** Everything from the empty till to the late refusal. */
  function FrozenTab(price: nat, milli: nat, lot: Units, first: Uuid, second: Uuid): seq<Action> {
    RecordingActions(price, milli, lot) + BothList(first, second) + [Apply(second, 7, Confirmed(7))]
  }

  lemma {:induction false} ListedByBoth(b: Profile, price: nat, milli: nat, lot: Units, first: Uuid, second: Uuid)
    requires b == EmptyProfile() && Sells(price, milli, lot) && first != second
    ensures var acts := RecordingActions(price, milli, lot);
            var listed := Run(b, acts + BothList(first, second));
            listed.till == Run(b, acts).till && listed.passes == map[first := {7}, second := {7}]
  {
    var acts := RecordingActions(price, milli, lot);
    RecordingRun(b, price, milli, lot);
    RunBoth(b, acts, BothList(first, second));
    BothTabsList(Run(b, acts), first, second);
    assert PendingIds(Run(b, acts).till) == {7};
  }

  /** The second tab has marked the sale, and the first still waits for its answer. */
  lemma {:induction false} MarkedRun(b: Profile, price: nat, milli: nat, lot: Units, first: Uuid, second: Uuid)
    requires b == EmptyProfile() && Sells(price, milli, lot) && first != second
    ensures var marked := Run(b, FrozenTab(price, milli, lot, first, second));
            && marked.till == SyncedTill(Run(b, RecordingActions(price, milli, lot)).till, 7, 7)
            && first in marked.passes && 7 in marked.passes[first]
  {
    var acts := RecordingActions(price, milli, lot) + BothList(first, second);
    ListedByBoth(b, price, milli, lot, first, second);
    RunPush(b, acts, Apply(second, 7, Confirmed(7)));
    Applies(Run(b, acts), second, 7, Confirmed(7));
  }

  /** Without timely renewals, from an empty till: a synchronised sale reverts to a conflict,
      and the index breaks. */
  lemma {:induction false} WithoutTimelyRenewal(b: Profile, price: nat, milli: nat, lot: Units, first: Uuid,
      second: Uuid, code: Code)
    requires b == EmptyProfile() && Sells(price, milli, lot) && first != second
    ensures Inv(b)
    ensures var marked := Run(b, FrozenTab(price, milli, lot, first, second));
            var refused := Run(b, FrozenTab(price, milli, lot, first, second) + [Apply(first, 7, Refused(code))]);
            && LateRefusal(marked, Apply(first, 7, Refused(code)))
            && Has(marked.till, 7, SyncDone) && IndexHolds(marked.till)
            && Has(refused.till, 7, InConflict) && !IndexHolds(refused.till)
  {
    RecordingRun(b, price, milli, lot);
    MarkedRun(b, price, milli, lot, first, second);
    MarkedThenRefused(Run(b, RecordingActions(price, milli, lot)).till, 7, price, milli, lot, code);
    RunPush(b, FrozenTab(price, milli, lot, first, second), Apply(first, 7, Refused(code)));
    Applies(Run(b, FrozenTab(price, milli, lot, first, second)), first, 7, Refused(code));
  }

  predicate Has(t: Till, id: Uuid, status: LocalStatus) {
    id in t.sales && t.sales[id].status == status
  }

  // ---------- A refresh that keeps a wrong counter ----------

  function MixedLine(milli: int): CartLine {
    CartLine(RICE, Some(milli), None, None)
  }

  function MixedItem(price: nat, milli: int): LocalItem {
    LocalItem(RICE, "Riz", price, Some(price), Some(Kg), Some(milli), Some(milli), TruncatedLineTotal(price, milli))
  }

  function MixedTotal(price: nat, milli: int): int {
    TruncatedLineTotal(price, -milli) + TruncatedLineTotal(price, 2 * milli)
  }

  /** A negative line, then twice as much of the same product. */
  function MixedCart(price: nat, milli: int): SaleInput {
    SaleInput(SESSION, STORE, [MixedLine(-milli), MixedLine(2 * milli)],
              [LocalLeg(Wave, MixedTotal(price, milli), None)], 0, None)
  }

  lemma {:induction false} MixedItems(t: Till, price: nat, milli: int, lot: Units)
    requires t == StockedTill(price, lot) && 0 < milli && 2 * milli <= lot
    ensures ItemsOf(t.products, STORE, MixedCart(price, milli).lines) ==
            Ok([MixedItem(price, -milli), MixedItem(price, 2 * milli)])
  {
    OneMixed(t, price, -milli, lot);
    OneMixed(t, price, 2 * milli, lot);
    TwoLines(t.products, MixedLine(-milli), MixedLine(2 * milli));
  }

  lemma {:induction false} TwoLines(products: map<StockKey, LocalProduct>, a: CartLine, c: CartLine)
    requires a.product == RICE && c.product == RICE && RICE_KEY in products
    requires LineProblem(products, STORE, a).None? && LineProblem(products, STORE, c).None?
    ensures ItemsOf(products, STORE, [a, c]) == Ok([ItemOf(products[RICE_KEY], a), ItemOf(products[RICE_KEY], c)])
  {
    assert ItemsOf(products, STORE, []) == Ok([]);
    OneMoreLine(products, [], a);
    assert [] + [a] == [a] && [] + [ItemOf(products[RICE_KEY], a)] == [ItemOf(products[RICE_KEY], a)];
    assert ItemsOf(products, STORE, [a]) == Ok([ItemOf(products[RICE_KEY], a)]);
    OneMoreLine(products, [a], c);
    assert [a] + [c] == [a, c];
    assert [ItemOf(products[RICE_KEY], a)] + [ItemOf(products[RICE_KEY], c)] ==
        [ItemOf(products[RICE_KEY], a), ItemOf(products[RICE_KEY], c)];
  }

  lemma {:induction false} OneMoreLine(products: map<StockKey, LocalProduct>, lines: seq<CartLine>, line: CartLine)
    requires line.product == RICE && RICE_KEY in products && LineProblem(products, STORE, line).None?
    ensures var before := ItemsOf(products, STORE, lines);
            before.Ok? ==>
              ItemsOf(products, STORE, lines + [line]) == Ok(before.value + [ItemOf(products[RICE_KEY], line)])
  {
    assert (lines + [line])[..|lines|] == lines;
  }

  lemma {:induction false} OneMixed(t: Till, price: nat, milli: int, lot: Units)
    requires t == StockedTill(price, lot) && milli <= lot
    ensures LineProblem(t.products, STORE, MixedLine(milli)).None? && RICE_KEY in t.products
    ensures ItemOf(t.products[RICE_KEY], MixedLine(milli)) == MixedItem(price, milli)
  {
  }

  lemma {:induction false} MixedTotalIsNotNegative(price: nat, milli: int)
    requires milli > 0
    ensures MixedTotal(price, milli) >= 0
  {
    var n := price * milli;
    assert n >= 0;
    assert price * (2 * milli) == 2 * n && price * -milli == -n;
  }

  /** The till takes such a cart: its counter says twice what the sale takes. */
  lemma {:induction false} MixedRecorded(t: Till, price: nat, milli: int, lot: Units)
    requires t == StockedTill(price, lot) && 0 < milli && 2 * milli <= lot
    ensures var r := CreateSpec(t, MixedCart(price, milli), Stamp(7, 70, 0));
            && r.Ok? && r.value.0.sales == map[7 := r.value.1]
            && r.value.1.status.PendingSync? && r.value.1.store == STORE
            && r.value.1.items == [MixedItem(price, -milli), MixedItem(price, 2 * milli)]
            && RICE_KEY in r.value.0.products && Pending(r.value.0.products[RICE_KEY]) == 2 * milli
  {
    var x := MixedCart(price, milli);
    MixedItems(t, price, milli, lot);
    MixedTotalIsNotNegative(price, milli);
    SumOne(MixedItem(price, -milli), LocalLineTotals());
    SumPush([MixedItem(price, -milli)], MixedItem(price, 2 * milli), LocalLineTotals());
    assert [MixedItem(price, -milli)] + [MixedItem(price, 2 * milli)] == ItemsOf(t.products, STORE, x.lines).value;
    SumOne(x.legs[0], LocalAmounts());
    RaisedAt(t.products, STORE, ItemsOf(t.products, STORE, x.lines).value, RICE_KEY);
  }

  /** Once that sale is cancelled, as much is left on the counter with no sale on the till. */
  lemma {:induction false} MixedCancelled(t: Till, price: nat, milli: int)
    requires milli > 0 && 7 in t.sales && t.sales == map[7 := t.sales[7]]
    requires t.sales[7].status.PendingSync? && t.sales[7].store == STORE
    requires t.sales[7].items == [MixedItem(price, -milli), MixedItem(price, 2 * milli)]
    requires RICE_KEY in t.products && Pending(t.products[RICE_KEY]) == 2 * milli
    ensures var after := CancelledTill(t, 7).0;
            after.sales == map[] && RICE_KEY in after.products && Pending(after.products[RICE_KEY]) == milli
  {
    var a, c := MixedItem(price, -milli), MixedItem(price, 2 * milli);
    SumOne(a, MilliOf(RICE));
    SumPush([a], c, MilliOf(RICE));
    assert [a] + [c] == t.sales[7].items;
    assert t.sales[7].items[0].product == RICE;
  }

  function StaleActions(price: nat, milli: int, lot: Units): seq<Action> {
    [] + [Refresh(STORE, PriceList(price, lot))] + [Create(MixedCart(price, milli), Stamp(7, 70, 0))] + [CancelSale(7)]
  }

  lemma {:induction false} StaleRun(b: Profile, price: nat, milli: int, lot: Units)
    requires b == EmptyProfile() && 0 < milli && 2 * milli <= lot
    ensures var t := Run(b, StaleActions(price, milli, lot)).till;
            t.sales == map[] && RICE_KEY in t.products && Pending(t.products[RICE_KEY]) == milli
  {
    var refresh, create := Refresh(STORE, PriceList(price, lot)), Create(MixedCart(price, milli), Stamp(7, 70, 0));
    RunPush(b, [], refresh);
    Refreshes(price, lot);
    RunPush(b, [] + [refresh], create);
    MixedRecorded(StockedTill(price, lot), price, milli, lot);
    var recorded := Run(b, [] + [refresh] + [create]).till;
    RunPush(b, [] + [refresh] + [create], CancelSale(7));
    MixedCancelled(recorded, price, milli);
  }

  /** From an empty till, a cart with a negative line: a refresh keeps the wrong counter, and
      the repair corrects it. */
  lemma {:induction false} StaleCounterKept(b: Profile, price: nat, milli: int, lot: Units)
    requires b == EmptyProfile() && 0 < milli && 2 * milli <= lot
    ensures var t := Run(b, StaleActions(price, milli, lot)).till;
            var r := RefreshSpec(t, STORE, PriceList(price, lot));
            && r.Ok? && RICE_KEY in r.value.products && !CounterRight(r.value.products, r.value.sales, RICE_KEY)
            && IndexHolds(Repaired(r.value))
  {
    StaleRun(b, price, milli, lot);
    var t := Run(b, StaleActions(price, milli, lot)).till;
    StaysStale(t, price, lot);
    RepairEstablishesIndex(RefreshSpec(t, STORE, PriceList(price, lot)).value);
  }

  lemma {:induction false} StaysStale(t: Till, price: nat, lot: Units)
    requires t.sales == map[] && RICE_KEY in t.products && Pending(t.products[RICE_KEY]) != 0
    ensures var r := RefreshSpec(t, STORE, PriceList(price, lot));
            r.Ok? && RICE_KEY in r.value.products && !CounterRight(r.value.products, t.sales, RICE_KEY)
  {
    var cs := PriceList(price, lot);
    assert (CENTS_PER_FCFA * price) % 100 == 0;
    RefreshSucceedsIff(t, STORE, cs);
    BuiltAt(t, STORE, cs, RICE_KEY);
    assert cs[0].id == RICE;
    RefreshRightIff(t, STORE, cs, RICE_KEY);
  }
}
