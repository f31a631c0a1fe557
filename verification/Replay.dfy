/** What one replay does to the server: the booked sale carries the event's content. */
module Replay {
  import opened Sums
  import opened Tables
  import opened Sales
  import opened Sync
  import opened Services
  import opened Invariants

  // ---------- A booked sale and the event it was booked from ----------

  /** One line per product, with the quantities of the event added up, at its price. */
  ghost predicate ItemsMatch(rows: seq<SaleItem>, items: seq<ItemInput>) {
    && (forall i, j :: 0 <= i < j < |rows| ==> rows[i].product < rows[j].product)
    && (forall j :: 0 <= j < |rows| ==> Summed(items, rows[j].product, rows[j].quantity))
    && (forall i :: 0 <= i < |items| ==> HasRow(rows, items[i]))
  }

  predicate Summed(items: seq<ItemInput>, product: Uuid, quantity: int) {
    product in ProductsOf(items) && quantity == Sum(items, QuantityOf(product))
  }

  predicate HasRow(rows: seq<SaleItem>, item: ItemInput) {
    exists j :: 0 <= j < |rows| && rows[j].product == item.product && Some(rows[j].unitPrice) == item.unitPrice
  }

  ghost predicate Matches(sale: Sale, e: SyncEvent) {
    && sale.id == e.entity && sale.session == e.session && sale.occurredAt == e.at
    && sale.customer == e.customer && sale.credit == e.credit
    && sale.payments == PaymentsOf(e.legs) && sale.total == Sum(e.legs, LegAmounts()) + e.credit
    && ItemsMatch(sale.items, e.items)
  }

  /** The line of a product carries the price asked for by every item of the product. */
  lemma {:induction false} LinePriced(products: map<Uuid, Product>, items: seq<ItemInput>, i: nat) returns (j: nat)
    requires Aggregable(items, true) && AggregatesSound(Aggregated(items)) && i < |items|
    requires ResolveLines(products, Aggregated(items), true).Ok?
    ensures var lines := ResolveLines(products, Aggregated(items), true).value;
            j < |lines| && lines[j].product == items[i].product && Some(lines[j].unitPrice) == items[i].unitPrice
  {
    var p := items[i].product;
    var ids := Sorted(Aggregated(items).Keys);
    assert p in ids;
    j :| 0 <= j < |ids| && ids[j] == p;
    AgreedPrice(items, i);
  }

  lemma {:induction false} AgreedPrice(items: seq<ItemInput>, i: nat)
    requires Aggregable(items, true) && i < |items|
    ensures items[i].unitPrice.Some? && AggregateOf(items, items[i].product).unitPrice == items[i].unitPrice
  {
    var first := FirstWhere(items, IsOf(items[i].product));
    assert IsOf(items[i].product)(items[i]);
    assert first < i ==> SameTerms(items[first], items[i]);
    assert ItemAccepted(items[i], true);
  }

  lemma {:induction false} LineSummed(products: map<Uuid, Product>, items: seq<ItemInput>, j: nat)
    requires Aggregable(items, true) && AggregatesSound(Aggregated(items))
    requires ResolveLines(products, Aggregated(items), true).Ok?
    requires j < |ResolveLines(products, Aggregated(items), true).value|
    ensures var line := ResolveLines(products, Aggregated(items), true).value[j];
            Summed(items, line.product, line.quantity)
  {
    var ids := Sorted(Aggregated(items).Keys);
    assert ids[j] in ids;
  }

  lemma {:induction false} FrozenMatch(items: seq<ItemInput>, rows: map<StockKey, StockRow>, store: Uuid,
      lines: seq<Line>)
    requires SoundLines(lines)
    requires forall j :: 0 <= j < |lines| ==> Summed(items, lines[j].product, lines[j].quantity)
    requires forall i :: 0 <= i < |items| ==> HasLine(lines, items[i])
    ensures ItemsMatch(FrozenItems(rows, store, lines), items)
  {
    forall i | 0 <= i < |items| ensures HasRow(FrozenItems(rows, store, lines), items[i]) {
      FrozenRow(rows, store, lines, items[i]);
    }
  }

  lemma {:induction false} FrozenRow(rows: map<StockKey, StockRow>, store: Uuid, lines: seq<Line>, item: ItemInput)
    requires HasLine(lines, item)
    ensures HasRow(FrozenItems(rows, store, lines), item)
  {
    var frozen := FrozenItems(rows, store, lines);
    var j :| 0 <= j < |lines| && lines[j].product == item.product && Some(lines[j].unitPrice) == item.unitPrice;
    assert frozen[j].product == lines[j].product;
  }

  predicate HasLine(lines: seq<Line>, item: ItemInput) {
    exists j :: 0 <= j < |lines| && lines[j].product == item.product && Some(lines[j].unitPrice) == item.unitPrice
  }

  lemma {:induction false} LinesResolved(db: Db, e: SyncEvent)
    requires RequestLines(db, e.items, TermsOf(e), true).Ok?
    ensures Aggregable(e.items, true) && AggregatesSound(Aggregated(e.items))
    ensures ResolveLines(db.products, Aggregated(e.items), true) == RequestLines(db, e.items, TermsOf(e), true)
  {
    AggregatedSound(e.items, true);
  }

  lemma {:induction false} BookedMatches(db: Db, e: SyncEvent)
    requires CompleteSpec(db, e.items, TermsOf(e), true).Ok?
    ensures Matches(CompleteSpec(db, e.items, TermsOf(e), true).value.1, e)
  {
    LinesResolved(db, e);
    var lines := RequestLines(db, e.items, TermsOf(e), true).value;
    forall j | 0 <= j < |lines| ensures Summed(e.items, lines[j].product, lines[j].quantity) {
      LineSummed(db.products, e.items, j);
    }
    forall i | 0 <= i < |e.items| ensures HasLine(lines, e.items[i]) {
      var j := LinePriced(db.products, e.items, i);
    }
    FrozenMatch(e.items, db.book.rows, db.sessions[e.session].store, lines);
    RowMatches(db, e, lines);
  }

  lemma {:induction false} RowMatches(db: Db, e: SyncEvent, lines: seq<Line>)
    requires e.session in db.sessions && ExecuteSaleSpec(db, TermsOf(e), lines, true).Ok?
    requires ItemsMatch(FrozenItems(db.book.rows, db.sessions[e.session].store, lines), e.items)
    ensures Matches(ExecuteSaleSpec(db, TermsOf(e), lines, true).value.1, e)
  {
  }

  // ---------- One server step ----------

  predicate Holds(db: Db, id: Uuid) {
    FindSale(db.sales, id) < |db.sales|
  }

  predicate Processed(db: Db, event: Uuid) {
    FindEvent(db.events, event) < |db.events|
  }

  predicate Replays(c: Command) {
    c.Transmit? || c.CommitLate?
  }

  /** One more sale, the event's, and one more processed event, its own. */
  ghost predicate NewlyBooked(db: Db, e: SyncEvent, after: Db) {
    && !Processed(db, e.event) && !Holds(db, e.entity)
    && |after.sales| == |db.sales| + 1 && after.sales[..|db.sales|] == db.sales && Matches(after.sales[|db.sales|], e)
    && |after.events| == |db.events| + 1 && after.events[..|db.events|] == db.events
    && after.events[|db.events|].event == e.event && after.events[|db.events|].entity == e.entity
  }

  lemma {:induction false} BookedOnce(db: Db, e: SyncEvent, user: Uuid)
    requires CompleteSpec(db, e.items, TermsOf(e), true).Ok? && !Processed(db, e.event)
    ensures Commit(db, e, user).1 == Synced(e.entity) && NewlyBooked(db, e, Commit(db, e, user).0)
  {
    var (after, sale, _) := CompleteSpec(db, e.items, TermsOf(e), true).value;
    BookedMatches(db, e);
    CompleteBooksASale(db, e.items, TermsOf(e), true);
    assert after.sales == db.sales + [sale] && after.events == db.events;
  }

  /** A replay books the sale together with its processed event, or changes nothing; it
      answers "already processed" only for what the server has. */
  lemma {:induction false} ReplayOutcome(db: Db, e: SyncEvent, user: Uuid)
    ensures var (after, outcome) := Commit(db, e, user);
            || (outcome == Synced(e.entity) && NewlyBooked(db, e, after))
            || (after == db && !outcome.Synced? && (outcome.AlreadyProcessed? ==> TrueAnswer(db, e, outcome.entity)))
  {
    var r := CompleteSpec(db, e.items, TermsOf(e), true);
    if r.Ok? && !Processed(db, e.event) {
      BookedOnce(db, e, user);
    } else if r.Err? && r.error.IntegrityError? {
      OnlySaleIdsClash(db, e);
    }
  }

  predicate TrueAnswer(db: Db, e: SyncEvent, entity: Uuid) {
    var at := FindEvent(db.events, e.event);
    if at < |db.events| then entity == db.events[at].entity else entity == e.entity && Holds(db, e.entity)
  }

  lemma {:induction false} OnlySaleIdsClash(db: Db, e: SyncEvent)
    requires CompleteSpec(db, e.items, TermsOf(e), true) == Err(IntegrityError)
    ensures Holds(db, e.entity)
  {
    var lines := RequestLines(db, e.items, TermsOf(e), true);
    if lines.Err? { RefusedLines(db, e); }
  }

  lemma {:induction false} RefusedLines(db: Db, e: SyncEvent)
    ensures RequestLines(db, e.items, TermsOf(e), true) != Err(IntegrityError)
  {
    if Aggregable(e.items, true) && e.session in db.sessions && SessionAccepts(db.sessions[e.session], e.at, true) {
      AggregatedSound(e.items, true);
      KnownProblems(db.products, Aggregated(e.items), Sorted(Aggregated(e.items).Keys));
    }
  }

  lemma {:induction false} KnownProblems(products: map<Uuid, Product>, items: map<Uuid, Aggregate>, ids: seq<Uuid>)
    requires forall id :: id in ids ==> id in items
    ensures ProductProblem(products, items, ids, true) != Some(IntegrityError)
  {
    if |ids| > 0 { KnownProblems(products, items, ids[..|ids| - 1]); }
  }

  /** No other service writes a processed event, and only online sales book sales. */
  lemma {:induction false} OtherServices(db: Db, c: Command)
    requires Inv(db) && !Replays(c)
    ensures Step(db, c).events == db.events
    ensures SalesExtend(db.sales, Step(db, c).sales)
    ensures forall i :: |db.sales| <= i < |Step(db, c).sales| ==> c.Sell? && Step(db, c).sales[i].id == c.terms.id
  {
    var effect := StepApplies(db, c);
    TablesExtend(db, effect);
    if effect.SaleBooked? { OnlineSale(db, c); }
  }

  lemma {:induction false} OnlineSale(db: Db, c: Command)
    requires c.Sell?
    ensures Step(db, c).events == db.events
  {
  }

  /** The server could book the event if it were new: what a request that is past its
      lookup still has to meet. */
  predicate Bookable(db: Db, e: SyncEvent) {
    e.session in db.sessions && Valid(db, e)
  }

  lemma {:induction false} CompletesIffValid(db: Db, e: SyncEvent)
    requires !Holds(db, e.entity)
    ensures CompleteSpec(db, e.items, TermsOf(e), true).Ok? <==> Bookable(db, e)
  {
    var lines := RequestLines(db, e.items, TermsOf(e), true);
    if lines.Ok? { FrozenTotal(db.book.rows, db.sessions[e.session].store, lines.value); }
  }

  lemma {:induction false} BookedIffBookable(db: Db, e: SyncEvent, user: Uuid)
    requires Unseen(db, e)
    ensures Holds(Commit(db, e, user).0, e.entity) <==> Bookable(db, e)
  {
    CompletesIffValid(db, e);
    if Bookable(db, e) {
      BookedOnce(db, e, user);
      assert Commit(db, e, user).0.sales[|db.sales|].id == e.entity;
    }
  }

  /** What a replay leaves of the tables of sales, entries, sessions and customers. */
  ghost predicate ReplayTables(db: Db, e: SyncEvent, after: Db) {
    && after.sessions == db.sessions && after.customers == db.customers
    && (|| (after.sales == db.sales && after.entries == db.entries)
        || (&& Unseen(db, e) && Bookable(db, e)
            && after.sales == db.sales + [RowFor(db, e)] && after.entries == db.entries + CreditEntries(TermsOf(e))))
  }

  lemma {:induction false} CommitTables(db: Db, e: SyncEvent, user: Uuid)
    ensures ReplayTables(db, e, Commit(db, e, user).0)
  {
    if Unseen(db, e) {
      CompletesIffValid(db, e);
    } else {
      SeenCommits(db, e, user);
    }
  }

  lemma {:induction false} SeenCommits(db: Db, e: SyncEvent, user: Uuid)
    requires !Unseen(db, e)
    ensures Commit(db, e, user).0 == db
  {
  }

  lemma {:induction false} ProcessTables(db: Db, e: SyncEvent, user: Uuid)
    ensures ReplayTables(db, e, Process(db, e, user).0)
  {
    CommitTables(db, e, user);
  }
}
