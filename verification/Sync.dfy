/** The idempotent handler of sales replayed from tills. */
module Sync {
  import opened Sums
  import opened Rounding
  import opened Tables
  import opened Inventory
  import opened Customers
  import opened CashDesk
  import opened Sales

  datatype SyncEvent = SyncEvent(
    event: Uuid, entity: Uuid, at: Instant, session: Uuid, items: seq<ItemInput>, legs: seq<Leg>,
    customer: Option<Uuid>, credit: int)

  datatype Code =
    | SessionNotFound | StoreNotAllowed | SessionClosed | UnknownProduct | UnknownCustomer | InvalidSale
    // No longer pronounced by the server; tills requeue the sales it once refused.
    | SessionNotOwned

  datatype Outcome =
    | Synced(entity: Uuid)
    | AlreadyProcessed(entity: Uuid)
    | Conflict(code: Code)
    | Rejected(code: Code)
    | Failed

  function TermsOf(e: SyncEvent): SaleTerms {
    SaleTerms(e.entity, e.session, e.legs, e.customer, e.credit, e.at)
  }

  predicate MayPush(db: Db, session: Uuid, user: Uuid)
    requires session in db.sessions
  {
    db.sessions[session].cashier == user || (user, db.sessions[session].store) in db.access
  }

  /** What is answered before any transaction is opened. */
  function Lookup(db: Db, e: SyncEvent, user: Uuid): Option<Outcome> {
    var found := FindEvent(db.events, e.event);
    if found < |db.events| then Some(AlreadyProcessed(db.events[found].entity))
    else if e.session !in db.sessions then Some(Rejected(SessionNotFound))
    else if !MayPush(db, e.session, user) then Some(Rejected(StoreNotAllowed))
    else None
  }

  function Refusal(error: ServiceError): Outcome {
    match error
    case CashSessionClosed => Conflict(SessionClosed)
    case ProductNotFound => Rejected(UnknownProduct)
    case CustomerNotFound => Rejected(UnknownCustomer)
    case InvalidPayment => Rejected(InvalidSale)
    case InvalidSaleItems => Rejected(InvalidSale)
    case _ => Failed
  }

  /** One transaction: the sale and its processed event together, or nothing. The two
      unique keys decide races between requests that both passed the lookup. */
  function Commit(db: Db, e: SyncEvent, user: Uuid): (Db, Outcome) {
    var found := FindEvent(db.events, e.event);
    match CompleteSpec(db, e.items, TermsOf(e), true)
    case Ok((after, sale, discrepancy)) =>
      if found < |db.events| then (db, AlreadyProcessed(db.events[found].entity))
      else (after.(events := db.events + [ProcessedEvent(e.event, e.entity, user, discrepancy)]), Synced(e.entity))
    case Err(error) =>
      if error.IntegrityError? then
        (db, AlreadyProcessed(if found < |db.events| then db.events[found].entity else e.entity))
      else (db, Refusal(error))
  }

  function Process(db: Db, e: SyncEvent, user: Uuid): (Db, Outcome) {
    var answer := Lookup(db, e, user);
    if answer.Some? then (db, answer.value) else Commit(db, e, user)
  }

  method ProcessSaleCompletedEvent(db: Database, e: SyncEvent, user: Uuid) returns (outcome: Outcome)
    modifies db
    ensures (db.Rows(), outcome) == Process(old(db.Rows()), e, user)
  {
    var existing := FindEvent(db.events, e.event);
    if existing < |db.events| { return AlreadyProcessed(db.events[existing].entity); }
    if e.session !in db.sessions { return Rejected(SessionNotFound); }
    var session := db.sessions[e.session];
    if session.cashier != user && (user, session.store) !in db.access { return Rejected(StoreNotAllowed); }
    outcome := CommitEvent(db, e, user);
  }

  lemma {:induction false} CommitCases(db: Db, e: SyncEvent, user: Uuid)
    requires FindEvent(db.events, e.event) == |db.events|
    ensures var r := CompleteSpec(db, e.items, TermsOf(e), true);
            Commit(db, e, user) ==
              if r.Ok? then
                (r.value.0.(events := db.events + [ProcessedEvent(e.event, e.entity, user, r.value.2)]),
                  Synced(e.entity))
              else (db, if r.error.IntegrityError? then AlreadyProcessed(e.entity) else Refusal(r.error))
  {
  }

  method CommitEvent(db: Database, e: SyncEvent, user: Uuid) returns (outcome: Outcome)
    requires FindEvent(db.events, e.event) == |db.events|
    modifies db
    ensures (db.Rows(), outcome) == Commit(old(db.Rows()), e, user)
  {
    ghost var before := db.Rows();
    CommitCases(before, e, user);
    var r := Complete(db, e.items, TermsOf(e), true);
    if r.Ok? {
      db.events := db.events + [ProcessedEvent(e.event, e.entity, user, r.value.1)];
      return Synced(e.entity);
    }
    if r.error.IntegrityError? { return AlreadyProcessed(e.entity); }
    return Refusal(r.error);
  }

  // ---------- Acceptance does not look at stock or at other sales ----------

  function LineValue(): Line -> int {
    (line: Line) => LineCents(line.unitPrice, line.quantity)
  }

  lemma {:induction false} FrozenTotal(rows: map<StockKey, StockRow>, store: Uuid, lines: seq<Line>)
    ensures Sum(FrozenItems(rows, store, lines), LineTotals()) == Sum(lines, LineValue())
  {
    if |lines| > 0 {
      var front := lines[..|lines| - 1];
      FrozenTotal(rows, store, front);
      assert FrozenItems(rows, store, lines)[..|lines| - 1] == FrozenItems(rows, store, front);
    }
  }

  /** The event describes a sale the server can book: a matter of its items, legs and
      customer against the catalogue, the customers and the session. */
  predicate Valid(db: Db, e: SyncEvent) {
    var lines := RequestLines(db, e.items, TermsOf(e), true);
    && lines.Ok?
    && e.credit >= 0
    && CreditCustomer(db.customers, e.customer, db.sessions[e.session].store, e.credit, true).None?
    && Settles(Sum(lines.value, LineValue()), e.legs, e.credit)
  }

  predicate Accepted(db: Db, e: SyncEvent, user: Uuid) {
    e.session in db.sessions && MayPush(db, e.session, user) && Valid(db, e)
  }

  predicate Unseen(db: Db, e: SyncEvent) {
    FindEvent(db.events, e.event) == |db.events| && FindSale(db.sales, e.entity) == |db.sales|
  }

  function RowFor(db: Db, e: SyncEvent): Sale
    requires Valid(db, e)
  {
    SaleRow(db.book.rows, db.sessions[e.session].store, TermsOf(e), RequestLines(db, e.items, TermsOf(e), true).value)
  }

  function RowsFor(db: Db): SyncEvent -> seq<Sale> {
    (e: SyncEvent) => if Valid(db, e) then [RowFor(db, e)] else []
  }

  function MovesFor(db: Db): SyncEvent -> seq<Movement> {
    (e: SyncEvent) => if Valid(db, e) then SaleMoves(db.sessions[e.session].store, RowFor(db, e).items, e.entity)
      else []
  }

  function EntriesFor(db: Db): SyncEvent -> seq<Entry> {
    (e: SyncEvent) => if Valid(db, e) then CreditEntries(TermsOf(e)) else []
  }

  lemma {:induction false} ProcessUnseen(db: Db, e: SyncEvent, user: Uuid)
    requires Unseen(db, e)
    ensures Process(db, e, user).1.Synced? <==> Accepted(db, e, user)
    ensures !Accepted(db, e, user) ==> Process(db, e, user).0 == db
    ensures Accepted(db, e, user) ==>
              var after := Process(db, e, user).0;
              && |after.events| == |db.events| + 1
              && after.events[|db.events|].event == e.event && after.events[|db.events|].entity == e.entity
              && after == db.(
                   sales := db.sales + [RowFor(db, e)],
                   entries := db.entries + CreditEntries(TermsOf(e)),
                   book := PostAll(db.book, SaleMoves(db.sessions[e.session].store, RowFor(db, e).items, e.entity)),
                   events := db.events + [after.events[|db.events|]])
  {
    var lines := RequestLines(db, e.items, TermsOf(e), true);
    if lines.Ok? {
      FrozenTotal(db.book.rows, db.sessions[e.session].store, lines.value);
    }
  }

  // ---------- Any order, any duplicates ----------

  datatype Push = Push(event: SyncEvent, user: Uuid)

  function PushAll(db: Db, ps: seq<Push>): Db {
    if |ps| == 0 then db else Process(PushAll(db, ps[..|ps| - 1]), ps[|ps| - 1].event, ps[|ps| - 1].user).0
  }

  /** Event and sale identifiers each name one event. */
  ghost predicate Coherent(ps: seq<Push>) {
    forall p, q :: p in ps && q in ps && (p.event.event == q.event.event || p.event.entity == q.event.entity) ==>
      p.event == q.event
  }

  /** The events a run books, in the order of their first accepted push. */
  function Admitted(db: Db, ps: seq<Push>): seq<SyncEvent> {
    if |ps| == 0 then []
    else
      var rest, p := Admitted(db, ps[..|ps| - 1]), ps[|ps| - 1];
      if p.event !in rest && Unseen(db, p.event) && Accepted(db, p.event, p.user) then rest + [p.event] else rest
  }

  lemma {:induction false} AdmittedElements(db: Db, ps: seq<Push>)
    ensures forall e :: e in Admitted(db, ps) <==>
              exists p :: p in ps && p.event == e && Unseen(db, e) && Accepted(db, e, p.user)
    ensures forall i, j :: 0 <= i < j < |Admitted(db, ps)| ==> Admitted(db, ps)[i] != Admitted(db, ps)[j]
  {
    if |ps| > 0 {
      var front, p := ps[..|ps| - 1], ps[|ps| - 1];
      AdmittedElements(db, front);
      assert ps == front + [p];
      forall e
        ensures e in Admitted(db, ps) <==>
                  exists q :: q in ps && q.event == e && Unseen(db, e) && Accepted(db, e, q.user)
      {
        if e in Admitted(db, front) {
          var q :| q in front && q.event == e && Unseen(db, e) && Accepted(db, e, q.user);
          assert q in ps;
        }
        if q :| q in ps && q.event == e && Unseen(db, e) && Accepted(db, e, q.user) {
          assert q in front || q == p;
        }
      }
    }
  }

  function EventKeys(events: seq<ProcessedEvent>): seq<(Uuid, Uuid)> {
    seq(|events|, i requires 0 <= i < |events| => (events[i].event, events[i].entity))
  }

  function KeysFor(): SyncEvent -> seq<(Uuid, Uuid)> {
    (e: SyncEvent) => [(e.event, e.entity)]
  }

  /** The booked events follow one another in both tables. */
  ghost predicate FollowInOrder(db: Db, es: seq<SyncEvent>, after: Db) {
    && |after.sales| == |db.sales| + |es| && |after.events| == |db.events| + |es|
    && (forall j :: 0 <= j < |after.sales| ==>
      after.sales[j].id == if j < |db.sales| then db.sales[j].id else es[j - |db.sales|].entity)
    && (forall j :: 0 <= j < |after.events| ==>
      after.events[j].event == if j < |db.events| then db.events[j].event else es[j - |db.events|].event)
  }

  /** The state reached by a run, read off its admitted events at once. */
  ghost predicate BookedFrom(db: Db, es: seq<SyncEvent>, after: Db) {
    && after == db.(sales := after.sales, entries := after.entries, book := after.book, events := after.events)
    && after.sales == db.sales + Gather(es, RowsFor(db))
    && after.entries == db.entries + Gather(es, EntriesFor(db))
    && (forall m :: m in Gather(es, MovesFor(db)) ==> WellFormed(m) && m.kind.SaleOut?)
    && after.book == PostAll(db.book, Gather(es, MovesFor(db)))
    && EventKeys(after.events) == EventKeys(db.events) + Gather(es, KeysFor())
    && FollowInOrder(db, es, after)
  }

  lemma {:induction false} PostAllConcat(book: StockBook, a: seq<Movement>, b: seq<Movement>)
    requires forall m :: m in a + b ==> WellFormed(m)
    ensures forall m :: m in a ==> WellFormed(m)
    ensures forall m :: m in b ==> WellFormed(m)
    ensures PostAll(book, a + b) == PostAll(PostAll(book, a), b)
  {
    assert forall m :: m in a || m in b ==> m in a + b;
    if |b| == 0 {
      assert a + b == a;
    } else {
      var front, last := b[..|b| - 1], b[|b| - 1];
      assert a + b == (a + front) + [last];
      PostAllPush(book, a + front, last);
      PostAllConcat(book, a, front);
    }
  }

  /** Pushed sales change no average cost... */
  lemma {:induction false} SameCostsLater(db: Db, es: seq<SyncEvent>, later: Db, key: StockKey)
    requires BookedFrom(db, es, later)
    ensures RowAt(later.book.rows, key).cost == RowAt(db.book.rows, key).cost
  {
    PostAllKeepsCost(db.book, Gather(es, MovesFor(db)), key);
  }

  lemma {:induction false} SameFrozenItems(a: map<StockKey, StockRow>, b: map<StockKey, StockRow>, store: Uuid,
      lines: seq<Line>)
    requires forall key :: RowAt(a, key).cost == RowAt(b, key).cost
    ensures FrozenItems(a, store, lines) == FrozenItems(b, store, lines)
  {
  }

  /** ...so later rows freeze the same costs. */
  lemma {:induction false} SameRowLater(db: Db, es: seq<SyncEvent>, later: Db, e: SyncEvent)
    requires BookedFrom(db, es, later)
    ensures Valid(later, e) == Valid(db, e)
    ensures Valid(db, e) ==> RowFor(later, e) == RowFor(db, e)
  {
    var lines := RequestLines(db, e.items, TermsOf(e), true);
    assert RequestLines(later, e.items, TermsOf(e), true) == lines;
    if Valid(db, e) {
      forall key ensures RowAt(later.book.rows, key).cost == RowAt(db.book.rows, key).cost {
        SameCostsLater(db, es, later, key);
      }
      SameFrozenItems(later.book.rows, db.book.rows, db.sessions[e.session].store, lines.value);
    }
  }

  lemma {:induction false} SeenIn(db: Db, es: seq<SyncEvent>, after: Db, e: SyncEvent)
    requires BookedFrom(db, es, after)
    requires forall i :: 0 <= i < |es| && (es[i].event == e.event || es[i].entity == e.entity) ==> es[i] == e
    ensures e in es ==> FindEvent(after.events, e.event) < |after.events|
    ensures e !in es ==> Unseen(after, e) == Unseen(db, e)
  {
    if e in es {
      var i :| 0 <= i < |es| && es[i] == e;
      assert after.events[|db.events| + i].event == e.event;
    } else {
      var found0, sold0 := FindEvent(db.events, e.event), FindSale(db.sales, e.entity);
      if found0 < |db.events| { assert after.events[found0].event == e.event; }
      if sold0 < |db.sales| { assert after.sales[sold0].id == e.entity; }
    }
  }

  /** Whatever the order and the repetitions, a run of pushes is the booking of its
      admitted events, computed from the state it started in. */
  lemma {:induction false} RunIsBooking(db: Db, ps: seq<Push>)
    requires Coherent(ps)
    ensures BookedFrom(db, Admitted(db, ps), PushAll(db, ps))
  {
    if |ps| == 0 {
      assert db.sales + [] == db.sales && db.entries + [] == db.entries;
      assert EventKeys(db.events) + [] == EventKeys(db.events);
    } else {
      var front, p := ps[..|ps| - 1], ps[|ps| - 1];
      assert ps == front + [p];
      RunIsBooking(db, front);
      var es, before := Admitted(db, front), PushAll(db, front);
      AdmittedElements(db, front);
      var e := p.event;
      forall i | 0 <= i < |es| && (es[i].event == e.event || es[i].entity == e.entity) ensures es[i] == e {
        assert es[i] in es;
        var q :| q in front && q.event == es[i] && Accepted(db, es[i], q.user);
        assert q in ps && p in ps;
      }
      BookingStep(db, es, before, p);
    }
  }

  lemma {:induction false} ForOne(db: Db, e: SyncEvent)
    requires Valid(db, e)
    ensures RowsFor(db)(e) == [RowFor(db, e)]
    ensures EntriesFor(db)(e) == CreditEntries(TermsOf(e))
    ensures MovesFor(db)(e) == SaleMoves(db.sessions[e.session].store, RowFor(db, e).items, e.entity)
    ensures RowFor(db, e).id == e.entity
  {
  }

  lemma {:induction false} FollowOne(db: Db, es: seq<SyncEvent>, before: Db, e: SyncEvent, after: Db)
    requires FollowInOrder(db, es, before)
    requires |after.sales| == |before.sales| + 1 && after.sales[..|before.sales|] == before.sales
    requires after.sales[|before.sales|].id == e.entity
    requires |after.events| == |before.events| + 1 && after.events[..|before.events|] == before.events
    requires after.events[|before.events|].event == e.event && after.events[|before.events|].entity == e.entity
    ensures FollowInOrder(db, es + [e], after)
    ensures EventKeys(after.events) == EventKeys(before.events) + [(e.event, e.entity)]
  {
    forall j | 0 <= j < |after.sales|
      ensures after.sales[j].id == if j < |db.sales| then db.sales[j].id else (es + [e])[j - |db.sales|].entity
    {
      if j < |before.sales| { assert after.sales[j] == before.sales[j]; }
    }
    forall j | 0 <= j < |after.events|
      ensures after.events[j].event == if j < |db.events| then db.events[j].event else (es + [e])[j - |db.events|].event
    {
      if j < |before.events| { assert after.events[j] == before.events[j]; }
    }
  }

  lemma {:induction false} BookAccepted(db: Db, es: seq<SyncEvent>, before: Db, e: SyncEvent, user: Uuid)
    requires BookedFrom(db, es, before) && Unseen(before, e)
    requires Accepted(db, e, user) && Accepted(before, e, user) && RowFor(before, e) == RowFor(db, e)
    ensures BookedFrom(db, es + [e], Process(before, e, user).0)
  {
    ProcessUnseen(before, e, user);
    ForOne(db, e);
    var after := Process(before, e, user).0;
    FollowOne(db, es, before, e, after);
    BookOne(db, es, before, e, after);
  }

  lemma {:induction false} BookingStep(db: Db, es: seq<SyncEvent>, before: Db, p: Push)
    requires BookedFrom(db, es, before)
    requires forall i :: 0 <= i < |es| && (es[i].event == p.event.event || es[i].entity == p.event.entity) ==>
               es[i] == p.event
    ensures var after := Process(before, p.event, p.user).0;
            BookedFrom(db, if p.event !in es && Unseen(db, p.event) && Accepted(db, p.event, p.user)
              then es + [p.event] else es, after)
  {
    var e := p.event;
    SeenIn(db, es, before, e);
    if !Unseen(before, e) {
      SeenStaysPut(before, e, p.user);
    } else {
      SameRowLater(db, es, before, e);
      if Accepted(db, e, p.user) {
        BookAccepted(db, es, before, e, p.user);
      } else {
        ProcessUnseen(before, e, p.user);
      }
    }
  }

  lemma {:induction false} SeenStaysPut(db: Db, e: SyncEvent, user: Uuid)
    requires !Unseen(db, e)
    ensures Process(db, e, user).0 == db
  {
  }

  lemma {:induction false} Associate<T>(a: seq<T>, b: seq<T>, c: seq<T>)
    ensures (a + b) + c == a + (b + c)
  {
  }

  lemma {:induction false} BookMoves(book: StockBook, es: seq<SyncEvent>, e: SyncEvent, g: SyncEvent -> seq<Movement>)
    requires forall m :: m in Gather(es, g) ==> WellFormed(m) && m.kind.SaleOut?
    requires forall m :: m in g(e) ==> WellFormed(m) && m.kind.SaleOut?
    ensures forall m :: m in Gather(es + [e], g) ==> WellFormed(m) && m.kind.SaleOut?
    ensures PostAll(book, Gather(es + [e], g)) == PostAll(PostAll(book, Gather(es, g)), g(e))
  {
    GatherPush(es, e, g);
    assert forall m :: m in Gather(es + [e], g) ==> m in Gather(es, g) || m in g(e);
    PostAllConcat(book, Gather(es, g), g(e));
  }

  lemma {:induction false} BookOne(db: Db, es: seq<SyncEvent>, before: Db, e: SyncEvent, after: Db)
    requires BookedFrom(db, es, before)
    requires forall m :: m in MovesFor(db)(e) ==> WellFormed(m) && m.kind.SaleOut?
    requires after == before.(
               sales := before.sales + RowsFor(db)(e),
               entries := before.entries + EntriesFor(db)(e),
               book := PostAll(before.book, MovesFor(db)(e)),
               events := after.events)
    requires EventKeys(after.events) == EventKeys(before.events) + [(e.event, e.entity)]
    requires FollowInOrder(db, es + [e], after)
    ensures BookedFrom(db, es + [e], after)
  {
    GatherPush(es, e, RowsFor(db));
    Associate(db.sales, Gather(es, RowsFor(db)), RowsFor(db)(e));
    GatherPush(es, e, EntriesFor(db));
    Associate(db.entries, Gather(es, EntriesFor(db)), EntriesFor(db)(e));
    GatherPush(es, e, KeysFor());
    Associate(EventKeys(db.events), Gather(es, KeysFor()), [(e.event, e.entity)]);
    BookMoves(db.book, es, e, MovesFor(db));
  }

  /** Equal up to the order of rows and to what depends on who pushed first: the
      discrepancy flags and the transmitter. */
  ghost predicate SameBooks(a: Db, b: Db) {
    && a == b.(sales := a.sales, entries := a.entries, book := a.book, events := a.events)
    && multiset(a.sales) == multiset(b.sales)
    && multiset(a.entries) == multiset(b.entries)
    && a.book.rows == b.book.rows
    && multiset(a.book.movements) == multiset(b.book.movements)
    && a.book.changes == b.book.changes
    && multiset(EventKeys(a.events)) == multiset(EventKeys(b.events))
  }

  lemma {:induction false} SameRows(book: StockBook, a: seq<Movement>, b: seq<Movement>)
    requires multiset(a) == multiset(b)
    requires forall m :: m in a ==> WellFormed(m) && m.kind.SaleOut?
    requires forall m :: m in b ==> WellFormed(m) && m.kind.SaleOut?
    ensures PostAll(book, a).rows == PostAll(book, b).rows
  {
    var ra, rb := PostAll(book, a).rows, PostAll(book, b).rows;
    assert forall m :: m in a <==> m in multiset(a);
    assert forall m :: m in b <==> m in multiset(b);
    forall key
      ensures key in ra <==> key in rb
      ensures RowAt(ra, key) == RowAt(rb, key)
    {
      PostAllQuantities(book, a, key);
      PostAllQuantities(book, b, key);
      SumPermuted(a, b, QuantityAt(key));
      PostAllKeepsCost(book, a, key);
      PostAllKeepsCost(book, b, key);
    }
    forall key | key in ra ensures ra[key] == rb[key] {
      assert RowAt(ra, key) == RowAt(rb, key);
    }
  }

  /** Pushing the same events in another order, with other repetitions, ends in the
      same sales, stock, average costs, ledger and sessions. */
  lemma {:induction false} OrderIndependence(db: Db, ps: seq<Push>, qs: seq<Push>)
    requires Coherent(ps) && Coherent(qs)
    requires forall p :: p in ps <==> p in qs
    ensures SameBooks(PushAll(db, ps), PushAll(db, qs))
  {
    RunIsBooking(db, ps);
    RunIsBooking(db, qs);
    var es, fs := Admitted(db, ps), Admitted(db, qs);
    AdmittedElements(db, ps);
    AdmittedElements(db, qs);
    SameElementsPermuted(es, fs);
    GatherPermuted(es, fs, RowsFor(db));
    GatherPermuted(es, fs, EntriesFor(db));
    GatherPermuted(es, fs, MovesFor(db));
    GatherPermuted(es, fs, KeysFor());
    SameRows(db.book, Gather(es, MovesFor(db)), Gather(fs, MovesFor(db)));
    PostAllQuantities(db.book, Gather(es, MovesFor(db)), StockKey(0, 0));
    PostAllQuantities(db.book, Gather(fs, MovesFor(db)), StockKey(0, 0));
  }

  /** Same books, hence the same balances and the same session totals. */
  lemma {:induction false} SameBooksSameTotals(a: Db, b: Db, customer: Uuid, session: Uuid)
    requires SameBooks(a, b)
    ensures Balance(a.entries, customer) == Balance(b.entries, customer)
    ensures AggregateTotals(a, session) == AggregateTotals(b, session)
    ensures session in a.sessions ==> ExpectedCash(a, session) == ExpectedCash(b, session)
  {
    SumPermuted(a.entries, b.entries, OwedBy(customer));
    var sold := SoldIn(session);
    SumPermuted(a.sales, b.sales, SalesCountOf(sold));
    SumPermuted(a.sales, b.sales, GrossOf(sold));
    SumPermuted(a.sales, b.sales, CreditOf(sold));
    SumPermuted(a.sales, b.sales, TakenOf(sold, Cash));
    SumPermuted(a.sales, b.sales, TakenOf(sold, Wave));
    SumPermuted(a.sales, b.sales, TakenOf(sold, OrangeMoney));
  }
}
