/** The debt shown for one customer on one till, over whole runs of the system: balances are
    downloaded at one moment and saved at any later one, or never. */
module DebtRuns {
  import opened Sums
  import opened Rounding
  import opened Tables
  import opened Customers
  import opened Sync
  import opened Services
  import opened Invariants
  import opened LocalTables
  import opened LocalSales
  import Catalogue
  import opened SyncEngine
  import opened Replay
  import opened Protocol
  import opened Debt

  // ---------- The system with its customer books ----------

  /** The balances of a store's customers as the server gave them once. */
  datatype Book = Book(store: Uuid, balances: map<Uuid, int>)

  /** `books`: every book ever downloaded. */
  datatype World = World(system: System, books: set<Book>)

  datatype DebtMove =
    | Act(move: Move)
    | Download(store: Uuid)
    | SaveBook(till: nat, book: Book)
    // One customer as the server described it once: a creation, or a known number.
    | SaveOne(till: nat, book: Book, customer: Uuid)
    // The balance after a repayment, confirmed or confirmed again.
    | WriteBack(till: nat, store: Uuid, repayment: Repayment)

  function BookOf(db: Db, store: Uuid): Book {
    Book(store, map c | c in db.customers && db.customers[c].store == store :: Balance(db.entries, c))
  }

  ghost predicate CanMove(w: World, m: DebtMove) {
    match m
    case Act(move) => Possible(w.system, move)
    case Download(store) => true
    case SaveBook(k, book) => k in w.system.tills && book in w.books
    case SaveOne(k, book, c) => k in w.system.tills && book in w.books && c in book.balances
    case WriteBack(k, store, row) => k in w.system.tills && row in w.system.server.repayments
  }

  function WithTill(w: World, k: nat, t: Till): World {
    w.(system := w.system.(tills := w.system.tills[k := t]))
  }

  ghost function Moved(w: World, m: DebtMove): World
    requires CanMove(w, m)
  {
    match m
    case Act(move) => w.(system := Next(w.system, move))
    case Download(store) => w.(books := w.books + {BookOf(w.system.server, store)})
    case SaveBook(k, book) => WithTill(w, k, SaveCustomerBook(w.system.tills[k], book.store, book.balances))
    case SaveOne(k, book, c) =>
      WithTill(w, k, UpsertLocalCustomer(w.system.tills[k], (book.store, c), book.balances[c]))
    case WriteBack(k, store, row) =>
      WithTill(w, k, ApplyLocalCustomerPayment(w.system.tills[k], (store, row.customer), row.balanceAfter))
  }

  ghost predicate CanRun(w: World, ms: seq<DebtMove>)
    decreases |ms|, 0
  {
    |ms| > 0 ==> CanRun(w, ms[..|ms| - 1]) && CanMove(Ran(w, ms[..|ms| - 1]), ms[|ms| - 1])
  }

  ghost function Ran(w: World, ms: seq<DebtMove>): World
    requires CanRun(w, ms)
    decreases |ms|, 1
  {
    if |ms| == 0 then w else Moved(Ran(w, ms[..|ms| - 1]), ms[|ms| - 1])
  }

  // ---------- What is asked of a run ----------

  /** The sales of a till were made in sessions of their store. */
  ghost predicate AtHome(t: Till, db: Db) {
    forall id :: id in t.sales ==>
      t.sales[id].session in db.sessions && db.sessions[t.sales[id].session].store == t.sales[id].store
  }

  predicate InStore(db: Db, key: CustomerKey) {
    key.1 in db.customers ==> db.customers[key.1].store == key.0
  }

  /** Sales are recorded in a session of their store, the customer does not change store,
      and a book of the store saved on the till lists the customer. */
  ghost predicate Regular(w: World, m: DebtMove, k: nat, key: CustomerKey) {
    match m
    case Act(move) =>
      && (move.Record? && move.till == k ==>
            move.input.session in w.system.server.sessions
            && w.system.server.sessions[move.input.session].store == move.input.store)
      && (move.Serve? && move.command.Administer? && key.1 in move.command.customers ==>
            move.command.customers[key.1].store == key.0)
    case SaveBook(j, book) => j == k && book.store == key.0 ==> key.1 in book.balances
    case _ => true
  }

  ghost predicate RegularRun(w: World, ms: seq<DebtMove>, k: nat, key: CustomerKey)
    requires CanRun(w, ms)
  {
    |ms| > 0 ==> RegularRun(w, ms[..|ms| - 1], k, key) && Regular(Ran(w, ms[..|ms| - 1]), ms[|ms| - 1], k, key)
  }

  /** The customer is cached on the till, in a sound state of the whole system. */
  ghost predicate Tracked(w: World, k: nat, key: CustomerKey) {
    && SystemInv(w.system) && k in w.system.tills && key in w.system.tills[k].customers
    && AtHome(w.system.tills[k], w.system.server) && InStore(w.system.server, key)
  }

  ghost function ExcessOf(w: World, k: nat, key: CustomerKey): int
    requires k in w.system.tills && key in w.system.tills[k].customers
  {
    Excess(w.system.tills[k], w.system.server, key)
  }

  // ---------- What each move does to the excess ----------

  /** The credit of a sale the server books now and that is not on the till. */
  ghost function Foreign(t: Till, before: Db, after: Db, e: SyncEvent, key: CustomerKey): int {
    if Holds(after, e.entity) && !Holds(before, e.entity) && e.entity !in t.sales then Owed(e, key.1) else 0
  }

  /** What a move of the till itself adds to the excess. */
  ghost function TillShift(t: Till, db: Db, move: Move, key: CustomerKey): int
    requires move.Take? ==> move.id in t.sales
  {
    match move
    case CancelLocally(k, id) =>
      if CancelledTill(t, id).1 && Holds(db, id) then -ToCents(CreditOn(t.sales[id], key)) else 0
    case Take(k, id, outcome) =>
      if ReplyOf(outcome).Refused? && t.sales[id].status.SyncDone? then ToCents(CreditFor(t.sales[id], key)) else 0
    case _ => 0
  }

  /** What a move of the system adds to the excess. */
  ghost function Shift(s: System, move: Move, k: nat, key: CustomerKey): int
    requires Possible(s, move) && k in s.tills
  {
    match move
    case Serve(c) => Balance(s.server.entries, key.1) - Balance(Step(s.server, c).entries, key.1)
    case Deliver(e, user) => -Foreign(s.tills[k], s.server, Process(s.server, e, user).0, e, key)
    case DeliverLate(e, user) => -Foreign(s.tills[k], s.server, Commit(s.server, e, user).0, e, key)
    case _ => if move.till == k then TillShift(s.tills[k], s.server, move, key) else 0
  }

  /** The excess after any move. A balance saved again sets it, whatever it was. */
  ghost function ExcessAfter(before: int, w: World, m: DebtMove, k: nat, key: CustomerKey): int
    requires CanMove(w, m) && k in w.system.tills
  {
    var t, db := w.system.tills[k], w.system.server;
    match m
    case Act(move) => before + Shift(w.system, move, k, key)
    case Download(store) => before
    case SaveBook(j, book) =>
      if j == k && book.store == key.0 && key.1 in book.balances then Reread(t, db, key, book.balances[key.1])
        else before
    case SaveOne(j, book, c) =>
      if j == k && (book.store, c) == key then Reread(t, db, key, book.balances[c]) else before
    case WriteBack(j, store, row) =>
      if j == k && (store, row.customer) == key then Reread(t, db, key, row.balanceAfter) else before
  }

  ghost function ExpectedExcess(w: World, ms: seq<DebtMove>, k: nat, key: CustomerKey): int
    requires CanRun(w, ms) && Tracked(w, k, key) && RegularRun(w, ms, k, key)
  {
    if |ms| == 0 then ExcessOf(w, k, key)
    else
      var front := ms[..|ms| - 1];
      RunTracked(w, front, k, key);
      ExcessAfter(ExpectedExcess(w, front, k, key), Ran(w, front), ms[|ms| - 1], k, key)
  }

  // ---------- Tracked stays tracked ----------

  lemma {:induction false} Keyed(s: System, k: nat)
    requires SystemInv(s) && k in s.tills
    ensures KeyedById(s.tills[k])
  {
    assert TillKnown(s.tills[k], s.issued);
  }

  lemma {:induction false} SessionsStay(db: Db, c: Command)
    requires Inv(db)
    ensures SessionsExtend(db.sessions, Step(db, c).sessions)
  {
    var effect := StepApplies(db, c);
    TablesExtend(db, effect);
  }

  lemma {:induction false} HomeStays(t: Till, before: Db, after: Db)
    requires AtHome(t, before) && SessionsExtend(before.sessions, after.sessions)
    ensures AtHome(t, after)
  {
  }

  lemma {:induction false} ServedTracked(w: World, c: Command, k: nat, key: CustomerKey)
    requires Tracked(w, k, key) && CanMove(w, Act(Serve(c))) && Regular(w, Act(Serve(c)), k, key)
    ensures Tracked(Moved(w, Act(Serve(c))), k, key)
  {
    var db := w.system.server;
    MoveKeeps(w.system, Serve(c));
    SessionsStay(db, c);
    HomeStays(w.system.tills[k], db, Step(db, c));
    if !c.Administer? { ReferenceStays(db, c); }
  }

  lemma {:induction false} TrackedWith(w: World, s: System, k: nat, key: CustomerKey)
    requires Tracked(w, k, key) && SystemInv(s) && s.tills == w.system.tills
    requires s.server.sessions == w.system.server.sessions && s.server.customers == w.system.server.customers
    ensures Tracked(w.(system := s), k, key)
  {
  }

  lemma {:induction false} ReplayTracked(w: World, move: Move, k: nat, key: CustomerKey)
    requires Tracked(w, k, key) && (move.Deliver? || move.DeliverLate?) && Possible(w.system, move)
    requires ReplayTables(w.system.server, move.event, ServerAfter(w.system.server, move))
    ensures Tracked(Moved(w, Act(move)), k, key)
  {
    MoveKeeps(w.system, move);
    TrackedWith(w, Next(w.system, move), k, key);
  }

  lemma {:induction false} DeliveredTracked(w: World, e: SyncEvent, user: Uuid, k: nat, key: CustomerKey)
    requires Tracked(w, k, key) && e in w.system.sent
    ensures Tracked(Moved(w, Act(Deliver(e, user))), k, key)
    ensures Tracked(Moved(w, Act(DeliverLate(e, user))), k, key)
  {
    ProcessTables(w.system.server, e, user);
    CommitTables(w.system.server, e, user);
    ReplayTracked(w, Deliver(e, user), k, key);
    ReplayTracked(w, DeliverLate(e, user), k, key);
  }

  lemma {:induction false} LocalCustomers(t: Till, move: Move, key: CustomerKey)
    requires Local(move) && (move.RefreshCatalogue? ==> Catalogue.RefreshSpec(t, move.store, move.catalogue).Ok?)
    ensures key in t.customers ==> key in TillNext(t, move).customers
  {
  }

  lemma {:induction false} LocalTracked(w: World, move: Move, k: nat, key: CustomerKey)
    requires Tracked(w, k, key) && Local(move) && Possible(w.system, move)
    ensures Tracked(Moved(w, Act(move)), k, key)
  {
    MoveKeeps(w.system, move);
    if move.till == k {
      LocalMove(w.system.tills[k], move);
      LocalCustomers(w.system.tills[k], move, key);
      SameHome(w.system.tills[k], TillNext(w.system.tills[k], move), w.system.server);
    }
  }

  lemma {:induction false} SameHome(t: Till, after: Till, db: Db)
    requires AtHome(t, db) && SameContent(t, after)
    ensures AtHome(after, db)
  {
    forall id | id in after.sales
      ensures after.sales[id].session in db.sessions
                && db.sessions[after.sales[id].session].store == after.sales[id].store
    {
      assert SameRecord(t.sales[id], after.sales[id]);
    }
  }

  lemma {:induction false} NewSaleAtHome(t: Till, db: Db, x: SaleInput, stamp: Stamp)
    requires AtHome(t, db) && CreateSpec(t, x, stamp).Ok?
    requires x.session in db.sessions && db.sessions[x.session].store == x.store
    ensures AtHome(CreateSpec(t, x, stamp).value.0, db)
    ensures CreateSpec(t, x, stamp).value.0.customers == t.customers
  {
  }

  lemma {:induction false} RecordedTracked(w: World, move: Move, k: nat, key: CustomerKey)
    requires Tracked(w, k, key) && move.Record? && Possible(w.system, move) && Regular(w, Act(move), k, key)
    ensures Tracked(Moved(w, Act(move)), k, key)
  {
    MoveKeeps(w.system, move);
    if move.till == k { NewSaleAtHome(w.system.tills[k], w.system.server, move.input, move.stamp); }
  }

  lemma {:induction false} BatchedTracked(w: World, move: Move, k: nat, key: CustomerKey)
    requires Tracked(w, k, key) && move.Batch? && Possible(w.system, move)
    ensures Tracked(Moved(w, Act(move)), k, key)
  {
    MoveKeeps(w.system, move);
    TrackedWith(w, Next(w.system, move), k, key);
  }

  lemma {:induction false} SystemWithCustomers(s: System, k: nat, t: Till)
    requires SystemInv(s) && k in s.tills && t.sales == s.tills[k].sales
    ensures SystemInv(s.(tills := s.tills[k := t]))
  {
    assert TillKnown(s.tills[k], s.issued) && SyncedHeld(s.tills[k], s.server);
  }

  lemma {:induction false} CachedTracked(w: World, j: nat, t: Till, k: nat, key: CustomerKey)
    requires Tracked(w, k, key) && j in w.system.tills && t.sales == w.system.tills[j].sales
    requires j == k ==> key in t.customers
    ensures Tracked(WithTill(w, j, t), k, key)
  {
    SystemWithCustomers(w.system, j, t);
  }

  lemma {:induction false} BookTracked(w: World, m: DebtMove, k: nat, key: CustomerKey)
    requires Tracked(w, k, key) && CanMove(w, m) && Regular(w, m, k, key) && !m.Act?
    ensures Tracked(Moved(w, m), k, key)
  {
    if m.SaveBook? {
      CachedTracked(w, m.till, SaveCustomerBook(w.system.tills[m.till], m.book.store, m.book.balances), k, key);
    } else if m.SaveOne? {
      var t := UpsertLocalCustomer(w.system.tills[m.till], (m.book.store, m.customer), m.book.balances[m.customer]);
      CachedTracked(w, m.till, t, k, key);
    } else if m.WriteBack? {
      var row := m.repayment;
      var t := ApplyLocalCustomerPayment(w.system.tills[m.till], (m.store, row.customer), row.balanceAfter);
      CachedTracked(w, m.till, t, k, key);
    }
  }

  lemma {:induction false} MovedTracked(w: World, m: DebtMove, k: nat, key: CustomerKey)
    requires Tracked(w, k, key) && CanMove(w, m) && Regular(w, m, k, key)
    ensures Tracked(Moved(w, m), k, key)
  {
    if !m.Act? { BookTracked(w, m, k, key); }
    else if m.move.Serve? { ServedTracked(w, m.move.command, k, key); }
    else if m.move.Deliver? || m.move.DeliverLate? { DeliveredTracked(w, m.move.event, m.move.user, k, key); }
    else if Local(m.move) { LocalTracked(w, m.move, k, key); }
    else if m.move.Record? { RecordedTracked(w, m.move, k, key); }
    else { BatchedTracked(w, m.move, k, key); }
  }

  lemma {:induction false} RunTracked(w: World, ms: seq<DebtMove>, k: nat, key: CustomerKey)
    requires CanRun(w, ms) && Tracked(w, k, key) && RegularRun(w, ms, k, key)
    ensures Tracked(Ran(w, ms), k, key)
  {
    if |ms| > 0 {
      RunTracked(w, ms[..|ms| - 1], k, key);
      MovedTracked(Ran(w, ms[..|ms| - 1]), ms[|ms| - 1], k, key);
    }
  }

  // ---------- Each move, proved ----------

  lemma {:induction false} ServingExcess(w: World, c: Command, k: nat, key: CustomerKey)
    requires Tracked(w, k, key) && Possible(w.system, Serve(c))
    ensures Excess(w.system.tills[k], Step(w.system.server, c), key) ==
            ExcessOf(w, k, key) + Balance(w.system.server.entries, key.1)
              - Balance(Step(w.system.server, c).entries, key.1)
  {
    var t, db, after := w.system.tills[k], w.system.server, Step(w.system.server, c);
    Keyed(w.system, k);
    forall id | id in t.sales
      ensures UnknownCredit(after.sales, key)(t.sales[id]) == UnknownCredit(db.sales, key)(t.sales[id]) {
      assert TillKnown(t, w.system.issued);
      ServeHolds(w.system, c, id);
    }
    TotalAgree(t.sales, UnknownCredit(db.sales, key), UnknownCredit(after.sales, key));
  }

  lemma {:induction false} NewlyHeld(db: Db, e: SyncEvent, after: Db)
    requires Unseen(db, e) && Valid(db, e) && after.sales == db.sales + [RowFor(db, e)]
    ensures Holds(after, e.entity) && !Holds(db, e.entity)
  {
    assert after.sales[|db.sales|].id == e.entity;
  }

  lemma {:induction false} ReplayingExcess(w: World, e: SyncEvent, after: Db, k: nat, key: CustomerKey)
    requires Tracked(w, k, key) && e in w.system.sent && ReplayTables(w.system.server, e, after)
    ensures Excess(w.system.tills[k], after, key) ==
            ExcessOf(w, k, key) - Foreign(w.system.tills[k], w.system.server, after, e, key)
  {
    var db := w.system.server;
    if after.sales == db.sales && after.entries == db.entries {
      SameTablesExcess(w.system.tills[k], db, after, e, key);
    } else {
      NewlyHeld(db, e, after);
      Keyed(w.system, k);
      OwnSale(w, e, k, key);
      BookingExcess(w.system.tills[k], db, e, after, key);
    }
  }

  lemma {:induction false} SameTablesExcess(t: Till, db: Db, after: Db, e: SyncEvent, key: CustomerKey)
    requires key in t.customers && after.sales == db.sales && after.entries == db.entries
    ensures Excess(t, after, key) == Excess(t, db, key) && Foreign(t, db, after, e, key) == 0
  {
  }

  /** A sale of this till the server does not hold is pending there, made in its store. */
  lemma {:induction false} OwnSale(w: World, e: SyncEvent, k: nat, key: CustomerKey)
    requires Tracked(w, k, key) && e in w.system.sent && !Holds(w.system.server, e.entity)
    ensures var t := w.system.tills[k];
            e.entity in t.sales ==>
              && ToSyncEvent(t.sales[e.entity]) == e && !t.sales[e.entity].status.SyncDone?
              && e.session in w.system.server.sessions
              && w.system.server.sessions[e.session].store == t.sales[e.entity].store
  {
    assert TillKnown(w.system.tills[k], w.system.issued) && SyncedHeld(w.system.tills[k], w.system.server);
  }

  lemma {:induction false} TakingExcess(w: World, id: Uuid, outcome: Outcome, k: nat, key: CustomerKey)
    requires Tracked(w, k, key) && Possible(w.system, Take(k, id, outcome))
    ensures var t := w.system.tills[k];
            var after := Applied(t, id, ReplyOf(outcome));
            && key in after.customers
            && Excess(after, w.system.server, key) ==
               ExcessOf(w, k, key) + if ReplyOf(outcome).Refused? && t.sales[id].status.SyncDone?
                                     then ToCents(CreditFor(t.sales[id], key)) else 0
  {
    var t, db := w.system.tills[k], w.system.server;
    Keyed(w.system, k);
    assert SyncedHeld(t, db);
    match ReplyOf(outcome)
    case Confirmed(serverId) =>
      AnsweredIsHeld(w.system, k, id, outcome);
      MarkingKeepsExcess(t, db, id, serverId, key);
    case Refused(code) => RefusingExcess(t, db, id, code, key);
    case NoResult =>
  }

  lemma {:induction false} AnsweredIsHeld(s: System, k: nat, id: Uuid, outcome: Outcome)
    requires SystemInv(s) && Possible(s, Take(k, id, outcome)) && Positive(outcome)
    ensures Holds(s.server, id)
  {
    assert TillKnown(s.tills[k], s.issued);
    assert s.issued[outcome.entity].event == s.tills[k].sales[id].event == s.issued[id].event;
  }

  lemma {:induction false} CancelActs(w: World, id: Uuid, k: nat, key: CustomerKey)
    requires Tracked(w, k, key)
    ensures var t := w.system.tills[k];
            var after := CancelledTill(t, id).0;
            && key in after.customers
            && Excess(after, w.system.server, key) ==
               ExcessOf(w, k, key) - if CancelledTill(t, id).1 && Holds(w.system.server, id)
                 then ToCents(CreditOn(t.sales[id], key)) else 0
  {
    Keyed(w.system, k);
    if CancelledTill(w.system.tills[k], id).1 { CancellingExcess(w.system.tills[k], w.system.server, id, key); }
  }

  /** Products play no part. */
  lemma {:induction false} ProductsActs(t: Till, after: Till, db: Db, key: CustomerKey)
    requires key in t.customers && after == t.(products := after.products)
    ensures Excess(after, db, key) == Excess(t, db, key)
  {
  }

  lemma {:induction false} LocalExcess(w: World, move: Move, k: nat, key: CustomerKey)
    requires Tracked(w, k, key) && Local(move) && move.till == k && Possible(w.system, move)
    ensures key in TillNext(w.system.tills[k], move).customers
    ensures Excess(TillNext(w.system.tills[k], move), w.system.server, key) ==
            ExcessOf(w, k, key) + TillShift(w.system.tills[k], w.system.server, move, key)
  {
    var t, db := w.system.tills[k], w.system.server;
    if move.CancelLocally? { CancelActs(w, move.id, k, key); }
    else if move.Take? { TakingExcess(w, move.id, move.outcome, k, key); }
    else if move.RequeueConflicts? { RequeueingExcess(t, db, key); }
    else { ProductsActs(t, TillNext(t, move), db, key); }
  }

  lemma {:induction false} RecordingExcess(w: World, move: Move, k: nat, key: CustomerKey)
    requires Tracked(w, k, key) && move.Record? && move.till == k && Possible(w.system, move)
    ensures key in TillNext(w.system.tills[k], move).customers
    ensures Excess(TillNext(w.system.tills[k], move), w.system.server, key) == ExcessOf(w, k, key)
  {
    var t, db := w.system.tills[k], w.system.server;
    assert !Holds(db, move.stamp.id);
    CreatingKeepsExcess(t, db, move.input, move.stamp, key);
  }

  lemma {:induction false} DeliveringExcess(w: World, e: SyncEvent, user: Uuid, k: nat, key: CustomerKey)
    requires Tracked(w, k, key) && e in w.system.sent
    ensures var t, db := w.system.tills[k], w.system.server;
            && Excess(t, Process(db, e, user).0, key) ==
              ExcessOf(w, k, key) - Foreign(t, db, Process(db, e, user).0, e, key)
            && Excess(t, Commit(db, e, user).0, key) ==
              ExcessOf(w, k, key) - Foreign(t, db, Commit(db, e, user).0, e, key)
  {
    var processed, committed := Process(w.system.server, e, user).0, Commit(w.system.server, e, user).0;
    ProcessTables(w.system.server, e, user);
    CommitTables(w.system.server, e, user);
    ReplayingExcess(w, e, processed, k, key);
    ReplayingExcess(w, e, committed, k, key);
  }

  /** The server after a move. */
  ghost function ServerAfter(db: Db, move: Move): Db {
    match move
    case Serve(c) => Step(db, c)
    case Deliver(e, user) => Process(db, e, user).0
    case DeliverLate(e, user) => Commit(db, e, user).0
    case _ => db
  }

  /** A move changes the server or a till, never both. */
  lemma {:induction false} ServerActs(s: System, move: Move, k: nat)
    requires Possible(s, move) && k in s.tills
    ensures Next(s, move).server == ServerAfter(s.server, move)
    ensures k in Next(s, move).tills
    ensures Next(s, move).tills[k] ==
            if (Local(move) || move.Record?) && move.till == k then TillNext(s.tills[k], move) else s.tills[k]
  {
  }

  lemma {:induction false} TillActs(s: System, move: Move, k: nat, key: CustomerKey)
    requires Possible(s, move) && k in s.tills && key in s.tills[k].customers && (Local(move) || move.Record?)
    requires move.till == k ==> key in TillNext(s.tills[k], move).customers
    requires move.till == k ==>
               Excess(TillNext(s.tills[k], move), s.server, key) ==
               Excess(s.tills[k], s.server, key) + TillShift(s.tills[k], s.server, move, key)
    ensures k in Next(s, move).tills && key in Next(s, move).tills[k].customers
    ensures Excess(Next(s, move).tills[k], Next(s, move).server, key) ==
            Excess(s.tills[k], s.server, key) + Shift(s, move, k, key)
  {
  }

  lemma {:induction false} OwnActing(w: World, move: Move, k: nat, key: CustomerKey)
    requires Tracked(w, k, key) && Possible(w.system, move) && (Local(move) || move.Record?)
    ensures move.till == k ==> key in TillNext(w.system.tills[k], move).customers
    ensures move.till == k ==>
              Excess(TillNext(w.system.tills[k], move), w.system.server, key) ==
              ExcessOf(w, k, key) + TillShift(w.system.tills[k], w.system.server, move, key)
  {
    if move.till == k {
      if move.Record? { RecordingExcess(w, move, k, key); } else { LocalExcess(w, move, k, key); }
    }
  }

  lemma {:induction false} ServerExcess(w: World, move: Move, k: nat, key: CustomerKey)
    requires Tracked(w, k, key) && Possible(w.system, move) && (move.Serve? || move.Deliver? || move.DeliverLate?)
    ensures Excess(w.system.tills[k], ServerAfter(w.system.server, move), key) ==
            ExcessOf(w, k, key) + Shift(w.system, move, k, key)
  {
    if move.Serve? { ServingExcess(w, move.command, k, key); }
    else { DeliveringExcess(w, move.event, move.user, k, key); }
  }

  lemma {:induction false} ActingExcess(w: World, move: Move, k: nat, key: CustomerKey)
    requires Tracked(w, k, key) && Possible(w.system, move)
    ensures var next := Next(w.system, move);
            k in next.tills && key in next.tills[k].customers
            && Excess(next.tills[k], next.server, key) == ExcessOf(w, k, key) + Shift(w.system, move, k, key)
  {
    if Local(move) || move.Record? {
      OwnActing(w, move, k, key);
      TillActs(w.system, move, k, key);
    } else if !move.Batch? {
      ServerExcess(w, move, k, key);
      ServerActs(w.system, move, k);
    }
  }

  /** Another customer's cached balance plays no part. */
  lemma {:induction false} OthersActs(t: Till, after: Till, db: Db, key: CustomerKey)
    requires key in t.customers && key in after.customers && after.customers[key] == t.customers[key]
               && after.sales == t.sales
    ensures Excess(after, db, key) == Excess(t, db, key)
  {
  }

  lemma {:induction false} SavingExcess(t: Till, book: Book, db: Db, key: CustomerKey)
    requires key in t.customers && (book.store == key.0 ==> key.1 in book.balances)
    ensures var after := SaveCustomerBook(t, book.store, book.balances);
            && key in after.customers
            && Excess(after, db, key) ==
               if book.store == key.0 then Reread(t, db, key, book.balances[key.1]) else Excess(t, db, key)
  {
    var after := SaveCustomerBook(t, book.store, book.balances);
    if book.store == key.0 {
      assert after.customers[key] == ReadBalance(book.balances[key.1]);
      RereadExcess(after, db, key, book.balances[key.1]);
    } else {
      OthersActs(t, after, db, key);
    }
  }

  lemma {:induction false} WritingExcess(t: Till, written: CustomerKey, balance: int, db: Db, key: CustomerKey)
    requires key in t.customers
    ensures var after := UpsertLocalCustomer(t, written, balance);
            && key in after.customers
            && Excess(after, db, key) == if written == key then Reread(t, db, key, balance) else Excess(t, db, key)
  {
    var after := UpsertLocalCustomer(t, written, balance);
    if written == key { RereadExcess(after, db, key, balance); } else { OthersActs(t, after, db, key); }
  }

  lemma {:induction false} BookSaved(w: World, j: nat, book: Book, k: nat, key: CustomerKey)
    requires Tracked(w, k, key) && CanMove(w, SaveBook(j, book)) && Regular(w, SaveBook(j, book), k, key)
    requires Tracked(Moved(w, SaveBook(j, book)), k, key)
    ensures ExcessOf(Moved(w, SaveBook(j, book)), k, key) ==
              ExcessAfter(ExcessOf(w, k, key), w, SaveBook(j, book), k, key)
  {
    if j == k { SavingExcess(w.system.tills[k], book, w.system.server, key); }
  }

  lemma {:induction false} OneSaved(w: World, j: nat, book: Book, c: Uuid, k: nat, key: CustomerKey)
    requires Tracked(w, k, key) && CanMove(w, SaveOne(j, book, c)) && Tracked(Moved(w, SaveOne(j, book, c)), k, key)
    ensures ExcessOf(Moved(w, SaveOne(j, book, c)), k, key) ==
              ExcessAfter(ExcessOf(w, k, key), w, SaveOne(j, book, c), k, key)
  {
    if j == k { WritingExcess(w.system.tills[k], (book.store, c), book.balances[c], w.system.server, key); }
  }

  lemma {:induction false} PaymentWritten(w: World, j: nat, store: Uuid, row: Repayment, k: nat, key: CustomerKey)
    requires Tracked(w, k, key) && CanMove(w, WriteBack(j, store, row))
               && Tracked(Moved(w, WriteBack(j, store, row)), k, key)
    ensures ExcessOf(Moved(w, WriteBack(j, store, row)), k, key) ==
            ExcessAfter(ExcessOf(w, k, key), w, WriteBack(j, store, row), k, key)
  {
    if j == k { WritingExcess(w.system.tills[k], (store, row.customer), row.balanceAfter, w.system.server, key); }
  }

  lemma {:induction false} RereadingExcess(w: World, m: DebtMove, k: nat, key: CustomerKey)
    requires Tracked(w, k, key) && CanMove(w, m) && Regular(w, m, k, key) && !m.Act? && Tracked(Moved(w, m), k, key)
    ensures ExcessOf(Moved(w, m), k, key) == ExcessAfter(ExcessOf(w, k, key), w, m, k, key)
  {
    match m
    case Download(store) =>
    case SaveBook(j, book) => BookSaved(w, j, book, k, key);
    case SaveOne(j, book, c) => OneSaved(w, j, book, c, k, key);
    case WriteBack(j, store, row) => PaymentWritten(w, j, store, row, k, key);
  }

  /** In every run, the debt shown for a customer differs from the server's balance plus the
      unsynchronised credit the server does not know by exactly what these moves left:
      services that changed the balance, bookings of sales that are not on this till,
      cancellations here of booked sales, late refusals of synchronised ones; and every
      balance saved again starts anew from its own age. */
  lemma {:induction false} ExcessInEveryRun(w: World, ms: seq<DebtMove>, k: nat, key: CustomerKey)
    requires CanRun(w, ms) && Tracked(w, k, key) && RegularRun(w, ms, k, key)
    ensures Tracked(Ran(w, ms), k, key)
    ensures ExcessOf(Ran(w, ms), k, key) == ExpectedExcess(w, ms, k, key)
  {
    RunTracked(w, ms, k, key);
    if |ms| > 0 {
      var front, m := ms[..|ms| - 1], ms[|ms| - 1];
      ExcessInEveryRun(w, front, k, key);
      MovedTracked(Ran(w, front), m, k, key);
      if m.Act? { ActingExcess(Ran(w, front), m.move, k, key); } else { RereadingExcess(Ran(w, front), m, k, key); }
    }
  }

  // ---------- Runs that leave the debt shown right ----------

  /** The move changes the excess, or sets it anew. */
  ghost predicate Disturbs(w: World, m: DebtMove, k: nat, key: CustomerKey)
    requires CanMove(w, m) && k in w.system.tills
  {
    match m
    case Act(move) => Shift(w.system, move, k, key) != 0
    case Download(store) => false
    case SaveBook(j, book) => j == k && book.store == key.0
    case SaveOne(j, book, c) => j == k && (book.store, c) == key
    case WriteBack(j, store, row) => j == k && (store, row.customer) == key
  }

  ghost predicate Undisturbed(w: World, ms: seq<DebtMove>, k: nat, key: CustomerKey)
    requires CanRun(w, ms) && Tracked(w, k, key) && RegularRun(w, ms, k, key)
  {
    |ms| > 0 ==>
      && Undisturbed(w, ms[..|ms| - 1], k, key)
      && (RunTracked(w, ms[..|ms| - 1], k, key); !Disturbs(Ran(w, ms[..|ms| - 1]), ms[|ms| - 1], k, key))
  }

  lemma {:induction false} UndisturbedMove(w: World, m: DebtMove, k: nat, key: CustomerKey)
    requires Tracked(w, k, key) && CanMove(w, m) && Regular(w, m, k, key) && !Disturbs(w, m, k, key)
    ensures Tracked(Moved(w, m), k, key) && ExcessOf(Moved(w, m), k, key) == ExcessOf(w, k, key)
  {
    MovedTracked(w, m, k, key);
    if m.Act? { ActingExcess(w, m.move, k, key); } else { RereadingExcess(w, m, k, key); }
  }

  /** Recording, pushing, booking, losing, repeating, answering, marking, requeueing, refusing
      and unbooked cancelling leave the debt shown as right as it was: once it is the
      server's balance plus the credit the server does not know, it remains so. */
  lemma {:induction false} UndisturbedRun(w: World, ms: seq<DebtMove>, k: nat, key: CustomerKey)
    requires CanRun(w, ms) && Tracked(w, k, key) && RegularRun(w, ms, k, key) && Undisturbed(w, ms, k, key)
    ensures Tracked(Ran(w, ms), k, key) && ExcessOf(Ran(w, ms), k, key) == ExcessOf(w, k, key)
  {
    RunTracked(w, ms, k, key);
    if |ms| > 0 {
      UndisturbedRun(w, ms[..|ms| - 1], k, key);
      UndisturbedMove(Ran(w, ms[..|ms| - 1]), ms[|ms| - 1], k, key);
    }
  }

  // ---------- A book downloaded at one moment and saved at another ----------

  /** What a move changes in the balance that the sales of the till do not explain. */
  ghost function OutsideMove(earlier: Db, w: World, m: DebtMove, k: nat, key: CustomerKey): int
    requires CanMove(w, m) && k in w.system.tills
  {
    var t, db := w.system.tills[k], w.system.server;
    match m
    case Act(move) =>
      (match move
       case Serve(c) => Balance(Step(db, c).entries, key.1) - Balance(db.entries, key.1)
       case Deliver(e, user) => Foreign(t, db, Process(db, e, user).0, e, key)
       case DeliverLate(e, user) => Foreign(t, db, Commit(db, e, user).0, e, key)
       case CancelLocally(j, id) =>
         if j == k && CancelledTill(t, id).1 then ToCents(BookedSince(earlier.sales, db.sales, key)(t.sales[id])) else 0
       case _ => 0)
    case _ => 0
  }

  /** The same over a run: services for this customer, sales of other tills booked for
      him, and sales booked since and cancelled here. */
  ghost function Outside(earlier: Db, w: World, ms: seq<DebtMove>, k: nat, key: CustomerKey): int
    requires CanRun(w, ms) && Tracked(w, k, key) && RegularRun(w, ms, k, key)
  {
    if |ms| == 0 then 0
    else
      var front := ms[..|ms| - 1];
      RunTracked(w, front, k, key);
      Outside(earlier, w, front, k, key) + OutsideMove(earlier, Ran(w, front), ms[|ms| - 1], k, key)
  }

  ghost predicate NothingLost(before: Db, after: Db) {
    forall id :: Holds(before, id) ==> Holds(after, id)
  }

  ghost function UnexplainedOf(earlier: Db, w: World, k: nat, key: CustomerKey): int
    requires k in w.system.tills
  {
    Unexplained(earlier, w.system.tills[k], w.system.server, key)
  }

  lemma {:induction false} ExtendedLosesNothing(before: Db, after: Db)
    requires SalesExtend(before.sales, after.sales)
    ensures NothingLost(before, after)
  {
    forall id | Holds(before, id) ensures Holds(after, id) { StillHeld(before.sales, after.sales, id); }
  }

  lemma {:induction false} ReplayLosesNothing(db: Db, e: SyncEvent, after: Db)
    requires ReplayTables(db, e, after)
    ensures NothingLost(db, after)
  {
    ExtendedLosesNothing(db, after);
  }

  lemma {:induction false} NothingLostYet(db: Db, move: Move)
    requires Inv(db) && (move.Serve? ==> !Replays(move.command))
    ensures NothingLost(db, ServerAfter(db, move))
  {
    if move.Serve? {
      OtherServices(db, move.command);
      ExtendedLosesNothing(db, Step(db, move.command));
    } else if move.Deliver? {
      ProcessTables(db, move.event, move.user);
      ReplayLosesNothing(db, move.event, Process(db, move.event, move.user).0);
    } else if move.DeliverLate? {
      CommitTables(db, move.event, move.user);
      ReplayLosesNothing(db, move.event, Commit(db, move.event, move.user).0);
    }
  }

  lemma {:induction false} ServingUnexplained(earlier: Db, w: World, c: Command, k: nat, key: CustomerKey)
    requires Tracked(w, k, key) && Possible(w.system, Serve(c))
    ensures Unexplained(earlier, w.system.tills[k], Step(w.system.server, c), key) ==
            UnexplainedOf(earlier, w, k, key) + Balance(Step(w.system.server, c).entries, key.1)
              - Balance(w.system.server.entries, key.1)
  {
    var t, db, after := w.system.tills[k], w.system.server, Step(w.system.server, c);
    Keyed(w.system, k);
    var f, g := BookedSince(earlier.sales, db.sales, key), BookedSince(earlier.sales, after.sales, key);
    forall id | id in t.sales ensures f(t.sales[id]) == g(t.sales[id]) {
      assert TillKnown(t, w.system.issued);
      ServeHolds(w.system, c, id);
    }
    TotalAgree(t.sales, f, g);
  }

  lemma {:induction false} ReplayingUnexplained(earlier: Db, w: World, e: SyncEvent, after: Db, k: nat,
      key: CustomerKey)
    requires Tracked(w, k, key) && e in w.system.sent && ReplayTables(w.system.server, e, after)
    requires NothingLost(earlier, w.system.server)
    ensures Unexplained(earlier, w.system.tills[k], after, key) ==
            UnexplainedOf(earlier, w, k, key) + Foreign(w.system.tills[k], w.system.server, after, e, key)
  {
    var t, db := w.system.tills[k], w.system.server;
    if after.sales == db.sales && after.entries == db.entries {
      SameTablesUnexplained(earlier, t, db, after, e, key);
    } else {
      NewlyHeld(db, e, after);
      Keyed(w.system, k);
      OwnSale(w, e, k, key);
      assert !Holds(earlier, e.entity);
      BookingUnexplained(earlier, t, db, e, after, key);
    }
  }

  lemma {:induction false} SameTablesUnexplained(earlier: Db, t: Till, db: Db, after: Db, e: SyncEvent,
      key: CustomerKey)
    requires after.sales == db.sales && after.entries == db.entries
    ensures Unexplained(earlier, t, after, key) == Unexplained(earlier, t, db, key)
              && Foreign(t, db, after, e, key) == 0
  {
  }

  lemma {:induction false} SameSales(t: Till, move: Move)
    requires Local(move) && !move.CancelLocally?
               && (move.RefreshCatalogue? ==> Catalogue.RefreshSpec(t, move.store, move.catalogue).Ok?)
    ensures TillNext(t, move).sales.Keys == t.sales.Keys
  {
  }

  lemma {:induction false} CancelUnexplained(earlier: Db, w: World, id: Uuid, k: nat, key: CustomerKey)
    requires k in w.system.tills
    ensures Unexplained(earlier, CancelledTill(w.system.tills[k], id).0, w.system.server, key) ==
            UnexplainedOf(earlier, w, k, key) + OutsideMove(earlier, w, Act(CancelLocally(k, id)), k, key)
  {
    var t := w.system.tills[k];
    if CancelledTill(t, id).1 { CancellingUnexplained(earlier, t, w.system.server, id, key); }
  }

  lemma {:induction false} RecordUnexplained(earlier: Db, w: World, move: Move, k: nat, key: CustomerKey)
    requires Tracked(w, k, key) && Possible(w.system, move) && move.Record? && move.till == k
    ensures Unexplained(earlier, TillNext(w.system.tills[k], move), w.system.server, key) ==
              UnexplainedOf(earlier, w, k, key)
  {
    assert !Holds(w.system.server, move.stamp.id);
    CreatingUnexplained(earlier, w.system.tills[k], w.system.server, move.input, move.stamp, key);
  }

  lemma {:induction false} KeepingUnexplained(earlier: Db, w: World, move: Move, k: nat, key: CustomerKey)
    requires k in w.system.tills && Possible(w.system, move) && Local(move) && move.till == k && !move.CancelLocally?
    ensures Unexplained(earlier, TillNext(w.system.tills[k], move), w.system.server, key) ==
              UnexplainedOf(earlier, w, k, key)
  {
    var t := w.system.tills[k];
    SameSales(t, move);
    LocalMove(t, move);
    SameContentUnexplained(earlier, t, TillNext(t, move), w.system.server, key);
  }

  lemma {:induction false} LocalUnexplained(earlier: Db, w: World, move: Move, k: nat, key: CustomerKey)
    requires Tracked(w, k, key) && Possible(w.system, move) && (Local(move) || move.Record?) && move.till == k
    ensures Unexplained(earlier, TillNext(w.system.tills[k], move), w.system.server, key) ==
            UnexplainedOf(earlier, w, k, key) + OutsideMove(earlier, w, Act(move), k, key)
  {
    if move.CancelLocally? { CancelUnexplained(earlier, w, move.id, k, key); }
    else if move.Record? { RecordUnexplained(earlier, w, move, k, key); }
    else { KeepingUnexplained(earlier, w, move, k, key); }
  }

  lemma {:induction false} SameContentUnexplained(earlier: Db, t: Till, after: Till, db: Db, key: CustomerKey)
    requires SameContent(t, after) && after.sales.Keys == t.sales.Keys
    ensures Unexplained(earlier, after, db, key) == Unexplained(earlier, t, db, key)
  {
    forall id | id in t.sales
      ensures after.sales[id].id == t.sales[id].id && CreditFor(after.sales[id], key) == CreditFor(t.sales[id], key)
    {
      assert SameRecord(t.sales[id], after.sales[id]);
    }
    SameUnexplained(earlier, t, after, db, key);
  }

  lemma {:induction false} ReplaysUnexplained(earlier: Db, w: World, e: SyncEvent, user: Uuid, k: nat, key: CustomerKey)
    requires Tracked(w, k, key) && e in w.system.sent && NothingLost(earlier, w.system.server)
    ensures var t, db, before := w.system.tills[k], w.system.server, UnexplainedOf(earlier, w, k, key);
            && Unexplained(earlier, t, Process(db, e, user).0, key) ==
              before + Foreign(t, db, Process(db, e, user).0, e, key)
            && Unexplained(earlier, t, Commit(db, e, user).0, key) ==
              before + Foreign(t, db, Commit(db, e, user).0, e, key)
  {
    var processed, committed := Process(w.system.server, e, user).0, Commit(w.system.server, e, user).0;
    ProcessTables(w.system.server, e, user);
    CommitTables(w.system.server, e, user);
    ReplayingUnexplained(earlier, w, e, processed, k, key);
    ReplayingUnexplained(earlier, w, e, committed, k, key);
  }

  lemma {:induction false} ServerUnexplained(earlier: Db, w: World, move: Move, k: nat, key: CustomerKey)
    requires Tracked(w, k, key) && Possible(w.system, move) && NothingLost(earlier, w.system.server)
    requires move.Serve? || move.Deliver? || move.DeliverLate?
    ensures Unexplained(earlier, w.system.tills[k], ServerAfter(w.system.server, move), key) ==
            UnexplainedOf(earlier, w, k, key) + OutsideMove(earlier, w, Act(move), k, key)
  {
    if move.Serve? { ServingUnexplained(earlier, w, move.command, k, key); }
    else { ReplaysUnexplained(earlier, w, move.event, move.user, k, key); }
  }

  lemma {:induction false} ActingUnexplained(earlier: Db, w: World, move: Move, k: nat, key: CustomerKey)
    requires Tracked(w, k, key) && Possible(w.system, move) && NothingLost(earlier, w.system.server)
    ensures var next := Next(w.system, move);
            k in next.tills && NothingLost(earlier, next.server)
            && Unexplained(earlier, next.tills[k], next.server, key) ==
               UnexplainedOf(earlier, w, k, key) + OutsideMove(earlier, w, Act(move), k, key)
  {
    ServerActs(w.system, move, k);
    NothingLostYet(w.system.server, move);
    if Local(move) || move.Record? { if move.till == k { LocalUnexplained(earlier, w, move, k, key); } }
    else if !move.Batch? { ServerUnexplained(earlier, w, move, k, key); }
  }

  lemma {:induction false} NothingUnexplained(w: World, k: nat, key: CustomerKey)
    requires k in w.system.tills
    ensures UnexplainedOf(w.system.server, w, k, key) == 0
  {
    var booked := w.system.server.sales;
    TotalZero(w.system.tills[k].sales, BookedSince(booked, booked, key));
  }

  lemma {:induction false} CachingUnexplained(earlier: Db, w: World, m: DebtMove, k: nat, key: CustomerKey)
    requires k in w.system.tills && CanMove(w, m) && !m.Act?
    ensures var next := Moved(w, m).system;
            && k in next.tills && next.server == w.system.server && next.tills[k].sales == w.system.tills[k].sales
            && UnexplainedOf(earlier, Moved(w, m), k, key) == UnexplainedOf(earlier, w, k, key)
  {
  }

  lemma {:induction false} MovingUnexplained(earlier: Db, w: World, m: DebtMove, k: nat, key: CustomerKey)
    requires Tracked(w, k, key) && CanMove(w, m) && NothingLost(earlier, w.system.server)
    ensures k in Moved(w, m).system.tills && NothingLost(earlier, Moved(w, m).system.server)
    ensures UnexplainedOf(earlier, Moved(w, m), k, key) ==
            UnexplainedOf(earlier, w, k, key) + OutsideMove(earlier, w, m, k, key)
  {
    if m.Act? { ActingUnexplained(earlier, w, m.move, k, key); } else { CachingUnexplained(earlier, w, m, k, key); }
  }

  lemma {:induction false} UnexplainedInRun(earlier: Db, w: World, ms: seq<DebtMove>, k: nat, key: CustomerKey)
    requires CanRun(w, ms) && Tracked(w, k, key) && RegularRun(w, ms, k, key) && w.system.server == earlier
    ensures Tracked(Ran(w, ms), k, key) && NothingLost(earlier, Ran(w, ms).system.server)
    ensures UnexplainedOf(earlier, Ran(w, ms), k, key) == Outside(earlier, w, ms, k, key)
  {
    RunTracked(w, ms, k, key);
    if |ms| == 0 {
      NothingUnexplained(w, k, key);
    } else {
      UnexplainedInRun(earlier, w, ms[..|ms| - 1], k, key);
      MovingUnexplained(earlier, Ran(w, ms[..|ms| - 1]), ms[|ms| - 1], k, key);
    }
  }

  lemma {:induction false} BooksStay(w: World, ms: seq<DebtMove>)
    requires CanRun(w, ms)
    ensures w.books <= Ran(w, ms).books
  {
    if |ms| > 0 { BooksStay(w, ms[..|ms| - 1]); }
  }

  /** The credit booked before the first state and unsynchronised in the second, minus the
      credit booked between the two and marked by the second. */
  ghost function CreditGap(earlier: Db, t: Till, db: Db, key: CustomerKey): int {
    Total(t.sales, BookedUnsynced(earlier.sales, key)) - Total(t.sales, MarkedSince(earlier.sales, db.sales, key))
  }

  ghost function GapAt(earlier: Db, saving: World, k: nat, key: CustomerKey): int
    requires k in saving.system.tills
  {
    CreditGap(earlier, saving.system.tills[k], saving.system.server, key)
  }

  ghost function RoundingOf(balance: int): int {
    ToCents(ReadBalance(balance)) - balance
  }

  lemma {:induction false} LateReading(earlier: Db, t: Till, db: Db, key: CustomerKey)
    requires NothingLost(earlier, db)
    ensures Reread(t, db, key, Balance(earlier.entries, key.1)) ==
            RoundingOf(Balance(earlier.entries, key.1)) + ToCents(CreditGap(earlier, t, db, key))
            - Unexplained(earlier, t, db, key)
  {
    assert forall id :: FindSale(earlier.sales, id) < |earlier.sales| ==> Holds(earlier, id) && Holds(db, id);
    SavedLate(earlier, t, db, key);
  }

  lemma {:induction false} OwnBookSaved(w: World, book: Book, k: nat, key: CustomerKey)
    requires Tracked(w, k, key) && book in w.books && book.store == key.0 && key.1 in book.balances
    ensures CanMove(w, SaveBook(k, book)) && Tracked(Moved(w, SaveBook(k, book)), k, key)
    ensures ExcessOf(Moved(w, SaveBook(k, book)), k, key) ==
            Reread(w.system.tills[k], w.system.server, key, book.balances[key.1])
  {
    MovedTracked(w, SaveBook(k, book), k, key);
    SavingExcess(w.system.tills[k], book, w.system.server, key);
  }

  lemma {:induction false} SavedAt(earlier: Db, saving: World, book: Book, k: nat, key: CustomerKey)
    requires Tracked(saving, k, key) && book in saving.books && NothingLost(earlier, saving.system.server)
    requires book.store == key.0 && key.1 in book.balances && book.balances[key.1] == Balance(earlier.entries, key.1)
    ensures CanMove(saving, SaveBook(k, book)) && Tracked(Moved(saving, SaveBook(k, book)), k, key)
    ensures ExcessOf(Moved(saving, SaveBook(k, book)), k, key) ==
            RoundingOf(Balance(earlier.entries, key.1)) + ToCents(GapAt(earlier, saving, k, key))
            - UnexplainedOf(earlier, saving, k, key)
  {
    OwnBookSaved(saving, book, k, key);
    LateReading(earlier, saving.system.tills[k], saving.system.server, key);
  }

  /** The state in which a book downloaded now is saved, after the moves of `mid`. */
  ghost function Saving(w: World, mid: seq<DebtMove>, key: CustomerKey): World
    requires CanRun(Moved(w, Download(key.0)), mid)
  {
    Ran(Moved(w, Download(key.0)), mid)
  }

  lemma {:induction false} Downloaded(w: World, k: nat, key: CustomerKey)
    requires Tracked(w, k, key) && key.1 in w.system.server.customers
    ensures var book := BookOf(w.system.server, key.0);
            && Tracked(Moved(w, Download(key.0)), k, key) && Moved(w, Download(key.0)).system == w.system
            && book in Moved(w, Download(key.0)).books && book.store == key.0
            && key.1 in book.balances && book.balances[key.1] == Balance(w.system.server.entries, key.1)
  {
    BookTracked(w, Download(key.0), k, key);
  }

  /** A book downloaded in one state and saved after any run leaves exactly: the rounding of
      the balance, plus the credit booked before the download and unsynchronised at the save,
      minus the credit booked after the download and marked before the save, minus what else
      changed the balance meanwhile. */
  lemma {:induction false} SavedLater(w: World, mid: seq<DebtMove>, k: nat, key: CustomerKey)
    requires Tracked(w, k, key) && key.1 in w.system.server.customers
    requires CanRun(Moved(w, Download(key.0)), mid) && Tracked(Moved(w, Download(key.0)), k, key)
    requires RegularRun(Moved(w, Download(key.0)), mid, k, key)
    ensures var earlier, save := w.system.server, SaveBook(k, BookOf(w.system.server, key.0));
            && CanMove(Saving(w, mid, key), save) && Tracked(Moved(Saving(w, mid, key), save), k, key)
            && k in Saving(w, mid, key).system.tills
            && ExcessOf(Moved(Saving(w, mid, key), save), k, key) ==
               RoundingOf(Balance(earlier.entries, key.1)) + ToCents(GapAt(earlier, Saving(w, mid, key), k, key))
               - Outside(earlier, Moved(w, Download(key.0)), mid, k, key)
  {
    var downloaded := Moved(w, Download(key.0));
    Downloaded(w, k, key);
    UnexplainedInRun(w.system.server, downloaded, mid, k, key);
    BooksStay(downloaded, mid);
    SavedAt(w.system.server, Saving(w, mid, key), BookOf(w.system.server, key.0), k, key);
  }

  lemma {:induction false} WholeBalance(balance: int, gap: int)
    requires balance % CENTS_PER_FCFA == 0
    ensures RoundingOf(balance) + ToCents(gap) == 0 <==> gap == 0
  {
    ReadBalanceError(balance);
  }

  /** With a balance in whole FCFA and nothing else changing it, the debt shown after the save
      is right if and only if those two credits are equal. */
  lemma {:induction false} SavedLaterIsRightIff(w: World, mid: seq<DebtMove>, k: nat, key: CustomerKey)
    requires Tracked(w, k, key) && key.1 in w.system.server.customers
    requires CanRun(Moved(w, Download(key.0)), mid) && Tracked(Moved(w, Download(key.0)), k, key)
    requires RegularRun(Moved(w, Download(key.0)), mid, k, key)
    requires Balance(w.system.server.entries, key.1) % CENTS_PER_FCFA == 0
    requires Outside(w.system.server, Moved(w, Download(key.0)), mid, k, key) == 0
    ensures var earlier, save := w.system.server, SaveBook(k, BookOf(w.system.server, key.0));
            && CanMove(Saving(w, mid, key), save) && Tracked(Moved(Saving(w, mid, key), save), k, key)
            && k in Saving(w, mid, key).system.tills
            && (ExcessOf(Moved(Saving(w, mid, key), save), k, key) == 0 <==>
              GapAt(earlier, Saving(w, mid, key), k, key) == 0)
  {
    SavedLater(w, mid, k, key);
    WholeBalance(Balance(w.system.server.entries, key.1), GapAt(w.system.server, Saving(w, mid, key), k, key));
  }
}
