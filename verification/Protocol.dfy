/** Tills, network and server together, with nothing assumed of the network: a request
    may be lost, repeated, reordered or arrive late, and so may its answer. */
module Protocol {
  import opened Sums
  import opened Tables
  import opened Sync
  import opened Services
  import opened Invariants
  import opened Histories
  import opened LocalTables
  import opened LocalSales
  import opened Catalogue
  import opened SyncEngine
  import opened Replay

  // ---------- The whole system ----------

  /** What the server answered once to a request about an event. */
  datatype Answer = Answer(event: Uuid, outcome: Outcome)

  /** `log`: every service the server ran, in order, which made its database what it is.
      `issued`: the event of every sale
      ever recorded on a till, by sale identifier. `sent`: the events ever put in a
      batch; any of them may arrive at any time, again and again, or never. `answers`:
      the answers ever given; the same holds for them. */
  datatype System = System(
    log: seq<Command>, server: Db, tills: map<nat, Till>, used: set<Uuid>, issued: map<Uuid, SyncEvent>,
    sent: set<SyncEvent>, answers: set<Answer>)

  datatype Move =
    | Record(till: nat, input: SaleInput, stamp: Stamp)
    | CancelLocally(till: nat, id: Uuid)
    | Batch(till: nat, id: Uuid)
    | Deliver(event: SyncEvent, user: Uuid)
    // A request that looked the event up earlier, beside others, and commits now.
    | DeliverLate(event: SyncEvent, user: Uuid)
    | Serve(command: Command)
    | Take(till: nat, id: Uuid, outcome: Outcome)
    | RequeueConflicts(till: nat)
    | RefreshCatalogue(till: nat, store: Uuid, catalogue: seq<ServerProduct>)
    | RepairCounters(till: nat)

  predicate Fresh(s: System, stamp: Stamp) {
    stamp.id !in s.used && forall id :: id in s.issued ==> s.issued[id].event != stamp.event
  }

  /** What each move asks of the state it is made in. Tabs may act together: no lock. */
  ghost predicate Possible(s: System, m: Move) {
    match m
    case Record(k, input, stamp) => k in s.tills && Fresh(s, stamp) && CreateSpec(s.tills[k], input, stamp).Ok?
    case CancelLocally(k, id) => k in s.tills
    case Batch(k, id) => k in s.tills && id in s.tills[k].sales && s.tills[k].sales[id].status.PendingSync?
    case Deliver(e, user) => e in s.sent
    case DeliverLate(e, user) => e in s.sent
    case Serve(c) => !Replays(c) && (c.Sell? ==> c.terms.id !in s.used)
    case Take(k, id, outcome) =>
      k in s.tills && id in s.tills[k].sales && Answer(s.tills[k].sales[id].event, outcome) in s.answers
    case RequeueConflicts(k) => k in s.tills
    case RefreshCatalogue(k, store, cs) => k in s.tills && RefreshSpec(s.tills[k], store, cs).Ok?
    case RepairCounters(k) => k in s.tills && ValidQuantities(s.tills[k].sales)
  }

  ghost function TillNext(t: Till, m: Move): Till
    requires m.Record? ==> CreateSpec(t, m.input, m.stamp).Ok?
    requires m.RefreshCatalogue? ==> RefreshSpec(t, m.store, m.catalogue).Ok?
  {
    match m
    case Record(k, input, stamp) => CreateSpec(t, input, stamp).value.0
    case CancelLocally(k, id) => CancelledTill(t, id).0
    case Take(k, id, outcome) => Applied(t, id, ReplyOf(outcome))
    case RequeueConflicts(k) => RequeuedTill(t)
    case RefreshCatalogue(k, store, cs) => RefreshSpec(t, store, cs).value
    case RepairCounters(k) => Repaired(t)
    case _ => t
  }

  /** The server ran one more service. */
  ghost function Served(s: System, c: Command): System {
    s.(log := s.log + [c], server := Step(s.server, c))
  }

  ghost function Answered(s: System, event: Uuid, outcome: Outcome): System {
    s.(answers := s.answers + {Answer(event, outcome)})
  }

  ghost function Recorded(s: System, k: nat, after: Till, sale: LocalSale): System {
    s.(tills := s.tills[k := after], used := s.used + {sale.id}, issued := s.issued[sale.id := ToSyncEvent(sale)])
  }

  ghost function Next(s: System, m: Move): System
    requires Possible(s, m)
  {
    match m
    case Deliver(e, user) => Answered(Served(s, Transmit(e, user)), e.event, Process(s.server, e, user).1)
    case DeliverLate(e, user) => Answered(Served(s, CommitLate(e, user)), e.event, Commit(s.server, e, user).1)
    case Serve(c) => Served(s.(used := if c.Sell? then s.used + {c.terms.id} else s.used), c)
    case Batch(k, id) => s.(sent := s.sent + {ToSyncEvent(s.tills[k].sales[id])})
    case Record(k, input, stamp) =>
      Recorded(s, k, TillNext(s.tills[k], m), CreateSpec(s.tills[k], input, stamp).value.1)
    case _ => s.(tills := s.tills[m.till := TillNext(s.tills[m.till], m)])
  }

  ghost predicate Feasible(s: System, ms: seq<Move>)
    decreases |ms|, 0
  {
    |ms| > 0 ==> Feasible(s, ms[..|ms| - 1]) && Possible(After(s, ms[..|ms| - 1]), ms[|ms| - 1])
  }

  ghost function After(s: System, ms: seq<Move>): System
    requires Feasible(s, ms)
    decreases |ms|, 1
  {
    if |ms| == 0 then s else Next(After(s, ms[..|ms| - 1]), ms[|ms| - 1])
  }

  lemma {:induction false} AfterPush(s: System, ms: seq<Move>, m: Move)
    requires Feasible(s, ms) && Possible(After(s, ms), m)
    ensures Feasible(s, ms + [m]) && After(s, ms + [m]) == Next(After(s, ms), m)
  {
    assert (ms + [m])[..|ms|] == ms;
  }

  /** Nothing recorded, nothing sent, an empty server. */
  ghost predicate Initial(s: System) {
    s == System([], EMPTY, s.tills, {}, map[], {}, {}) && forall k :: k in s.tills ==> s.tills[k].sales == map[]
  }

  // ---------- What every state keeps ----------

  ghost predicate Registered(used: set<Uuid>, issued: map<Uuid, SyncEvent>) {
    && (forall id :: id in issued ==> id in used && issued[id].entity == id)
    && (forall a, b :: a in issued && b in issued && issued[a].event == issued[b].event ==> a == b)
  }

  ghost predicate TillKnown(t: Till, issued: map<Uuid, SyncEvent>) {
    forall id :: id in t.sales ==> id in issued && issued[id] == ToSyncEvent(t.sales[id])
  }

  ghost predicate SentKnown(sent: set<SyncEvent>, issued: map<Uuid, SyncEvent>) {
    forall e :: e in sent ==> e.entity in issued && issued[e.entity] == e
  }

  /** A recorded sale the server holds is held with its content, its event processed. */
  ghost predicate Backed(db: Db, issued: map<Uuid, SyncEvent>, id: Uuid)
    requires id in issued
  {
    Holds(db, id) && Matches(db.sales[FindSale(db.sales, id)], issued[id]) && Processed(db, issued[id].event)
  }

  ghost predicate ServerFaithful(db: Db, used: set<Uuid>, issued: map<Uuid, SyncEvent>) {
    && (forall i :: 0 <= i < |db.sales| ==> db.sales[i].id in used)
    && (forall id :: id in issued && Holds(db, id) ==> Backed(db, issued, id))
    && (forall i :: 0 <= i < |db.events| ==>
          db.events[i].entity in issued && issued[db.events[i].entity].event == db.events[i].event
            && Holds(db, db.events[i].entity))
  }

  predicate Positive(outcome: Outcome) {
    outcome.Synced? || outcome.AlreadyProcessed?
  }

  ghost predicate AnswersTrue(db: Db, issued: map<Uuid, SyncEvent>, answers: set<Answer>) {
    forall a :: a in answers && Positive(a.outcome) ==>
      a.outcome.entity in issued && issued[a.outcome.entity].event == a.event && Holds(db, a.outcome.entity)
  }

  ghost predicate SyncedHeld(t: Till, db: Db) {
    forall id :: id in t.sales && t.sales[id].status.SyncDone? ==> Holds(db, id) && t.sales[id].serverId == Some(id)
  }

  ghost predicate TillsKnown(tills: map<nat, Till>, issued: map<Uuid, SyncEvent>) {
    forall k :: k in tills ==> TillKnown(tills[k], issued)
  }

  ghost predicate TillsHeld(tills: map<nat, Till>, db: Db) {
    forall k :: k in tills ==> SyncedHeld(tills[k], db)
  }

  ghost predicate OneTillEach(tills: map<nat, Till>) {
    forall j, k, id :: j in tills && k in tills && id in tills[j].sales && id in tills[k].sales ==> j == k
  }

  /** The server learns of a recorded sale only from its event. */
  ghost predicate HeldWereSent(db: Db, issued: map<Uuid, SyncEvent>, sent: set<SyncEvent>) {
    forall id :: id in issued && Holds(db, id) ==> issued[id] in sent
  }

  ghost predicate SystemInv(s: System) {
    && Inv(s.server)
    && OneTillEach(s.tills)
    && HeldWereSent(s.server, s.issued, s.sent)
    && Registered(s.used, s.issued)
    && SentKnown(s.sent, s.issued)
    && ServerFaithful(s.server, s.used, s.issued)
    && AnswersTrue(s.server, s.issued, s.answers)
    && TillsKnown(s.tills, s.issued)
    && TillsHeld(s.tills, s.server)
  }

  // ---------- Server moves ----------

  lemma {:induction false} StillHeld(before: seq<Sale>, after: seq<Sale>, id: Uuid)
    requires SalesExtend(before, after) && FindSale(before, id) < |before|
    ensures FindSale(after, id) < |after|
    ensures forall e: SyncEvent :: Matches(before[FindSale(before, id)], e) ==> Matches(after[FindSale(after, id)], e)
  {
    FoundAgain(before, after, id);
  }

  lemma {:induction false} StillProcessed(before: seq<ProcessedEvent>, after: seq<ProcessedEvent>, event: Uuid)
    requires before <= after && FindEvent(before, event) < |before|
    ensures FindEvent(after, event) < |after|
  {
    assert after[FindEvent(before, event)].event == event;
  }

  lemma {:induction false} FaithfulAfterService(db: Db, c: Command, used: set<Uuid>, issued: map<Uuid, SyncEvent>)
    requires Inv(db) && !Replays(c) && Registered(used, issued) && ServerFaithful(db, used, issued)
    requires c.Sell? ==> c.terms.id !in used
    ensures ServerFaithful(Step(db, c), if c.Sell? then used + {c.terms.id} else used, issued)
    ensures forall id :: Holds(db, id) ==> Holds(Step(db, c), id)
    ensures forall id :: id in issued && Holds(Step(db, c), id) ==> Holds(db, id)
  {
    OtherServices(db, c);
    var after := Step(db, c);
    forall id | Holds(db, id) ensures Holds(after, id) { StillHeld(db.sales, after.sales, id); }
    forall id | id in issued && Holds(after, id) ensures Holds(db, id) && Backed(after, issued, id) {
      var at := FindSale(after.sales, id);
      if at < |db.sales| { assert db.sales[at].id == id; }
      StillHeld(db.sales, after.sales, id);
    }
  }

  lemma {:induction false} FaithfulAfterReplay(db: Db, e: SyncEvent, user: Uuid, used: set<Uuid>,
      issued: map<Uuid, SyncEvent>)
    requires Registered(used, issued) && ServerFaithful(db, used, issued)
    requires e.entity in issued && issued[e.entity] == e
    ensures ServerFaithful(Commit(db, e, user).0, used, issued)
    ensures forall id :: Holds(db, id) ==> Holds(Commit(db, e, user).0, id)
    ensures forall id :: Holds(Commit(db, e, user).0, id) ==> Holds(db, id) || id == e.entity
    ensures Positive(Commit(db, e, user).1) ==>
              Commit(db, e, user).1.entity == e.entity && Holds(Commit(db, e, user).0, e.entity)
  {
    ReplayOutcome(db, e, user);
    if NewlyBooked(db, e, Commit(db, e, user).0) {
      FaithfulAfterBooking(db, e, Commit(db, e, user).0, used, issued);
    }
  }

  lemma {:induction false} FaithfulAfterBooking(db: Db, e: SyncEvent, after: Db, used: set<Uuid>,
      issued: map<Uuid, SyncEvent>)
    requires Registered(used, issued) && ServerFaithful(db, used, issued)
    requires e.entity in issued && issued[e.entity] == e && NewlyBooked(db, e, after)
    ensures ServerFaithful(after, used, issued)
    ensures forall id :: Holds(db, id) ==> Holds(after, id)
    ensures forall id :: Holds(after, id) ==> Holds(db, id) || id == e.entity
    ensures Holds(after, e.entity)
  {
    assert after.sales[|db.sales|].id == e.entity && after.events[|db.events|].event == e.event;
    assert SalesExtend(db.sales, after.sales) by {
      assert forall i :: 0 <= i < |db.sales| ==> after.sales[i] == after.sales[..|db.sales|][i];
    }
    forall id | Holds(db, id) ensures Holds(after, id) { StillHeld(db.sales, after.sales, id); }
    forall id | Holds(after, id) ensures Holds(db, id) || id == e.entity {
      var at := FindSale(after.sales, id);
      if at < |db.sales| { assert db.sales[at].id == id; }
    }
    forall i | 0 <= i < |after.events|
      ensures after.events[i].entity in issued && issued[after.events[i].entity].event == after.events[i].event
      ensures Holds(after, after.events[i].entity)
    {
      if i < |db.events| { assert after.events[i] == after.events[..|db.events|][i]; }
    }
    forall i | 0 <= i < |after.sales| ensures after.sales[i].id in used {
      if i < |db.sales| { assert after.sales[i] == after.sales[..|db.sales|][i]; }
    }
    forall id | id in issued && Holds(after, id) ensures Backed(after, issued, id) {
      BackedAfterBooking(db, e, after, issued, id);
    }
  }

  lemma {:induction false} BackedAfterBooking(db: Db, e: SyncEvent, after: Db, issued: map<Uuid, SyncEvent>, id: Uuid)
    requires id in issued && Holds(after, id) && (Holds(db, id) ==> Backed(db, issued, id))
    requires e.entity in issued && issued[e.entity] == e && NewlyBooked(db, e, after)
               && SalesExtend(db.sales, after.sales)
    ensures Backed(after, issued, id)
  {
    assert after.sales[|db.sales|].id == e.entity && after.events[|db.events|].event == e.event;
    assert db.events <= after.events;
    if Holds(db, id) {
      StillHeld(db.sales, after.sales, id);
      StillProcessed(db.events, after.events, issued[id].event);
    } else {
      assert forall i :: 0 <= i < |db.sales| ==> after.sales[i].id == db.sales[i].id != id;
      assert FindSale(after.sales, id) == |db.sales|;
    }
  }

  /** A server change that forgets no sale keeps what tills and answers rely on. */
  lemma {:induction false} ServerChange(s: System, after: Db, log: seq<Command>, used: set<Uuid>)
    requires SystemInv(s) && Inv(after) && Registered(used, s.issued)
    requires ServerFaithful(after, used, s.issued) && forall id :: Holds(s.server, id) ==> Holds(after, id)
    requires forall id :: id in s.issued && Holds(after, id) ==> Holds(s.server, id) || s.issued[id] in s.sent
    ensures SystemInv(s.(log := log, server := after, used := used))
  {
  }

  lemma {:induction false} ServeKeeps(s: System, c: Command)
    requires SystemInv(s) && !Replays(c) && (c.Sell? ==> c.terms.id !in s.used)
    ensures SystemInv(Served(s.(used := if c.Sell? then s.used + {c.terms.id} else s.used), c))
  {
    StepKeeps(s.server, c);
    FaithfulAfterService(s.server, c, s.used, s.issued);
    ServerChange(s, Step(s.server, c), s.log + [c], if c.Sell? then s.used + {c.terms.id} else s.used);
  }

  lemma {:induction false} AnswerAdded(s: System, e: SyncEvent, outcome: Outcome)
    requires SystemInv(s) && e.entity in s.issued && s.issued[e.entity] == e
    requires Positive(outcome) ==> outcome.entity == e.entity && Holds(s.server, e.entity)
    ensures SystemInv(Answered(s, e.event, outcome))
  {
  }

  lemma {:induction false} CommitKeeps(s: System, e: SyncEvent, user: Uuid, log: seq<Command>)
    requires SystemInv(s) && e in s.sent
    ensures SystemInv(Answered(s.(log := log, server := Commit(s.server, e, user).0), e.event,
              Commit(s.server, e, user).1))
  {
    CommitSound(s.server, e, user);
    FaithfulAfterReplay(s.server, e, user, s.used, s.issued);
    var (after, outcome) := Commit(s.server, e, user);
    ServerChange(s, after, log, s.used);
    AnswerAdded(s.(log := log, server := after), e, outcome);
  }

  lemma {:induction false} CommitSound(db: Db, e: SyncEvent, user: Uuid)
    requires Inv(db)
    ensures Inv(Commit(db, e, user).0)
  {
    var effect := CommitApplies(db, e, user);
    EffectKeeps(db, effect, Commit(db, e, user).0);
  }

  /** The event was looked up and answered at once: the database stays as it is. */
  lemma {:induction false} LookupKeeps(s: System, e: SyncEvent, outcome: Outcome, user: Uuid, log: seq<Command>)
    requires SystemInv(s) && e in s.sent && Lookup(s.server, e, user) == Some(outcome)
    ensures SystemInv(Answered(s.(log := log), e.event, outcome))
  {
    if Positive(outcome) { LookupTrue(s.server, e, user, s.used, s.issued); }
    ServerChange(s, s.server, log, s.used);
    AnswerAdded(s.(log := log), e, outcome);
  }

  lemma {:induction false} DeliverKeeps(s: System, e: SyncEvent, user: Uuid)
    requires SystemInv(s) && e in s.sent
    ensures SystemInv(Answered(Served(s, Transmit(e, user)), e.event, Process(s.server, e, user).1))
  {
    var looked := Lookup(s.server, e, user);
    if looked.Some? {
      LookupKeeps(s, e, looked.value, user, s.log + [Transmit(e, user)]);
    } else {
      CommitKeeps(s, e, user, s.log + [Transmit(e, user)]);
    }
  }

  lemma {:induction false} DeliverLateKeeps(s: System, e: SyncEvent, user: Uuid)
    requires SystemInv(s) && e in s.sent
    ensures SystemInv(Answered(Served(s, CommitLate(e, user)), e.event, Commit(s.server, e, user).1))
  {
    CommitKeeps(s, e, user, s.log + [CommitLate(e, user)]);
  }

  lemma {:induction false} LookupTrue(db: Db, e: SyncEvent, user: Uuid, used: set<Uuid>, issued: map<Uuid, SyncEvent>)
    requires Registered(used, issued) && ServerFaithful(db, used, issued) && e.entity in issued && issued[e.entity] == e
    requires Lookup(db, e, user).Some? && Positive(Lookup(db, e, user).value)
    ensures Lookup(db, e, user).value.entity == e.entity && Holds(db, e.entity)
  {
    var at := FindEvent(db.events, e.event);
    assert issued[db.events[at].entity].event == e.event;
  }

  // ---------- Till moves ----------

  /** Only the status, the server identifier and the conflict may differ. */
  predicate SameRecord(a: LocalSale, b: LocalSale) {
    b == a.(status := b.status, serverId := b.serverId, conflict := b.conflict)
  }

  /** `after` has no sale `before` has not, and none with another content. */
  ghost predicate SameContent(before: Till, after: Till) {
    forall id :: id in after.sales ==> id in before.sales && SameRecord(before.sales[id], after.sales[id])
  }

  predicate Local(m: Move) {
    m.CancelLocally? || m.Take? || m.RequeueConflicts? || m.RefreshCatalogue? || m.RepairCounters?
  }

  /** A sale becomes synchronised only by taking a positive answer. */
  ghost predicate SyncedByAnswer(before: Till, after: Till, m: Move) {
    forall id :: id in after.sales && id in before.sales && after.sales[id].status.SyncDone? ==>
      || (before.sales[id].status.SyncDone? && after.sales[id].serverId == before.sales[id].serverId)
      || (m.Take? && m.id == id && Positive(m.outcome) && after.sales[id].serverId == Some(m.outcome.entity))
  }

  lemma {:induction false} LocalMove(t: Till, m: Move)
    requires Local(m) && (m.RefreshCatalogue? ==> RefreshSpec(t, m.store, m.catalogue).Ok?)
    ensures SameContent(t, TillNext(t, m)) && SyncedByAnswer(t, TillNext(t, m), m)
  {
    if m.RefreshCatalogue? || m.RepairCounters? {
      assert TillNext(t, m).sales == t.sales;
    } else if m.RequeueConflicts? {
      assert forall id :: id in t.sales ==> RequeuedTill(t).sales[id] == Requeued(t.sales[id]);
    } else if m.Take? {
      AppliedContent(t, m.id, ReplyOf(m.outcome));
    }
  }

  lemma {:induction false} AppliedContent(t: Till, id: Uuid, reply: Reply)
    ensures SameContent(t, Applied(t, id, reply))
    ensures forall other ::
              other in Applied(t, id, reply).sales && Applied(t, id, reply).sales[other].status.SyncDone? ==>
              || Applied(t, id, reply).sales[other] == t.sales[other]
              || (other == id && reply.Confirmed?
                && Applied(t, id, reply).sales[other].serverId == Some(reply.serverId))
  {
  }

  lemma {:induction false} LocalKeeps(s: System, m: Move)
    requires SystemInv(s) && Local(m) && Possible(s, m)
    ensures SystemInv(Next(s, m))
  {
    var t := s.tills[m.till];
    LocalMove(t, m);
    TillChange(s, m.till, TillNext(t, m), m);
  }

  lemma {:induction false} TillChange(s: System, k: nat, after: Till, m: Move)
    requires SystemInv(s) && k in s.tills && SameContent(s.tills[k], after) && SyncedByAnswer(s.tills[k], after, m)
    requires m.Take? ==> m.id in s.tills[k].sales && Answer(s.tills[k].sales[m.id].event, m.outcome) in s.answers
    ensures SystemInv(s.(tills := s.tills[k := after]))
  {
    forall id | id in after.sales && after.sales[id].status.SyncDone?
      ensures Holds(s.server, id) && after.sales[id].serverId == Some(id)
    {
      AnswerBacks(s, k, after, m, id);
    }
    assert TillKnown(after, s.issued);
  }

  lemma {:induction false} AnswerBacks(s: System, k: nat, after: Till, m: Move, id: Uuid)
    requires SystemInv(s) && k in s.tills && SameContent(s.tills[k], after) && SyncedByAnswer(s.tills[k], after, m)
    requires m.Take? ==> m.id in s.tills[k].sales && Answer(s.tills[k].sales[m.id].event, m.outcome) in s.answers
    requires id in after.sales && after.sales[id].status.SyncDone?
    ensures Holds(s.server, id) && after.sales[id].serverId == Some(id)
  {
    var before := s.tills[k].sales[id];
    if !(before.status.SyncDone? && after.sales[id].serverId == before.serverId) {
      assert s.issued[id] == ToSyncEvent(before);
      assert s.issued[m.outcome.entity].event == before.event == s.issued[id].event;
    }
  }

  lemma {:induction false} RecordKeeps(s: System, m: Move)
    requires SystemInv(s) && m.Record? && Possible(s, m)
    ensures SystemInv(Next(s, m))
  {
    var (after, sale) := CreateSpec(s.tills[m.till], m.input, m.stamp).value;
    NewSaleRecorded(s, m.till, sale, after);
  }

  lemma {:induction false} NewSaleRecorded(s: System, k: nat, sale: LocalSale, after: Till)
    requires SystemInv(s) && k in s.tills && sale.id !in s.used && forall id :: id in s.issued ==>
               s.issued[id].event != sale.event
    requires after.sales == s.tills[k].sales[sale.id := sale] && sale.status.PendingSync?
    ensures SystemInv(Recorded(s, k, after, sale))
  {
    FaithfulWithMore(s.server, s.used, s.issued, sale);
    AnswersWithMore(s.server, s.issued, s.answers, sale);
    TillsWithMore(s.tills, k, after, s.issued, sale, s.server);
    SentWithMore(s, sale);
  }

  lemma {:induction false} SentWithMore(s: System, sale: LocalSale)
    requires SystemInv(s) && sale.id !in s.used
    ensures HeldWereSent(s.server, s.issued[sale.id := ToSyncEvent(sale)], s.sent)
  {
    assert !Holds(s.server, sale.id);
  }

  lemma {:induction false} TillsWithMore(tills: map<nat, Till>, k: nat, after: Till, issued: map<Uuid, SyncEvent>,
      sale: LocalSale, db: Db)
    requires TillsKnown(tills, issued) && TillsHeld(tills, db) && k in tills && sale.id !in issued
    requires after.sales == tills[k].sales[sale.id := sale] && sale.status.PendingSync?
    requires OneTillEach(tills)
    ensures TillsKnown(tills[k := after], issued[sale.id := ToSyncEvent(sale)]) && TillsHeld(tills[k := after], db)
    ensures OneTillEach(tills[k := after])
  {
    forall other | other in tills ensures TillKnown(tills[other], issued[sale.id := ToSyncEvent(sale)]) {
      KnownWithMore(tills[other], issued, sale);
    }
    NewTillKnown(tills[k], after, issued, sale);
  }

  lemma {:induction false} KnownWithMore(t: Till, issued: map<Uuid, SyncEvent>, sale: LocalSale)
    requires TillKnown(t, issued) && sale.id !in issued
    ensures TillKnown(t, issued[sale.id := ToSyncEvent(sale)])
  {
  }

  lemma {:induction false} NewTillKnown(t: Till, after: Till, issued: map<Uuid, SyncEvent>, sale: LocalSale)
    requires TillKnown(t, issued) && sale.id !in issued && after.sales == t.sales[sale.id := sale]
    ensures TillKnown(after, issued[sale.id := ToSyncEvent(sale)])
  {
  }

  lemma {:induction false} AnswersWithMore(db: Db, issued: map<Uuid, SyncEvent>, answers: set<Answer>, sale: LocalSale)
    requires AnswersTrue(db, issued, answers) && sale.id !in issued
    ensures AnswersTrue(db, issued[sale.id := ToSyncEvent(sale)], answers)
  {
  }

  lemma {:induction false} FaithfulWithMore(db: Db, used: set<Uuid>, issued: map<Uuid, SyncEvent>, sale: LocalSale)
    requires ServerFaithful(db, used, issued) && Registered(used, issued) && sale.id !in used
    ensures ServerFaithful(db, used + {sale.id}, issued[sale.id := ToSyncEvent(sale)])
  {
    var more := issued[sale.id := ToSyncEvent(sale)];
    forall id | id in more && Holds(db, id) ensures Backed(db, more, id) {
      assert db.sales[FindSale(db.sales, id)].id in used;
      assert Backed(db, issued, id);
    }
  }

  lemma {:induction false} MoveKeeps(s: System, m: Move)
    requires SystemInv(s) && Possible(s, m)
    ensures SystemInv(Next(s, m))
  {
    if m.Serve? { ServeKeeps(s, m.command); }
    else if m.Deliver? { DeliverKeeps(s, m.event, m.user); }
    else if m.DeliverLate? { DeliverLateKeeps(s, m.event, m.user); }
    else if m.Record? { RecordKeeps(s, m); }
    else if Local(m) { LocalKeeps(s, m); }
  }

  lemma {:induction false} EveryStateSound(s: System, ms: seq<Move>)
    requires SystemInv(s) && Feasible(s, ms)
    ensures SystemInv(After(s, ms))
  {
    if |ms| > 0 {
      EveryStateSound(s, ms[..|ms| - 1]);
      MoveKeeps(After(s, ms[..|ms| - 1]), ms[|ms| - 1]);
    }
  }

  lemma {:induction false} InitialSound(s: System)
    requires Initial(s)
    ensures SystemInv(s)
  {
    EmptyInv();
  }

  /** The server's database is what its log of services makes of an empty one. */
  lemma {:induction false} ServerIsItsLog(s: System, ms: seq<Move>)
    requires Initial(s) && Feasible(s, ms)
    ensures After(s, ms).server == Run(EMPTY, After(s, ms).log)
  {
    if |ms| > 0 {
      var before, m := After(s, ms[..|ms| - 1]), ms[|ms| - 1];
      ServerIsItsLog(s, ms[..|ms| - 1]);
      LogStep(before, m);
    }
  }

  lemma {:induction false} LogStep(s: System, m: Move)
    requires Possible(s, m) && s.server == Run(EMPTY, s.log)
    ensures Next(s, m).server == Run(EMPTY, Next(s, m).log)
  {
    if m.Deliver? { RunPush(EMPTY, s.log, Transmit(m.event, m.user)); }
    if m.DeliverLate? { RunPush(EMPTY, s.log, CommitLate(m.event, m.user)); }
    if m.Serve? { RunPush(EMPTY, s.log, m.command); }
  }

  // ---------- Exactly once ----------

  /** Whatever the network loses, repeats, delays or reorders and whichever tabs push
      together: the server holds at most one sale per local sale, with the content
      pushed and with its stock and ledger effects made exactly once; and every local
      sale marked as synchronised is there. */
  lemma {:induction false} ExactlyOnce(s: System, ms: seq<Move>, id: Uuid)
    requires Initial(s) && Feasible(s, ms) && id in After(s, ms).issued
    ensures var now := After(s, ms);
            var db := now.server;
            && (forall i, j :: 0 <= i < j < |db.sales| ==> db.sales[i].id != db.sales[j].id)
            && EffectsOnce(db, id)
            && (Holds(db, id) ==> Matches(db.sales[FindSale(db.sales, id)], now.issued[id]))
            && (forall k :: k in now.tills && id in now.tills[k].sales ==>
                  && now.issued[id] == ToSyncEvent(now.tills[k].sales[id])
                  && (now.tills[k].sales[id].status.SyncDone? ==>
                    Holds(db, id) && now.tills[k].sales[id].serverId == Some(id)))
  {
    InitialSound(s);
    EveryStateSound(s, ms);
    ServerIsItsLog(s, ms);
    EffectsOnceInEveryHistory(After(s, ms).log, id);
  }

  /** A lost answer is recovered by any later push: once the server holds a sent sale it
      answers "already processed", whoever pushes it and whatever happened since, and
      changes nothing. */
  lemma {:induction false} RetryRecovers(s: System, ms: seq<Move>, e: SyncEvent, user: Uuid)
    requires Initial(s) && Feasible(s, ms) && e in After(s, ms).sent && Holds(After(s, ms).server, e.entity)
    ensures Process(After(s, ms).server, e, user) == (After(s, ms).server, AlreadyProcessed(e.entity))
  {
    InitialSound(s);
    EveryStateSound(s, ms);
    var now := After(s, ms);
    var db := now.server;
    assert Backed(db, now.issued, e.entity);
    var at := FindEvent(db.events, e.event);
    assert now.issued[db.events[at].entity].event == e.event;
  }

  // ---------- Cancelling on the till ----------

  /** The sale is on no till. */
  predicate Nowhere(s: System, id: Uuid) {
    forall k :: k in s.tills ==> id !in s.tills[k].sales
  }

  /** The sale is on no till, its event was never sent, and the server has no such sale. */
  ghost predicate Gone(s: System, id: Uuid) {
    id in s.issued && s.issued[id] !in s.sent && !Holds(s.server, id) && Nowhere(s, id)
  }

  lemma {:induction false} GoneStaysGone(s: System, m: Move, id: Uuid)
    requires SystemInv(s) && Gone(s, id) && Possible(s, m)
    ensures Gone(Next(s, m), id)
  {
    MoveKeeps(s, m);
    NotSentYet(s, m, id);
    NowhereStill(s, m, id);
  }

  lemma {:induction false} NowhereStill(s: System, m: Move, id: Uuid)
    requires id in s.used && Possible(s, m) && Nowhere(s, id)
    ensures Nowhere(Next(s, m), id)
  {
    if Local(m) {
      LocalMove(s.tills[m.till], m);
    } else if m.Record? {
      assert id != m.stamp.id;
    }
  }

  lemma {:induction false} NotSentYet(s: System, m: Move, id: Uuid)
    requires SystemInv(s) && Gone(s, id) && Possible(s, m)
    ensures id in Next(s, m).issued && Next(s, m).issued[id] == s.issued[id] && s.issued[id] !in Next(s, m).sent
  {
    if m.Batch? {
      assert TillKnown(s.tills[m.till], s.issued);
      assert s.issued[m.id].entity == m.id;
    }
  }

  lemma {:induction false} GoneForGood(s: System, ms: seq<Move>, id: Uuid)
    requires SystemInv(s) && Gone(s, id) && Feasible(s, ms)
    ensures Gone(After(s, ms), id)
  {
    if |ms| > 0 {
      var front := ms[..|ms| - 1];
      GoneForGood(s, front, id);
      EveryStateSound(s, front);
      GoneStaysGone(After(s, front), ms[|ms| - 1], id);
    }
  }

  /** A pending sale cancelled on the till before its event was ever put in a batch never
      reaches the server, whatever happens next. */
  lemma {:induction false} CancelledBeforeSending(s: System, k: nat, id: Uuid, later: seq<Move>)
    requires SystemInv(s) && k in s.tills && id in s.tills[k].sales && s.tills[k].sales[id].status.PendingSync?
    requires s.issued[id] !in s.sent
    requires Feasible(Next(s, CancelLocally(k, id)), later)
    ensures !Holds(After(Next(s, CancelLocally(k, id)), later).server, id)
  {
    var after := Next(s, CancelLocally(k, id));
    MoveKeeps(s, CancelLocally(k, id));
    assert Gone(after, id);
    GoneForGood(after, later, id);
  }

  /** A request carrying the event arrives, and the server could book it: a request that
      looked the event up earlier is past the check of who pushes. */
  ghost predicate Books(s: System, m: Move, e: SyncEvent) {
    || (m.Deliver? && m.event == e && Accepted(s.server, e, m.user))
    || (m.DeliverLate? && m.event == e && Bookable(s.server, e))
  }

  lemma {:induction false} UnseenUnlessHeld(s: System, e: SyncEvent)
    requires SystemInv(s) && e.entity in s.issued && s.issued[e.entity] == e && !Holds(s.server, e.entity)
    ensures Unseen(s.server, e)
  {
    forall i | 0 <= i < |s.server.events| ensures s.server.events[i].event != e.event {
      assert Holds(s.server, s.server.events[i].entity);
    }
  }

  lemma {:induction false} ServeHolds(s: System, c: Command, id: Uuid)
    requires SystemInv(s) && Possible(s, Serve(c)) && id in s.issued
    ensures Holds(Step(s.server, c), id) <==> Holds(s.server, id)
  {
    FaithfulAfterService(s.server, c, s.used, s.issued);
  }

  lemma {:induction false} CommitHolds(s: System, e: SyncEvent, user: Uuid, id: Uuid)
    requires SystemInv(s) && e in s.sent && id in s.issued
    ensures Holds(Commit(s.server, e, user).0, id) <==>
              Holds(s.server, id) || (e == s.issued[id] && Bookable(s.server, e))
  {
    FaithfulAfterReplay(s.server, e, user, s.used, s.issued);
    if !Holds(s.server, id) && e.entity == id {
      UnseenUnlessHeld(s, e);
      BookedIffBookable(s.server, e, user);
    }
  }

  lemma {:induction false} DeliverHolds(s: System, e: SyncEvent, user: Uuid, id: Uuid)
    requires SystemInv(s) && e in s.sent && id in s.issued
    ensures Holds(Process(s.server, e, user).0, id) <==>
              Holds(s.server, id) || (e == s.issued[id] && Accepted(s.server, e, user))
  {
    if Lookup(s.server, e, user).None? {
      CommitHolds(s, e, user, id);
    } else if !Holds(s.server, id) && e == s.issued[id] {
      UnseenUnlessHeld(s, e);
    }
  }

  /** One move puts a recorded sale on the server only by booking its event. */
  lemma {:induction false} HeldByBooking(s: System, m: Move, id: Uuid)
    requires SystemInv(s) && Possible(s, m) && id in s.issued
    ensures id in Next(s, m).issued && Next(s, m).issued[id] == s.issued[id]
    ensures Holds(Next(s, m).server, id) <==> Holds(s.server, id) || Books(s, m, s.issued[id])
  {
    if m.Serve? { ServeHolds(s, m.command, id); }
    else if m.Deliver? { DeliverHolds(s, m.event, m.user, id); }
    else if m.DeliverLate? { CommitHolds(s, m.event, m.user, id); }
  }

  /** Some move of the run books the event. */
  ghost predicate BookedDuring(s: System, ms: seq<Move>, e: SyncEvent)
    requires Feasible(s, ms)
  {
    |ms| > 0 && (BookedDuring(s, ms[..|ms| - 1], e) || Books(After(s, ms[..|ms| - 1]), ms[|ms| - 1], e))
  }

  lemma {:induction false} HeldIffBookedDuring(s: System, ms: seq<Move>, id: Uuid)
    requires SystemInv(s) && Feasible(s, ms) && id in s.issued
    ensures id in After(s, ms).issued && After(s, ms).issued[id] == s.issued[id]
    ensures Holds(After(s, ms).server, id) <==> Holds(s.server, id) || BookedDuring(s, ms, s.issued[id])
  {
    if |ms| > 0 {
      var front := ms[..|ms| - 1];
      HeldIffBookedDuring(s, front, id);
      EveryStateSound(s, front);
      HeldByBooking(After(s, front), ms[|ms| - 1], id);
    }
  }

  /** A pending sale cancelled on the till stays off every till. It ends up on the server,
      whatever happens next, if and only if the server held it already when it was
      cancelled, or some later request carrying its event finds the server ready to book it. */
  lemma {:induction false} CancelledIsHeldIff(s: System, k: nat, id: Uuid, later: seq<Move>)
    requires SystemInv(s) && k in s.tills && id in s.tills[k].sales && s.tills[k].sales[id].status.PendingSync?
    requires Feasible(Next(s, CancelLocally(k, id)), later)
    ensures var cancelled := Next(s, CancelLocally(k, id));
            && Nowhere(After(cancelled, later), id)
            && (Holds(After(cancelled, later).server, id) <==>
              Holds(s.server, id) || BookedDuring(cancelled, later, s.issued[id]))
  {
    var cancelled := Next(s, CancelLocally(k, id));
    MoveKeeps(s, CancelLocally(k, id));
    assert TillKnown(s.tills[k], s.issued);
    HeldIffBookedDuring(cancelled, later, id);
    NowhereForGood(cancelled, later, id);
  }

  lemma {:induction false} NowhereForGood(s: System, ms: seq<Move>, id: Uuid)
    requires SystemInv(s) && Feasible(s, ms) && id in s.used && Nowhere(s, id)
    ensures id in After(s, ms).used && Nowhere(After(s, ms), id)
  {
    if |ms| > 0 {
      NowhereForGood(s, ms[..|ms| - 1], id);
      NowhereStill(After(s, ms[..|ms| - 1]), ms[|ms| - 1], id);
    }
  }

  /** In particular, a sale delivered once while its answer was lost, then cancelled. */
  lemma {:induction false} CancelledAfterDelivery(s: System, k: nat, id: Uuid, user: Uuid)
    requires SystemInv(s) && k in s.tills && id in s.tills[k].sales && s.tills[k].sales[id].status.PendingSync?
    requires s.issued[id] in s.sent && !Holds(s.server, id)
    ensures var delivered := Next(s, Deliver(s.issued[id], user));
            var cancelled := Next(delivered, CancelLocally(k, id));
            && Possible(s, Deliver(s.issued[id], user)) && Possible(delivered, CancelLocally(k, id))
            && Nowhere(cancelled, id)
            && (Holds(cancelled.server, id) <==> Accepted(s.server, s.issued[id], user))
  {
    DeliverHolds(s, s.issued[id], user, id);
  }

  /** And a sale cancelled while a request carrying it is still on its way. */
  lemma {:induction false} DeliveredAfterCancel(s: System, k: nat, id: Uuid, user: Uuid)
    requires SystemInv(s) && k in s.tills && id in s.tills[k].sales && s.tills[k].sales[id].status.PendingSync?
    requires s.issued[id] in s.sent && !Holds(s.server, id)
    ensures var cancelled := Next(s, CancelLocally(k, id));
            && Possible(cancelled, Deliver(s.issued[id], user))
            && var delivered := Next(cancelled, Deliver(s.issued[id], user));
               Nowhere(delivered, id)
               && (Holds(delivered.server, id) <==> Accepted(s.server, s.issued[id], user))
  {
    DeliverHolds(s, s.issued[id], user, id);
  }
}
