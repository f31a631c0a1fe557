/** Sales made while a session was open and synchronised after it was closed. */
module LateSales {
  import opened Sums
  import opened Rounding
  import opened Tables
  import opened CashDesk
  import opened Sales
  import opened Sync
  import opened Services
  import opened Shop

  /** The database with this session open. */
  function Reopened(db: Db, session: Uuid): Db
    requires session in db.sessions
  {
    db.(sessions := db.sessions[session := db.sessions[session].(status := Open)])
  }

  predicate ClosedAt(db: Db, session: Uuid, at: Instant) {
    session in db.sessions && db.sessions[session].status.Closed? && db.sessions[session].status.closedAt == at
  }

  /** Only the session rule tells a closed session from an open one. */
  lemma {:induction false} SameLines(db: Db, e: SyncEvent)
    requires e.session in db.sessions && db.sessions[e.session].status.Closed?
    ensures e.at <= db.sessions[e.session].status.closedAt ==>
              RequestLines(db, e.items, TermsOf(e), true) ==
              RequestLines(Reopened(db, e.session), e.items, TermsOf(e), true)
    ensures e.at > db.sessions[e.session].status.closedAt
            && RequestLines(Reopened(db, e.session), e.items, TermsOf(e), true).Ok? ==>
              RequestLines(db, e.items, TermsOf(e), true) == Err(CashSessionClosed)
  {
  }

  lemma {:induction false} SameExecution(db: Db, t: SaleTerms, lines: seq<Line>)
    requires t.session in db.sessions
    ensures var now := ExecuteSaleSpec(db, t, lines, true);
            var open := ExecuteSaleSpec(Reopened(db, t.session), t, lines, true);
            && (now.Ok? <==> open.Ok?)
            && (now.Ok? ==> now.value == (open.value.0.(sessions := db.sessions), open.value.1, open.value.2))
  {
  }

  lemma {:induction false} CompletesAlike(db: Db, e: SyncEvent)
    requires e.session in db.sessions && db.sessions[e.session].status.Closed?
    requires CompleteSpec(Reopened(db, e.session), e.items, TermsOf(e), true).Ok?
    ensures var (now, open) := (CompleteSpec(db, e.items, TermsOf(e), true),
                                CompleteSpec(Reopened(db, e.session), e.items, TermsOf(e), true));
            if e.at <= db.sessions[e.session].status.closedAt then
              now == Ok((open.value.0.(sessions := db.sessions), open.value.1, open.value.2))
            else now == Err(CashSessionClosed)
  {
    SameLines(db, e);
    SameExecution(db, TermsOf(e), RequestLines(Reopened(db, e.session), e.items, TermsOf(e), true).value);
  }

  lemma {:induction false} CommitsAlike(db: Db, e: SyncEvent, user: Uuid)
    requires Unseen(db, e) && e.session in db.sessions && db.sessions[e.session].status.Closed?
    requires Commit(Reopened(db, e.session), e, user).1 == Synced(e.entity)
    ensures var (after, outcome) := Commit(db, e, user);
            if e.at <= db.sessions[e.session].status.closedAt then
              outcome == Synced(e.entity)
              && after == Commit(Reopened(db, e.session), e, user).0.(sessions := db.sessions)
            else outcome == Conflict(SessionClosed) && after == db
  {
    CommitCases(db, e, user);
    CommitCases(Reopened(db, e.session), e, user);
    SyncedMeansCompleted(Reopened(db, e.session), e, user);
    CompletesAlike(db, e);
  }

  lemma {:induction false} SyncedMeansCompleted(db: Db, e: SyncEvent, user: Uuid)
    requires FindEvent(db.events, e.event) == |db.events| && Commit(db, e, user).1 == Synced(e.entity)
    ensures CompleteSpec(db, e.items, TermsOf(e), true).Ok?
  {
    CommitCases(db, e, user);
  }

  lemma {:induction false} PushedAlike(db: Db, e: SyncEvent, user: Uuid)
    requires Unseen(db, e) && e.session in db.sessions
    ensures Process(Reopened(db, e.session), e, user) ==
            if MayPush(db, e.session, user) then Commit(Reopened(db, e.session), e, user)
            else (Reopened(db, e.session), Rejected(StoreNotAllowed))
    ensures Process(db, e, user) ==
            if MayPush(db, e.session, user) then Commit(db, e, user) else (db, Rejected(StoreNotAllowed))
  {
  }

  /** A sale the server would book while its session is open is booked after the closing if
      and only if it was made by then, with the same effect; else it is a conflict. */
  lemma {:induction false} LateSale(db: Db, e: SyncEvent, user: Uuid, c: Instant)
    requires Unseen(db, e) && ClosedAt(db, e.session, c)
    requires Process(Reopened(db, e.session), e, user).1 == Synced(e.entity)
    ensures var (after, outcome) := Process(db, e, user);
            if e.at <= c then
              outcome == Synced(e.entity)
              && after == Process(Reopened(db, e.session), e, user).0.(sessions := db.sessions)
            else outcome == Conflict(SessionClosed) && after == db
  {
    PushedAlike(db, e, user);
    CommitsAlike(db, e, user);
  }

  /** A sale made online is never booked in a closed session. */
  lemma {:induction false} OnlineNeedsOpenSession(db: Db, items: seq<ItemInput>, t: SaleTerms)
    requires CompleteSpec(db, items, t, false).Ok?
    ensures t.session in db.sessions && db.sessions[t.session].status == Open
  {
  }

  /** Closing a session keeps its sales to come: one the server would book just before the
      closing is booked after it if and only if it was made no later than the closing. */
  lemma {:induction false} ClosingThenLateSale(db: Db, e: SyncEvent, user: Uuid, counted: int, now: Instant)
    requires Unseen(db, e) && CloseSpec(db, e.session, counted, now).Ok? && Process(db, e, user).1 == Synced(e.entity)
    ensures Process(CloseSpec(db, e.session, counted, now).value, e, user).1 ==
            if e.at <= now then Synced(e.entity) else Conflict(SessionClosed)
  {
    ClosedThenReopened(db, e.session, counted, now);
    LateSale(CloseSpec(db, e.session, counted, now).value, e, user, now);
  }

  lemma {:induction false} ClosedThenReopened(db: Db, id: Uuid, counted: int, now: Instant)
    requires CloseSpec(db, id, counted, now).Ok?
    ensures var closed := CloseSpec(db, id, counted, now).value;
            && ClosedAt(closed, id, now) && Reopened(closed, id) == db
            && closed.sales == db.sales && closed.events == db.events
  {
    var closed := CloseSpec(db, id, counted, now).value;
    assert closed.sessions[id := db.sessions[id]] == db.sessions;
  }

  // ---------- From nothing ----------

  /** The credit sale of the shop, made at some instant. */
  function LateEvent(price: nat, milli: nat, at: Instant): SyncEvent {
    RiceEvent(price, milli).(at := at)
  }

  lemma {:induction false} BookedWhileOpen(db: Db, price: nat, milli: nat, lot: int, at: Instant)
    requires Ready(db, price, lot) && price > 0 && milli > 0 && TillLineTotal(price, milli) > 0
    requires LineGap(price, milli) == 0
    ensures Unseen(db, LateEvent(price, milli, at))
    ensures Process(db, LateEvent(price, milli, at), CASHIER).1 == Synced(7)
  {
    var e := LateEvent(price, milli, at);
    OneLine(db, RiceInput(price, milli), TermsOf(e), price, true);
    SettlesIffNoGap(price, milli);
    ProcessUnseen(db, e, CASHIER);
  }

  lemma {:induction false} ReadyToClose(db: Db, price: nat, lot: int)
    requires Ready(db, price, lot)
    ensures SESSION in db.sessions && db.sessions[SESSION].status == Open && ExpectedCash(db, SESSION) == 0
  {
    assert db.sales == [] && db.saleReturns == [] && db.repayments == [] && db.expenses == [];
    EmptyDrawer(db, SESSION);
  }

  lemma {:induction false} Closes(db: Db, id: Uuid, counted: nat, now: Instant)
    requires id in db.sessions && db.sessions[id].status == Open && ExpectedCash(db, id) >= 0
    ensures CloseSpec(db, id, counted, now).Ok?
    ensures Step(db, CloseSession(id, counted, now)) == CloseSpec(db, id, counted, now).value
  {
  }

  lemma {:induction false} EmptyDrawer(db: Db, s: Uuid)
    requires s in db.sessions && db.sales == [] && db.saleReturns == [] && db.repayments == [] && db.expenses == []
    ensures ExpectedCash(db, s) == db.sessions[s].opening
  {
  }

  /** The shop opens and closes, and the sale arrives: booked if and only if it was made no
      later than the closing. */
  lemma {:induction false} LateSaleFromNothing(price: nat, milli: nat, lot: Units, counted: nat, now: Instant,
      at: Instant)
    requires Sells(price, milli, lot) && LineGap(price, milli) == 0
    ensures var closed := Run(EMPTY, OpeningCommands(price, lot) + [CloseSession(SESSION, counted, now)]);
            && ClosedAt(closed, SESSION, now)
            && Process(closed, LateEvent(price, milli, at), CASHIER).1 ==
               if at <= now then Synced(7) else Conflict(SessionClosed)
  {
    var ready, e := Run(EMPTY, OpeningCommands(price, lot)), LateEvent(price, milli, at);
    OpenedShop(price, lot);
    RunPush(EMPTY, OpeningCommands(price, lot), CloseSession(SESSION, counted, now));
    ReadyToClose(ready, price, lot);
    Closes(ready, SESSION, counted, now);
    BookedWhileOpen(ready, price, milli, lot, at);
    ClosingThenLateSale(ready, e, CASHIER, counted, now);
  }
}
