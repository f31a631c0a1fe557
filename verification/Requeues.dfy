/** Requeueing concerns refusals of former servers only: the present one never pronounces
    the code that is requeued, so in a system that starts from nothing it does nothing. */
module Requeues {
  import opened Sums
  import opened Tables
  import opened Sales
  import opened Sync
  import opened LocalTables
  import opened LocalSales
  import opened Protocol

  predicate Obsolete(outcome: Outcome) {
    outcome == Conflict(SessionNotOwned) || outcome == Rejected(SessionNotOwned)
  }

  lemma {:induction false} RefusalIsModern(error: ServiceError)
    ensures !Obsolete(Refusal(error))
  {
  }

  lemma {:induction false} CommitIsModern(db: Db, e: SyncEvent, user: Uuid)
    ensures !Obsolete(Commit(db, e, user).1)
  {
    var r := CompleteSpec(db, e.items, TermsOf(e), true);
    if r.Err? { RefusalIsModern(r.error); }
  }

  lemma {:induction false} NeverPronounced(db: Db, e: SyncEvent, user: Uuid)
    ensures !Obsolete(Process(db, e, user).1) && !Obsolete(Commit(db, e, user).1)
  {
    CommitIsModern(db, e, user);
    var answer := Lookup(db, e, user);
    assert answer.Some? ==> !Obsolete(answer.value);
  }

  /** No conflict of the till carries that code. */
  predicate NoneObsolete(t: Till) {
    forall id :: id in t.sales ==> t.sales[id].conflict != Some(SessionNotOwned)
  }

  ghost predicate Modern(s: System) {
    (forall a :: a in s.answers ==> !Obsolete(a.outcome)) && forall k :: k in s.tills ==> NoneObsolete(s.tills[k])
  }

  lemma {:induction false} LocallyModern(s: System, m: Move)
    requires Modern(s) && Possible(s, m) && Local(m)
    ensures NoneObsolete(TillNext(s.tills[m.till], m))
  {
    if m.Take? { assert !Obsolete(m.outcome); }
  }

  lemma {:induction false} RecordedModern(t: Till, x: SaleInput, stamp: Stamp)
    requires NoneObsolete(t) && CreateSpec(t, x, stamp).Ok?
    ensures NoneObsolete(CreateSpec(t, x, stamp).value.0)
  {
  }

  lemma {:induction false} StaysModern(s: System, m: Move)
    requires Modern(s) && Possible(s, m)
    ensures Modern(Next(s, m))
  {
    if Local(m) { LocallyModern(s, m); }
    else if m.Record? { RecordedModern(s.tills[m.till], m.input, m.stamp); }
    else if m.Deliver? || m.DeliverLate? { NeverPronounced(s.server, m.event, m.user); }
  }

  lemma {:induction false} ModernInEveryRun(s: System, ms: seq<Move>)
    requires Initial(s) && Feasible(s, ms)
    ensures Modern(After(s, ms))
  {
    if |ms| > 0 {
      ModernInEveryRun(s, ms[..|ms| - 1]);
      StaysModern(After(s, ms[..|ms| - 1]), ms[|ms| - 1]);
    }
  }

  /** In every run from nothing, requeueing leaves every till as it is. */
  lemma {:induction false} RequeueingIsIdle(s: System, ms: seq<Move>, k: nat)
    requires Initial(s) && Feasible(s, ms) && k in After(s, ms).tills
    ensures RequeuedTill(After(s, ms).tills[k]) == After(s, ms).tills[k]
  {
    ModernInEveryRun(s, ms);
    var t := After(s, ms).tills[k];
    assert RequeuedTill(t).sales == t.sales;
  }
}
