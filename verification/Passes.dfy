/** A pass of the synchronisation engine is a run of the browser, so what every run keeps
    holds of it. */
module Passes {
  import opened Sums
  import opened Tables
  import opened LocalTables
  import opened LocalSales
  import opened SyncLock
  import opened SyncEngine
  import opened SyncRuns
  import opened Browser

  // ---------- One batch ----------

  function BatchActions(owner: Uuid, sales: seq<LocalSale>, results: map<Uuid, Reply>): seq<Action> {
    if |sales| == 0 then []
    else
      var last := sales[|sales| - 1];
      BatchActions(owner, sales[..|sales| - 1], results) + [Apply(owner, last.id, ReplyFor(results, last))]
  }

  function Ids(sales: seq<LocalSale>): set<Uuid> {
    set i | 0 <= i < |sales| :: sales[i].id
  }

  /** The profile once the answers to some sales of a pass are applied. */
  function Answered(b: Profile, owner: Uuid, t: Till, sales: seq<LocalSale>): Profile
    requires owner in b.passes
  {
    b.(till := t, passes := b.passes[owner := b.passes[owner] - Ids(sales)])
  }

  lemma {:induction false} IdsOfFront(sales: seq<LocalSale>)
    requires DistinctSales(sales) && |sales| > 0
    ensures var front, last := sales[..|sales| - 1], sales[|sales| - 1];
            Ids(sales) == Ids(front) + {last.id} && last.id !in Ids(front) && DistinctSales(front)
  {
    var front := sales[..|sales| - 1];
    assert forall i :: 0 <= i < |front| ==> front[i] == sales[i];
    assert sales[|sales| - 1].id in Ids(sales);
    forall id | id in Ids(front) ensures id in Ids(sales) {
      var i :| 0 <= i < |front| && front[i].id == id;
      assert sales[i].id == id;
    }
  }

  lemma {:induction false} AnsweredMore(b: Profile, owner: Uuid, t: Till, front: seq<LocalSale>, sales: seq<LocalSale>,
      id: Uuid, reply: Reply)
    requires owner in b.passes && id in b.passes[owner]
    requires Ids(sales) == Ids(front) + {id} && id !in Ids(front)
    ensures Step(Answered(b, owner, t, front), Apply(owner, id, reply)) ==
            Answered(b, owner, Applied(t, id, reply), sales)
  {
    Applies(Answered(b, owner, t, front), owner, id, reply);
    assert b.passes[owner] - Ids(front) - {id} == b.passes[owner] - Ids(sales);
  }

  lemma {:induction false} BatchRun(b: Profile, owner: Uuid, sales: seq<LocalSale>, results: map<Uuid, Reply>)
    requires DistinctSales(sales) && owner in b.passes && Ids(sales) <= b.passes[owner]
    ensures Run(b, BatchActions(owner, sales, results)) == Answered(b, owner, PushedTill(b.till, sales, results), sales)
  {
    if |sales| == 0 {
      assert b.passes[owner] - Ids(sales) == b.passes[owner];
    } else {
      var front, last := sales[..|sales| - 1], sales[|sales| - 1];
      IdsOfFront(sales);
      BatchRun(b, owner, front, results);
      RunPush(b, BatchActions(owner, front, results), Apply(owner, last.id, ReplyFor(results, last)));
      AnsweredMore(b, owner, PushedTill(b.till, front, results), front, sales, last.id, ReplyFor(results, last));
    }
  }

  // ---------- The batches of a pass ----------

  function BatchesActions(owner: Uuid, batches: seq<seq<LocalSale>>, network: nat -> Response, k: nat): seq<Action>
    requires k <= |batches| && forall i: nat :: i < k ==> network(i).Results?
  {
    if k == 0 then []
    else BatchesActions(owner, batches, network, k - 1) + BatchActions(owner, batches[k - 1], network(k - 1).byEvent)
  }

  /** The pass still waits for the sales of the batches from the `k`-th on. */
  ghost predicate Awaits(b: Profile, owner: Uuid, listing: seq<LocalSale>, k: nat) {
    owner in b.passes
    && forall i :: 0 <= i < |listing| && i / BATCH_SIZE >= k ==> listing[i].id in b.passes[owner]
  }

  lemma {:induction false} BatchAwaited(b: Profile, owner: Uuid, listing: seq<LocalSale>, k: nat)
    requires DistinctSales(listing) && Awaits(b, owner, listing, k) && k < |ChunksOf(listing, BATCH_SIZE)|
    ensures DistinctSales(ChunksOf(listing, BATCH_SIZE)[k])
    ensures Ids(ChunksOf(listing, BATCH_SIZE)[k]) <= b.passes[owner]
  {
    BatchIsSlice(listing, k);
    var batch := ChunksOf(listing, BATCH_SIZE)[k];
    assert forall n :: 0 <= n < |batch| ==> batch[n] == listing[BATCH_SIZE * k + n];
    forall id | id in Ids(batch) ensures id in b.passes[owner] {
      var n :| 0 <= n < |batch| && batch[n].id == id;
      assert (BATCH_SIZE * k + n) / BATCH_SIZE == k;
      assert listing[BATCH_SIZE * k + n].id in b.passes[owner];
    }
  }

  lemma {:induction false} StillAwaits(b: Profile, owner: Uuid, t: Till, listing: seq<LocalSale>, k: nat)
    requires DistinctSales(listing) && Awaits(b, owner, listing, k) && k < |ChunksOf(listing, BATCH_SIZE)|
    ensures Awaits(Answered(b, owner, t, ChunksOf(listing, BATCH_SIZE)[k]), owner, listing, k + 1)
  {
    var batch := ChunksOf(listing, BATCH_SIZE)[k];
    forall i | 0 <= i < |listing| && i / BATCH_SIZE >= k + 1
      ensures listing[i].id in b.passes[owner] - Ids(batch)
    {
      InItsBatchOnly(listing, i, k);
      assert !Within(batch, listing[i].id);
    }
  }

  lemma {:induction false} BatchesRun(b: Profile, owner: Uuid, listing: seq<LocalSale>, network: nat -> Response,
      k: nat)
    requires DistinctSales(listing) && Awaits(b, owner, listing, 0)
    requires k <= |ChunksOf(listing, BATCH_SIZE)| && forall i: nat :: i < k ==> network(i).Results?
    ensures var batches := ChunksOf(listing, BATCH_SIZE);
            var after := Run(b, BatchesActions(owner, batches, network, k));
            && after == b.(till := PushedAll(b.till, batches, network, k), passes := after.passes)
            && Awaits(after, owner, listing, k)
  {
    if k > 0 {
      var batches := ChunksOf(listing, BATCH_SIZE);
      var earlier, last := BatchesActions(owner, batches, network, k - 1),
                           BatchActions(owner, batches[k - 1], network(k - 1).byEvent);
      BatchesRun(b, owner, listing, network, k - 1);
      RunBoth(b, earlier, last);
      BatchFurther(Run(b, earlier), owner, listing, k - 1, network(k - 1).byEvent);
    }
  }

  lemma {:induction false} BatchFurther(b: Profile, owner: Uuid, listing: seq<LocalSale>, k: nat,
      results: map<Uuid, Reply>)
    requires DistinctSales(listing) && Awaits(b, owner, listing, k) && k < |ChunksOf(listing, BATCH_SIZE)|
    ensures var batch := ChunksOf(listing, BATCH_SIZE)[k];
            var after := Run(b, BatchActions(owner, batch, results));
            && after == b.(till := PushedTill(b.till, batch, results), passes := after.passes)
            && Awaits(after, owner, listing, k + 1)
  {
    var batch := ChunksOf(listing, BATCH_SIZE)[k];
    BatchAwaited(b, owner, listing, k);
    BatchRun(b, owner, batch, results);
    StillAwaits(b, owner, PushedTill(b.till, batch, results), listing, k);
  }

  // ---------- A whole pass ----------

  function Opening(owner: Uuid): seq<Action> {
    [] + [Begin(owner)] + [Requeue(owner)] + [List(owner)]
  }

  ghost function PassActions(owner: Uuid, listing: seq<LocalSale>, network: nat -> Response): seq<Action> {
    var batches := ChunksOf(listing, BATCH_SIZE);
    Opening(owner) + BatchesActions(owner, batches, network, Reached(network, |batches|)) + [Finish(owner)]
  }

  lemma {:induction false} OpeningRun(b: Profile, owner: Uuid, listing: seq<LocalSale>)
    requires !HeldByOther(b.lease, owner, b.now) && IsListing(RequeuedTill(b.till).sales, listing)
    ensures Run(b, Opening(owner)).till == RequeuedTill(b.till) && Awaits(Run(b, Opening(owner)), owner, listing, 0)
  {
    RunPush(b, [], Begin(owner));
    RunPush(b, [] + [Begin(owner)], Requeue(owner));
    RunPush(b, [] + [Begin(owner)] + [Requeue(owner)], List(owner));
    forall i | 0 <= i < |listing| ensures listing[i].id in PendingIds(RequeuedTill(b.till)) {
      assert listing[i] in listing;
    }
  }

  /** A pass that holds the lock does to the till what this run of the browser does. */
  lemma {:induction false} PassIsARun(b: Profile, owner: Uuid, listing: seq<LocalSale>, network: nat -> Response,
      after: Till, outcome: Option<SyncOutcome>)
    requires !HeldByOther(b.lease, owner, b.now) && PassMade(b.till, listing, network, after, outcome)
    ensures Run(b, PassActions(owner, listing, network)).till == after
  {
    var batches := ChunksOf(listing, BATCH_SIZE);
    var k := Reached(network, |batches|);
    var pushing := BatchesActions(owner, batches, network, k);
    OpeningRun(b, owner, listing);
    BatchesRun(Run(b, Opening(owner)), owner, listing, network, k);
    RunBoth(b, Opening(owner), pushing);
    RunPush(b, Opening(owner) + pushing, Finish(owner));
  }

  // ---------- What every run keeps, for the engine ----------

  /** No time passes and no sale is created. */
  predicate Quiet(actions: seq<Action>) {
    forall i :: 0 <= i < |actions| ==> !actions[i].Tick? && !actions[i].Create?
  }

  lemma {:induction false} QuietIsObeyed(b: Profile, actions: seq<Action>)
    requires Quiet(actions)
    ensures Obeyed(b, actions)
  {
    if |actions| > 0 {
      var front := actions[..|actions| - 1];
      assert forall i :: 0 <= i < |front| ==> front[i] == actions[i];
      QuietIsObeyed(b, front);
    }
  }

  lemma {:induction false} BatchIsQuiet(owner: Uuid, sales: seq<LocalSale>, results: map<Uuid, Reply>)
    ensures Quiet(BatchActions(owner, sales, results))
  {
    if |sales| > 0 { BatchIsQuiet(owner, sales[..|sales| - 1], results); }
  }

  lemma {:induction false} BatchesAreQuiet(owner: Uuid, batches: seq<seq<LocalSale>>, network: nat -> Response, k: nat)
    requires k <= |batches| && forall i: nat :: i < k ==> network(i).Results?
    ensures Quiet(BatchesActions(owner, batches, network, k))
  {
    if k > 0 {
      BatchesAreQuiet(owner, batches, network, k - 1);
      BatchIsQuiet(owner, batches[k - 1], network(k - 1).byEvent);
    }
  }

  /** So a pass of the engine keeps the pending index right and every synchronised sale as
      it is, whatever the server answers. */
  lemma {:induction false} PassIsSafe(b: Profile, owner: Uuid, listing: seq<LocalSale>, network: nat -> Response,
      after: Till, outcome: Option<SyncOutcome>)
    requires Inv(b) && !HeldByOther(b.lease, owner, b.now) && PassMade(b.till, listing, network, after, outcome)
    ensures IndexHolds(after) && ValidQuantities(after.sales) && SyncedKept(b.till, after)
  {
    var batches := ChunksOf(listing, BATCH_SIZE);
    PassIsARun(b, owner, listing, network, after, outcome);
    BatchesAreQuiet(owner, batches, network, Reached(network, |batches|));
    QuietIsObeyed(b, PassActions(owner, listing, network));
    RunsAreSafe(b, PassActions(owner, listing, network));
  }
}
