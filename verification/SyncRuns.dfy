/** A synchronisation pass of one tab: batches, answers, failures and retries. */
module SyncRuns {
  import opened Sums
  import opened Tables
  import opened LocalTables
  import opened LocalSales
  import opened SyncEngine

  const BATCH_SIZE := 50

  // ---------- Batches ----------

  function ChunksOf<T>(items: seq<T>, size: nat): seq<seq<T>>
    requires size > 0
  {
    if |items| == 0 then []
    else if |items| <= size then [items]
    else [items[..size]] + ChunksOf(items[size..], size)
  }

  function Joined<T>(chunks: seq<seq<T>>): seq<T> {
    if |chunks| == 0 then [] else chunks[0] + Joined(chunks[1..])
  }

  /** Batches cover the list in order, and every batch but the last is full. */
  lemma {:induction false} ChunksCover<T>(items: seq<T>, size: nat)
    requires size > 0
    ensures Joined(ChunksOf(items, size)) == items
    ensures forall k :: 0 <= k < |ChunksOf(items, size)| ==> 0 < |ChunksOf(items, size)[k]| <= size
    ensures forall k :: 0 <= k < |ChunksOf(items, size)| - 1 ==> |ChunksOf(items, size)[k]| == size
    decreases |items|
  {
    if |items| > size {
      ChunksCover(items[size..], size);
      assert ChunksOf(items, size)[1..] == ChunksOf(items[size..], size);
      assert items == items[..size] + items[size..];
    } else if |items| > 0 {
      assert [items][1..] == [];
    }
  }

  method Chunk<T>(items: seq<T>, size: nat) returns (chunks: seq<seq<T>>)
    requires size > 0
    ensures chunks == ChunksOf(items, size)
  {
    chunks := [];
    var index := 0;
    while index < |items|
      invariant index >= 0
      invariant chunks + ChunksOf(items[Min(index, |items|)..], size) == ChunksOf(items, size)
      decreases |items| - index
    {
      var rest := items[index..];
      var next := Min(index + size, |items|);
      assert ChunksOf(rest, size) == [items[index..next]] + ChunksOf(items[next..], size) by {
        if |rest| > size { assert rest[size..] == items[next..] && rest[..size] == items[index..next]; }
        else { assert items[next..] == [] && rest == items[index..next]; }
      }
      Reassociate(chunks, [items[index..next]], ChunksOf(items[next..], size));
      chunks := chunks + [items[index..next]];
      index := index + size;
    }
    assert items[|items|..] == [];
  }

  lemma {:induction false} Reassociate<T>(a: seq<T>, b: seq<T>, c: seq<T>)
    ensures (a + b) + c == a + (b + c)
  {
  }

  /** A list is pushed fifty sales at a time. */
  lemma {:induction false} FiftyAtATime<T>(items: seq<T>)
    ensures var batches := ChunksOf(items, BATCH_SIZE);
            && Joined(batches) == items && |batches| == (|items| + 49) / 50
            && forall k :: 0 <= k < |batches| ==> |batches[k]| <= 50
    decreases |items|
  {
    ChunksCover(items, BATCH_SIZE);
    if |items| > BATCH_SIZE { FiftyAtATime(items[BATCH_SIZE..]); }
  }

  // ---------- The pending sales, oldest first ----------

  predicate DistinctSales(sales: seq<LocalSale>) {
    forall i, j :: 0 <= i < j < |sales| ==> sales[i].id != sales[j].id
  }

  predicate Chronological(sales: seq<LocalSale>) {
    forall i, j :: 0 <= i < j < |sales| ==> sales[i].createdAt <= sales[j].createdAt
  }

  /** All the pending sales, each once, in order of creation. */
  ghost predicate IsListing(sales: map<Uuid, LocalSale>, listing: seq<LocalSale>) {
    && DistinctSales(listing) && Chronological(listing)
    && (forall s :: s in listing <==> s.id in sales && sales[s.id] == s && s.status.PendingSync?)
  }

  function Inserted(sorted: seq<LocalSale>, sale: LocalSale): (all: seq<LocalSale>)
    ensures forall s :: s in all <==> s in sorted || s == sale
  {
    if |sorted| == 0 || sorted[|sorted| - 1].createdAt <= sale.createdAt then sorted + [sale]
    else
      assert sorted == sorted[..|sorted| - 1] + [sorted[|sorted| - 1]];
      Inserted(sorted[..|sorted| - 1], sale) + [sorted[|sorted| - 1]]
  }

  lemma {:induction false} AppendedInOrder(sales: seq<LocalSale>, last: LocalSale)
    requires Chronological(sales) && DistinctSales(sales)
    requires forall s :: s in sales ==> s.createdAt <= last.createdAt && s.id != last.id
    ensures Chronological(sales + [last]) && DistinctSales(sales + [last])
  {
    assert forall i :: 0 <= i < |sales| ==> sales[i] in sales;
  }

  lemma {:induction false} LastIsLatest(sorted: seq<LocalSale>)
    requires |sorted| > 0 && Chronological(sorted) && DistinctSales(sorted)
    ensures var front := sorted[..|sorted| - 1];
            && Chronological(front) && DistinctSales(front)
            && (forall s :: s in front ==>
              s in sorted && s.createdAt <= sorted[|sorted| - 1].createdAt && s.id != sorted[|sorted| - 1].id)
  {
    var front := sorted[..|sorted| - 1];
    forall s | s in front
      ensures s in sorted && s.createdAt <= sorted[|sorted| - 1].createdAt && s.id != sorted[|sorted| - 1].id {
      var i :| 0 <= i < |front| && front[i] == s;
      assert sorted[i] == s;
    }
  }

  lemma {:induction false} InsertedInOrder(sorted: seq<LocalSale>, sale: LocalSale)
    requires Chronological(sorted) && DistinctSales(sorted) && forall s :: s in sorted ==> s.id != sale.id
    ensures Chronological(Inserted(sorted, sale)) && DistinctSales(Inserted(sorted, sale))
  {
    if |sorted| > 0 {
      LastIsLatest(sorted);
      var front, last := sorted[..|sorted| - 1], sorted[|sorted| - 1];
      assert sorted == front + [last];
      if last.createdAt > sale.createdAt {
        InsertedInOrder(front, sale);
        AppendedInOrder(Inserted(front, sale), last);
      } else {
        AppendedInOrder(sorted, sale);
      }
    }
  }

  method ListPendingLocalSales(sales: map<Uuid, LocalSale>) returns (listing: seq<LocalSale>)
    requires forall id :: id in sales ==> sales[id].id == id
    ensures IsListing(sales, listing)
  {
    listing := [];
    var todo := sales.Keys;
    while todo != {}
      invariant todo <= sales.Keys
      invariant IsListing(sales - todo, listing)
      decreases |todo|
    {
      var id :| id in todo;
      var sale := sales[id];
      assert forall s :: s in listing ==> s.id != id;
      if sale.status.PendingSync? {
        InsertedInOrder(listing, sale);
        listing := Inserted(listing, sale);
      }
      assert sales - (todo - {id}) == (sales - todo)[id := sale];
      todo := todo - {id};
    }
    assert sales - todo == sales;
  }

  // ---------- Answers to one batch ----------

  datatype SyncOutcome = SyncOutcome(attempted: nat, synced: int, conflicts: int)

  function ReplyFor(results: map<Uuid, Reply>, sale: LocalSale): Reply {
    if sale.event in results then results[sale.event] else NoResult
  }

  function PushedTill(t: Till, sales: seq<LocalSale>, results: map<Uuid, Reply>): Till {
    if |sales| == 0 then t
    else
      var last := sales[|sales| - 1];
      Applied(PushedTill(t, sales[..|sales| - 1], results), last.id, ReplyFor(results, last))
  }

  function Confirmations(results: map<Uuid, Reply>): LocalSale -> int {
    (s: LocalSale) => if ReplyFor(results, s).Confirmed? then 1 else 0
  }

  function Refusals(results: map<Uuid, Reply>): LocalSale -> int {
    (s: LocalSale) => if ReplyFor(results, s).Refused? then 1 else 0
  }

  function Counted(sales: seq<LocalSale>, results: map<Uuid, Reply>): SyncOutcome {
    SyncOutcome(|sales|, Sum(sales, Confirmations(results)), Sum(sales, Refusals(results)))
  }

  /** The counters leave out exactly the sales the server gave no result for. */
  lemma {:induction false} CountsAddUp(sales: seq<LocalSale>, results: map<Uuid, Reply>)
    ensures var c := Counted(sales, results);
            && 0 <= c.synced && 0 <= c.conflicts && c.synced + c.conflicts <= c.attempted
            && (c.synced + c.conflicts == c.attempted <==>
              forall i :: 0 <= i < |sales| ==> ReplyFor(results, sales[i]) != NoResult)
  {
    if |sales| > 0 {
      var front := sales[..|sales| - 1];
      CountsAddUp(front, results);
      assert forall i :: 0 <= i < |front| ==> front[i] == sales[i];
    }
  }

  method PushBatch(db: TillDb, sales: seq<LocalSale>, results: map<Uuid, Reply>) returns (outcome: SyncOutcome)
    modifies db
    ensures db.Snapshot() == PushedTill(old(db.Snapshot()), sales, results)
    ensures outcome == Counted(sales, results)
  {
    var synced, conflicts := 0, 0;
    for k := 0 to |sales|
      invariant db.Snapshot() == PushedTill(old(db.Snapshot()), sales[..k], results)
      invariant synced == Sum(sales[..k], Confirmations(results)) && conflicts == Sum(sales[..k], Refusals(results))
    {
      assert sales[..k + 1][..k] == sales[..k];
      var reply := ReplyFor(results, sales[k]);
      ApplyResult(db, sales[k].id, reply);
      if reply.Confirmed? { synced := synced + 1; }
      if reply.Refused? { conflicts := conflicts + 1; }
    }
    assert sales[..|sales|] == sales;
    return SyncOutcome(|sales|, synced, conflicts);
  }

  predicate Within(sales: seq<LocalSale>, id: Uuid) {
    exists i :: 0 <= i < |sales| && sales[i].id == id
  }

  /** A batch touches the records of its own sales only. */
  lemma {:induction false} PushTouchesItsOwn(t: Till, sales: seq<LocalSale>, results: map<Uuid, Reply>, id: Uuid)
    requires !Within(sales, id)
    ensures id in PushedTill(t, sales, results).sales <==> id in t.sales
    ensures id in t.sales ==> PushedTill(t, sales, results).sales[id] == t.sales[id]
  {
    if |sales| > 0 {
      var front := sales[..|sales| - 1];
      assert forall i :: 0 <= i < |front| ==> front[i] == sales[i];
      assert sales[|sales| - 1].id != id;
      PushTouchesItsOwn(t, front, results, id);
    }
  }

  /** What an answer makes of a pending record. */
  function Settled(s: LocalSale, reply: Reply): LocalSale {
    match reply
    case Confirmed(serverId) => s.(status := SyncDone, serverId := Some(serverId), conflict := None)
    case Refused(code) => s.(status := InConflict, conflict := Some(code))
    case NoResult => s
  }

  lemma {:induction false} PushSettles(t: Till, sales: seq<LocalSale>, results: map<Uuid, Reply>, i: nat)
    requires DistinctSales(sales) && i < |sales|
    requires sales[i].id in t.sales && t.sales[sales[i].id] == sales[i] && sales[i].status.PendingSync?
    ensures sales[i].id in PushedTill(t, sales, results).sales
    ensures PushedTill(t, sales, results).sales[sales[i].id] == Settled(sales[i], ReplyFor(results, sales[i]))
  {
    var front, last := sales[..|sales| - 1], sales[|sales| - 1];
    if i < |front| {
      PushSettles(t, front, results, i);
    } else {
      assert !Within(front, last.id);
      PushTouchesItsOwn(t, front, results, last.id);
    }
  }

  // ---------- A whole pass ----------

  /** What a pushed batch meets: answers, an unreachable server, or any other error. */
  datatype Response = Results(byEvent: map<Uuid, Reply>) | Unavailable | Broken

  /** The number of batches answered before the first that is not. */
  function Reached(network: nat -> Response, n: nat): (k: nat)
    ensures k <= n && (forall i: nat :: i < k ==> network(i).Results?) && (k < n ==> !network(k).Results?)
  {
    if n == 0 then 0
    else
      var before := Reached(network, n - 1);
      if before == n - 1 && network(n - 1).Results? then n else before
  }

  function PushedAll(t: Till, batches: seq<seq<LocalSale>>, network: nat -> Response, k: nat): Till
    requires k <= |batches| && forall i: nat :: i < k ==> network(i).Results?
  {
    if k == 0 then t else PushedTill(PushedAll(t, batches, network, k - 1), batches[k - 1], network(k - 1).byEvent)
  }

  function Plus(a: SyncOutcome, b: SyncOutcome): SyncOutcome {
    SyncOutcome(a.attempted + b.attempted, a.synced + b.synced, a.conflicts + b.conflicts)
  }

  function Totals(batches: seq<seq<LocalSale>>, network: nat -> Response, k: nat): SyncOutcome
    requires k <= |batches| && forall i: nat :: i < k ==> network(i).Results?
  {
    if k == 0 then SyncOutcome(0, 0, 0)
    else Plus(Totals(batches, network, k - 1), Counted(batches[k - 1], network(k - 1).byEvent))
  }

  const BACKOFF_STEPS: seq<nat> := [1_000, 2_000, 5_000, 10_000]

  function BackoffDelay(failures: nat): nat {
    BACKOFF_STEPS[Min(failures, |BACKOFF_STEPS| - 1)]
  }

  /** One, two and five seconds, then ten for ever. */
  lemma {:induction false} BackoffGrows(failures: nat)
    ensures BackoffDelay(failures) <= BackoffDelay(failures + 1) <= 10_000
    ensures BackoffDelay(failures) == 1000 <==> failures == 0
    ensures BackoffDelay(failures) == 10_000 <==> failures >= 3
    ensures failures > 0 && BackoffDelay(failures) != 10_000 ==>
              2 * BackoffDelay(failures - 1) <= BackoffDelay(failures)
  {
  }

  ghost predicate PushedSoFar(start: Till, batches: seq<seq<LocalSale>>, network: nat -> Response, k: nat, now: Till,
      total: SyncOutcome) {
    && k <= |batches| && (forall i: nat :: i < k ==> network(i).Results?)
    && now == PushedAll(start, batches, network, k) && total == Totals(batches, network, k)
  }

  lemma {:induction false} PushedFurther(start: Till, batches: seq<seq<LocalSale>>, network: nat -> Response, k: nat,
      now: Till, total: SyncOutcome)
    requires PushedSoFar(start, batches, network, k, now, total) && k < |batches| && network(k).Results?
    ensures PushedSoFar(start, batches, network, k + 1, PushedTill(now, batches[k], network(k).byEvent),
                        Plus(total, Counted(batches[k], network(k).byEvent)))
  {
  }

  /** `after` and `outcome` are those of one pass over the listed sales. */
  ghost predicate PassMade(before: Till, listing: seq<LocalSale>, network: nat -> Response, after: Till,
      outcome: Option<SyncOutcome>) {
    var batches := ChunksOf(listing, BATCH_SIZE);
    var k := Reached(network, |batches|);
    && IsListing(RequeuedTill(before).sales, listing)
    && after == PushedAll(RequeuedTill(before), batches, network, k)
    && outcome == (if k < |batches| && network(k).Broken? then None else Some(Totals(batches, network, k)))
  }

  class Engine {
    var syncInProgress: bool
    var consecutiveFailures: nat
    var retryTimer: Option<nat>

    /** A retry already planned is left alone. */
    method ScheduleRetry()
      modifies this`retryTimer
      ensures retryTimer == if old(retryTimer).Some? then old(retryTimer) else Some(BackoffDelay(consecutiveFailures))
    {
      if retryTimer.Some? { return; }
      retryTimer := Some(BackoffDelay(consecutiveFailures));
    }

    method PushBatches(db: TillDb, batches: seq<seq<LocalSale>>, network: nat -> Response)
        returns (total: SyncOutcome, reached: nat)
      modifies this`consecutiveFailures, db
      ensures reached == Reached(network, |batches|)
      ensures db.Snapshot() == PushedAll(old(db.Snapshot()), batches, network, reached)
      ensures total == Totals(batches, network, reached)
      ensures consecutiveFailures == if reached > 0 then 0 else old(consecutiveFailures)
    {
      ghost var start := db.Snapshot();
      total, reached := SyncOutcome(0, 0, 0), 0;
      while reached < |batches| && network(reached).Results?
        invariant PushedSoFar(start, batches, network, reached, db.Snapshot(), total)
        invariant consecutiveFailures == if reached > 0 then 0 else old(consecutiveFailures)
        decreases |batches| - reached
      {
        PushedFurther(start, batches, network, reached, db.Snapshot(), total);
        var one := PushBatch(db, batches[reached], network(reached).byEvent);
        total := Plus(total, one);
        consecutiveFailures := 0;
        reached := reached + 1;
      }
      StopsAt(network, |batches|, reached);
    }

    /** Sales are pushed oldest first, 50 at a time; the first batch that meets no answer
        ends the pass, and what was not answered stays pending. */
    method RunSync(db: TillDb, network: nat -> Response)
        returns (outcome: Option<SyncOutcome>, ghost listing: seq<LocalSale>)
      requires forall id :: id in db.sales ==> db.sales[id].id == id
      modifies this`consecutiveFailures, this`retryTimer, db
      ensures PassMade(old(db.Snapshot()), listing, network, db.Snapshot(), outcome)
      ensures var batches := ChunksOf(listing, BATCH_SIZE);
              var k := Reached(network, |batches|);
              && consecutiveFailures == (if k > 0 || |batches| == 0 then 0 else old(consecutiveFailures))
                                      + (if k < |batches| && network(k).Unavailable? then 1 else 0)
              && retryTimer == (if k < |batches| && network(k).Unavailable? && old(retryTimer).None?
                                then Some(BackoffDelay(consecutiveFailures)) else old(retryTimer))
    {
      RequeueRetryableConflicts(db);
      var pending := ListPendingLocalSales(db.sales);
      listing := pending;
      if |pending| == 0 {
        consecutiveFailures := 0;
        return Some(SyncOutcome(0, 0, 0)), listing;
      }
      var batches := Chunk(pending, BATCH_SIZE);
      var total, reached := PushBatches(db, batches, network);
      if reached < |batches| {
        if network(reached).Broken? { return None, listing; }
        consecutiveFailures := consecutiveFailures + 1;
        ScheduleRetry();
      }
      return Some(total), listing;
    }

    /** Refused the lock, the tab plans a retry; otherwise it runs one pass. */
    method SyncPendingSales(db: TillDb, network: nat -> Response, granted: bool)
      returns (outcome: Option<SyncOutcome>, ghost listing: seq<LocalSale>)
      requires forall id :: id in db.sales ==> db.sales[id].id == id
      modifies this, db
      ensures old(syncInProgress) || !granted ==> db.Snapshot() == old(db.Snapshot())
      ensures !old(syncInProgress) && !granted ==> outcome == Some(SyncOutcome(0, 0, 0)) && retryTimer.Some?
      ensures !old(syncInProgress) && granted ==> PassMade(old(db.Snapshot()), listing, network, db.Snapshot(), outcome)
      ensures syncInProgress == old(syncInProgress)
    {
      listing := [];
      if syncInProgress { return None, listing; }
      syncInProgress := true;
      if granted {
        outcome, listing := RunSync(db, network);
      } else {
        ScheduleRetry();
        outcome := Some(SyncOutcome(0, 0, 0));
      }
      syncInProgress := false;
    }
  }

  lemma {:induction false} StopsAt(network: nat -> Response, n: nat, j: nat)
    requires j <= n && (forall i: nat :: i < j ==> network(i).Results?) && (j < n ==> !network(j).Results?)
    ensures Reached(network, n) == j
  {
    var k: nat := Reached(network, n);
    var stopped := network(k);
  }

  // ---------- What a pass makes of each sale ----------

  lemma {:induction false} BatchIsSlice(listing: seq<LocalSale>, j: nat)
    requires j < |ChunksOf(listing, BATCH_SIZE)|
    ensures BATCH_SIZE * j < |listing|
    ensures ChunksOf(listing, BATCH_SIZE)[j] == listing[BATCH_SIZE * j..Min(BATCH_SIZE * j + BATCH_SIZE, |listing|)]
    decreases j
  {
    if j > 0 {
      BatchIsSlice(listing[BATCH_SIZE..], j - 1);
    }
  }

  lemma {:induction false} InItsBatchOnly(listing: seq<LocalSale>, i: nat, j: nat)
    requires DistinctSales(listing) && i < |listing| && j < |ChunksOf(listing, BATCH_SIZE)|
    ensures Within(ChunksOf(listing, BATCH_SIZE)[j], listing[i].id) <==> j == i / BATCH_SIZE
    ensures j == i / BATCH_SIZE ==>
              i % BATCH_SIZE < |ChunksOf(listing, BATCH_SIZE)[j]|
                && ChunksOf(listing, BATCH_SIZE)[j][i % BATCH_SIZE] == listing[i]
    ensures DistinctSales(ChunksOf(listing, BATCH_SIZE)[j])
  {
    BatchIsSlice(listing, j);
    var batch := ChunksOf(listing, BATCH_SIZE)[j];
    assert forall n :: 0 <= n < |batch| ==> batch[n] == listing[BATCH_SIZE * j + n];
    if j == i / BATCH_SIZE { assert batch[i % BATCH_SIZE].id == listing[i].id; }
  }

  /** After `k` answered batches, every listed sale of those batches is settled by its own
      answer, and every other sale is as it was before the pass. */
  lemma {:induction false} PassSettles(t: Till, listing: seq<LocalSale>, network: nat -> Response, k: nat, i: nat)
    requires IsListing(t.sales, listing) && i < |listing|
    requires k <= |ChunksOf(listing, BATCH_SIZE)| && forall n: nat :: n < k ==> network(n).Results?
    ensures var after := PushedAll(t, ChunksOf(listing, BATCH_SIZE), network, k);
            && listing[i].id in after.sales
            && after.sales[listing[i].id] ==
               if i / BATCH_SIZE < k then Settled(listing[i], ReplyFor(network(i / BATCH_SIZE).byEvent, listing[i]))
                 else listing[i]
    decreases k
  {
    var id, batches := listing[i].id, ChunksOf(listing, BATCH_SIZE);
    assert listing[i] in listing;
    if k > 0 {
      PassSettles(t, listing, network, k - 1, i);
      InItsBatchOnly(listing, i, k - 1);
      var before := PushedAll(t, batches, network, k - 1);
      if i / BATCH_SIZE == k - 1 {
        PushSettles(before, batches[k - 1], network(k - 1).byEvent, i % BATCH_SIZE);
      } else {
        PushTouchesItsOwn(before, batches[k - 1], network(k - 1).byEvent, id);
      }
    }
  }
}
