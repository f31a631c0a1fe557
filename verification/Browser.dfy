/** One browser profile: several tabs, one till database, and the lease that serialises
    their synchronisation passes. Replies may be anything; tabs may crash at any point. */
module Browser {
  import opened Sums
  import opened Tables
  import opened Sync
  import opened LocalTables
  import opened LocalSales
  import opened Catalogue
  import opened SyncLock
  import opened SyncEngine

  /** `passes`: the bodies running, by owner, with the listed sales still to be answered. */
  datatype Profile = Profile(till: Till, now: Instant, lease: Option<Lease>, passes: map<Uuid, set<Uuid>>)

  datatype Action =
    | Create(input: SaleInput, stamp: Stamp)
    | CancelSale(id: Uuid)
    | Refresh(store: Uuid, catalogue: seq<ServerProduct>)
    | Repair
    | Begin(owner: Uuid)
    | Requeue(owner: Uuid)
    | List(owner: Uuid)
    | Apply(owner: Uuid, id: Uuid, reply: Reply)
    | Finish(owner: Uuid)
    | Crash(owner: Uuid)
    // Heartbeats and releases that come late, from owners whose pass is over, included.
    | Renew(owner: Uuid)
    | LateRelease(owner: Uuid)
    | Tick(later: Instant)

  function PendingIds(t: Till): set<Uuid> {
    set id | id in t.sales && t.sales[id].status.PendingSync?
  }

  ghost function TillAfter(b: Profile, a: Action): Till {
    match a
    case Create(input, stamp) =>
      if CreateSpec(b.till, input, stamp).Ok? then CreateSpec(b.till, input, stamp).value.0 else b.till
    case CancelSale(id) => CancelledTill(b.till, id).0
    case Refresh(store, catalogue) =>
      if RefreshSpec(b.till, store, catalogue).Ok? then RefreshSpec(b.till, store, catalogue).value else b.till
    case Repair => if ValidQuantities(b.till.sales) then Repaired(b.till) else b.till
    case Requeue(owner) => if owner in b.passes then RequeuedTill(b.till) else b.till
    case Apply(owner, id, reply) =>
      if owner in b.passes && id in b.passes[owner] then Applied(b.till, id, reply) else b.till
    case _ => b.till
  }

  function LeaseAfter(b: Profile, a: Action): Option<Lease> {
    match a
    case Begin(owner) => Acquired(b.lease, owner, b.now)
    case Renew(owner) => Renewed(b.lease, owner, b.now)
    case Finish(owner) => Released(b.lease, owner)
    case LateRelease(owner) => if owner in b.passes then b.lease else Released(b.lease, owner)
    case _ => b.lease
  }

  function PassesAfter(b: Profile, a: Action): map<Uuid, set<Uuid>> {
    match a
    case Begin(owner) => if HeldByOther(b.lease, owner, b.now) then b.passes else b.passes[owner := {}]
    case List(owner) => if owner in b.passes then b.passes[owner := PendingIds(b.till)] else b.passes
    case Apply(owner, id, reply) => if owner in b.passes then b.passes[owner := b.passes[owner] - {id}] else b.passes
    case Finish(owner) => b.passes - {owner}
    case Crash(owner) => b.passes - {owner}
    case _ => b.passes
  }

  ghost function Step(b: Profile, a: Action): Profile {
    Profile(TillAfter(b, a), if a.Tick? then Max(a.later, b.now) else b.now, LeaseAfter(b, a), PassesAfter(b, a))
  }

  ghost function Run(b: Profile, actions: seq<Action>): Profile {
    if |actions| == 0 then b else Step(Run(b, actions[..|actions| - 1]), actions[|actions| - 1])
  }

  lemma {:induction false} RunPush(b: Profile, actions: seq<Action>, a: Action)
    ensures Run(b, actions + [a]) == Step(Run(b, actions), a)
  {
    assert (actions + [a])[..|actions|] == actions;
  }

  lemma {:induction false} RunBoth(b: Profile, first: seq<Action>, later: seq<Action>)
    ensures Run(b, first + later) == Run(Run(b, first), later)
  {
    if |later| == 0 {
      assert first + later == first;
    } else {
      var front := later[..|later| - 1];
      RunBoth(b, first, front);
      assert first + later == (first + front) + [later[|later| - 1]];
      RunPush(b, first + front, later[|later| - 1]);
    }
  }

  lemma {:induction false} Applies(b: Profile, owner: Uuid, id: Uuid, reply: Reply)
    requires owner in b.passes && id in b.passes[owner]
    ensures Step(b, Apply(owner, id, reply)) ==
            b.(till := Applied(b.till, id, reply), passes := b.passes[owner := b.passes[owner] - {id}])
  {
  }

  // ---------- What is asked of the browser and of the cart ----------

  /** A running pass renews its lease before it expires. */
  predicate Timely(b: Profile, a: Action) {
    a.Tick? && b.lease.Some? && b.lease.value.owner in b.passes ==> a.later < b.lease.value.expiresAt
  }

  /** The cart holds each product once, in positive quantity. */
  predicate FairCart(b: Profile, a: Action) {
    a.Create? && CreateSpec(b.till, a.input, a.stamp).Ok? ==>
      var items := CreateSpec(b.till, a.input, a.stamp).value.1.items;
      DistinctItems(items) && PositiveItems(items)
  }

  ghost predicate Obeyed(b: Profile, actions: seq<Action>) {
    |actions| > 0 ==>
      && Obeyed(b, actions[..|actions| - 1])
      && var before := Run(b, actions[..|actions| - 1]);
         Timely(before, actions[|actions| - 1]) && FairCart(before, actions[|actions| - 1])
  }

  // ---------- Mutual exclusion ----------

  /** Whoever runs holds a live lease, hence runs alone. */
  predicate Exclusive(b: Profile) {
    forall owner :: owner in b.passes ==>
      b.lease.Some? && b.lease.value.owner == owner && b.now < b.lease.value.expiresAt
  }

  lemma {:induction false} ExclusionKept(b: Profile, a: Action)
    requires Exclusive(b) && Timely(b, a)
    ensures Exclusive(Step(b, a))
  {
  }

  lemma {:induction false} AtMostOnePass(b: Profile)
    requires Exclusive(b)
    ensures |b.passes| <= 1
  {
    if b.passes != map[] {
      var owner :| owner in b.passes;
      assert b.passes.Keys == {owner};
      assert |b.passes| == |b.passes.Keys|;
    }
  }

  /** A renewal or release by anyone else leaves the lease of the current owner alone. */
  lemma {:induction false} StaleOwnerIsHarmless(b: Profile, a: Action)
    requires b.lease.Some? && (a.Renew? || a.LateRelease? || a.Finish?) && a.owner != b.lease.value.owner
    ensures Step(b, a).lease == b.lease && Step(b, a).till == b.till
  {
  }

  /** A pass may begin if and only if no other owner's lease is alive. */
  lemma {:induction false} BeginsIff(b: Profile, owner: Uuid)
    requires owner !in b.passes
    ensures owner in Step(b, Begin(owner)).passes <==>
              b.lease.None? || b.lease.value.owner == owner || b.lease.value.expiresAt <= b.now
  {
  }

  /** The owner gives no sign of life: it neither begins, nor renews, nor releases. It may
      have crashed. */
  predicate Silent(actions: seq<Action>, owner: Uuid) {
    forall i :: 0 <= i < |actions| ==>
      !((actions[i].Begin? || actions[i].Renew? || actions[i].Finish? || actions[i].LateRelease?)
        && actions[i].owner == owner)
  }

  lemma {:induction false} TimePasses(b: Profile, a: Action)
    ensures Step(b, a).now >= b.now
  {
  }

  /** Until it expires the lease of a silent owner stays as it is, whatever the others do. */
  lemma {:induction false} SilentLeaseStays(b: Profile, actions: seq<Action>)
    requires b.lease.Some? && Silent(actions, b.lease.value.owner)
    requires Run(b, actions).now < b.lease.value.expiresAt
    ensures Run(b, actions).lease == b.lease
  {
    if |actions| > 0 {
      var front, a := actions[..|actions| - 1], actions[|actions| - 1];
      TimePasses(Run(b, front), a);
      SilentLeaseStays(b, front);
      assert !((a.Begin? || a.Renew? || a.Finish? || a.LateRelease?) && a.owner == b.lease.value.owner);
    }
  }

  /** After the last sign of life of an owner, its lease bars every other owner for 30
      seconds, and from then on nobody. */
  lemma {:induction false} BarsForThirtySeconds(b: Profile, sign: Action, actions: seq<Action>, other: Uuid)
    requires sign.Begin? || sign.Renew?
    requires var signed := Step(b, sign).lease;
             && signed.Some? && signed.value.owner == sign.owner && other != sign.owner
             && Silent(actions, sign.owner)
    ensures var signed, end := Step(b, sign).lease, Run(Step(b, sign), actions);
            && (end.now < b.now + 30_000 ==> end.lease == signed)
            && (end.lease == signed && other !in end.passes ==>
                  (other in Step(end, Begin(other)).passes <==> end.now >= b.now + 30_000))
  {
    var signed, end := Step(b, sign), Run(Step(b, sign), actions);
    assert signed.lease.value.expiresAt == b.now + LEASE_DURATION;
    if end.now < b.now + LEASE_DURATION { SilentLeaseStays(signed, actions); }
    if other !in end.passes { BeginsIff(end, other); }
  }

  /** A pass that ends gives the lease back: anyone may begin at once. */
  lemma {:induction false} FinishFreesTheLease(b: Profile, owner: Uuid, other: Uuid)
    requires Exclusive(b) && owner in b.passes
    ensures var after := Step(b, Finish(owner));
            after.lease.None? && after.passes == map[] && other in Step(after, Begin(other)).passes
  {
    AtMostOnePass(b);
    assert forall id :: id in b.passes ==> id == owner;
    assert Step(b, Finish(owner)).passes.Keys == {};
  }

  // ---------- SYNCED is terminal and the index is kept ----------

  /** A sale a pass still has to answer is not synchronised behind its back. */
  predicate Unanswered(b: Profile) {
    forall owner, id :: owner in b.passes && id in b.passes[owner] && id in b.till.sales ==>
      !b.till.sales[id].status.SyncDone?
  }

  ghost predicate Inv(b: Profile) {
    Exclusive(b) && Unanswered(b) && IndexHolds(b.till) && ValidQuantities(b.till.sales)
  }

  /** The sales of `before` already synchronised are the same in `after`. */
  ghost predicate SyncedKept(before: Till, after: Till) {
    forall id :: id in before.sales && before.sales[id].status.SyncDone? ==>
      id in after.sales && after.sales[id] == before.sales[id]
  }

  /** A running pass brings a refusal for a sale it listed and that is synchronised since. */
  predicate LateRefusal(b: Profile, a: Action) {
    && a.Apply? && a.reply.Refused? && a.owner in b.passes && a.id in b.passes[a.owner]
    && a.id in b.till.sales && b.till.sales[a.id].status.SyncDone?
  }

  /** An action keeps every synchronised sale if and only if it is not a late refusal. */
  lemma {:induction false} SyncedKeptIff(b: Profile, a: Action)
    ensures SyncedKept(b.till, Step(b, a).till) <==> !LateRefusal(b, a)
  {
    if LateRefusal(b, a) { assert Step(b, a).till.sales[a.id].status.InConflict?; }
  }

  /** Some action would revert a synchronised sale if and only if a running pass still
      waits for the answer of one. */
  lemma {:induction false} CanRevertIff(b: Profile)
    ensures (exists a: Action :: !SyncedKept(b.till, Step(b, a).till)) <==> !Unanswered(b)
  {
    if !Unanswered(b) {
      var owner, id :| owner in b.passes && id in b.passes[owner] && id in b.till.sales
                       && b.till.sales[id].status.SyncDone?;
      var a := Apply(owner, id, Refused(StoreNotAllowed));
      SyncedKeptIff(b, a);
      assert !SyncedKept(b.till, Step(b, a).till);
    }
    forall a: Action | !SyncedKept(b.till, Step(b, a).till) ensures !Unanswered(b) { SyncedKeptIff(b, a); }
  }

  ghost predicate NoLateRefusal(b: Profile, actions: seq<Action>) {
    forall i :: 0 <= i < |actions| ==> !LateRefusal(Run(b, actions[..i]), actions[i])
  }

  /** Whatever is synchronised at some point of the run is the same at every later point. */
  ghost predicate SyncedForEver(b: Profile, actions: seq<Action>) {
    forall i, j :: 0 <= i <= j <= |actions| ==> SyncedKept(Run(b, actions[..i]).till, Run(b, actions[..j]).till)
  }

  lemma {:induction false} RunPrefix(b: Profile, actions: seq<Action>, n: nat)
    requires n < |actions|
    ensures Run(b, actions[..n + 1]) == Step(Run(b, actions[..n]), actions[n])
  {
    assert actions[..n + 1][..n] == actions[..n];
  }

  lemma {:induction false} KeptBetween(b: Profile, actions: seq<Action>, i: nat, j: nat)
    requires NoLateRefusal(b, actions) && i <= j <= |actions|
    ensures SyncedKept(Run(b, actions[..i]).till, Run(b, actions[..j]).till)
    decreases j
  {
    if i < j {
      KeptBetween(b, actions, i, j - 1);
      RunPrefix(b, actions, j - 1);
      SyncedKeptIff(Run(b, actions[..j - 1]), actions[j - 1]);
    }
  }

  /** Over any run, timely or not, synchronised sales stay so for ever if and only if no
      late refusal occurs. */
  lemma {:induction false} SyncedForEverIff(b: Profile, actions: seq<Action>)
    ensures SyncedForEver(b, actions) <==> NoLateRefusal(b, actions)
  {
    if NoLateRefusal(b, actions) {
      forall i, j | 0 <= i <= j <= |actions|
        ensures SyncedKept(Run(b, actions[..i]).till, Run(b, actions[..j]).till)
      {
        KeptBetween(b, actions, i, j);
      }
    }
    if SyncedForEver(b, actions) {
      forall i | 0 <= i < |actions| ensures !LateRefusal(Run(b, actions[..i]), actions[i]) {
        RunPrefix(b, actions, i);
        SyncedKeptIff(Run(b, actions[..i]), actions[i]);
        assert SyncedKept(Run(b, actions[..i]).till, Run(b, actions[..i + 1]).till);
      }
    }
  }

  lemma {:induction false} SyncedIsTerminal(b: Profile, a: Action)
    requires Inv(b)
    ensures SyncedKept(b.till, Step(b, a).till)
  {
    SyncedKeptIff(b, a);
  }

  /** A sale becomes synchronised only by the pass that still had to answer it. */
  lemma {:induction false} SyncedBy(b: Profile, a: Action, id: Uuid)
    requires id in b.till.sales ==> !b.till.sales[id].status.SyncDone?
    requires id in TillAfter(b, a).sales && TillAfter(b, a).sales[id].status.SyncDone?
    ensures a.Apply? && a.id == id && a.owner in b.passes && id in b.passes[a.owner]
  {
  }

  lemma {:induction false} UnansweredKept(b: Profile, a: Action)
    requires Inv(b)
    ensures Unanswered(Step(b, a))
  {
    var after := Step(b, a);
    forall owner, id | owner in after.passes && id in after.passes[owner] && id in after.till.sales
      ensures !after.till.sales[id].status.SyncDone?
    {
      if after.till.sales[id].status.SyncDone? {
        if id !in b.till.sales || !b.till.sales[id].status.SyncDone? { SyncedBy(b, a, id); }
      }
    }
  }

  lemma {:induction false} TillKept(b: Profile, a: Action)
    requires Inv(b) && FairCart(b, a)
    ensures IndexHolds(TillAfter(b, a)) && ValidQuantities(TillAfter(b, a).sales)
  {
    match a
    case Create(input, stamp) => if CreateSpec(b.till, input, stamp).Ok? {
      CreateKeepsIndexIffDistinct(b.till, input, stamp);
    }
    case CancelSale(id) => CancelKeepsIndex(b.till, id);
    case Refresh(store, catalogue) => if RefreshSpec(b.till, store, catalogue).Ok? {
      RefreshKeepsIndex(b.till, store, catalogue);
    }
    case Repair => RepairEstablishesIndex(b.till);
    case Requeue(owner) => RequeueKeepsIndex(b.till);
    case Apply(owner, id, reply) =>
      if owner in b.passes && id in b.passes[owner] {
        SyncedKeepsIndex(b.till, id, if reply.Confirmed? then reply.serverId else 0);
        if reply.Refused? && id in b.till.sales { ConflictKeepsIndexIff(b.till, id, reply.code); }
      }
    case _ =>
  }

  lemma {:induction false} StepKeeps(b: Profile, a: Action)
    requires Inv(b) && Timely(b, a) && FairCart(b, a)
    ensures Inv(Step(b, a)) && SyncedKept(b.till, Step(b, a).till)
  {
    ExclusionKept(b, a);
    UnansweredKept(b, a);
    TillKept(b, a);
    SyncedIsTerminal(b, a);
  }

  /** In every run of timely passes and fair carts: one pass at a time, the pending index
      always right, and a synchronised sale final. */
  lemma {:induction false} RunsAreSafe(b: Profile, actions: seq<Action>)
    requires Inv(b) && Obeyed(b, actions)
    ensures Inv(Run(b, actions)) && |Run(b, actions).passes| <= 1
    ensures SyncedKept(b.till, Run(b, actions).till)
  {
    if |actions| > 0 {
      var front := actions[..|actions| - 1];
      RunsAreSafe(b, front);
      StepKeeps(Run(b, front), actions[|actions| - 1]);
    }
    AtMostOnePass(Run(b, actions));
  }
}
