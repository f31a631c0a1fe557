/** The timed lease that keeps the tabs of one browser from synchronising together. */
module SyncLock {
  import opened Sums
  import opened Tables

  const LEASE_DURATION: nat := 30_000

  datatype Lease = Lease(owner: Uuid, expiresAt: Instant)

  /** Another owner's lease is alive. */
  predicate HeldByOther(lease: Option<Lease>, owner: Uuid, now: Instant) {
    lease.Some? && lease.value.owner != owner && lease.value.expiresAt > now
  }

  function Acquired(lease: Option<Lease>, owner: Uuid, now: Instant): Option<Lease> {
    if HeldByOther(lease, owner, now) then lease else Some(Lease(owner, now + LEASE_DURATION))
  }

  function Renewed(lease: Option<Lease>, owner: Uuid, now: Instant): Option<Lease> {
    if lease.Some? && lease.value.owner == owner then Some(Lease(owner, now + LEASE_DURATION)) else lease
  }

  function Released(lease: Option<Lease>, owner: Uuid): Option<Lease> {
    if lease.Some? && lease.value.owner == owner then None else lease
  }

  class LeaseRow {
    var lease: Option<Lease>

    method Acquire(owner: Uuid, now: Instant) returns (granted: bool)
      modifies this
      ensures granted <==> !HeldByOther(old(lease), owner, now)
      ensures lease == Acquired(old(lease), owner, now)
    {
      if lease.Some? && lease.value.owner != owner && lease.value.expiresAt > now { return false; }
      lease := Some(Lease(owner, now + LEASE_DURATION));
      return true;
    }

    method Renew(owner: Uuid, now: Instant)
      modifies this
      ensures lease == Renewed(old(lease), owner, now)
    {
      if lease.None? || lease.value.owner != owner { return; }
      lease := Some(Lease(owner, now + LEASE_DURATION));
    }

    method Release(owner: Uuid)
      modifies this
      ensures lease == Released(old(lease), owner)
    {
      if lease.Some? && lease.value.owner == owner { lease := None; }
    }
  }
}
