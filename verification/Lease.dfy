/** The lease columns of a project row and the UPDATE statements that act on them
    (`repositories/lease.py`, `repositories/project.py`).

    `ProjectRow` is the row, updated in place; `Columns` is its value, and the functions on it say
    which rows each statement matches and what it writes. */
module Lease {
  import opened Prelude

  type WorkerId = nat
  type JobId = nat

  const LEASE_SECONDS: nat := 300

  datatype Columns = Columns(
    deleted: bool,
    leaseOwner: Option<WorkerId>,
    leaseExpires: Option<nat>,
    lastJob: Option<JobId>,
    active: nat)

  predicate LeaseIsLive(c: Columns, now: nat) {
    c.leaseExpires.Some? && now <= c.leaseExpires.value
  }

  /** The WHERE clause of the claim. */
  predicate Claimable(c: Columns, job: JobId, now: nat) {
    !c.deleted && c.lastJob != Some(job) && !LeaseIsLive(c, now)
  }

  function Claimed(c: Columns, worker: WorkerId, job: JobId, now: nat, seconds: nat): Columns {
    c.(leaseOwner := Some(worker), leaseExpires := Some(now + seconds), lastJob := Some(job))
  }

  /** Renewal looks at the owner alone: an expired lease nobody reclaimed is renewed, and so is the
      lease of a soft-deleted project. */
  predicate Renewable(c: Columns, worker: WorkerId) {
    c.leaseOwner == Some(worker)
  }

  function Renewed(c: Columns, now: nat, seconds: nat): Columns {
    c.(leaseExpires := Some(now + seconds))
  }

  predicate Releasable(c: Columns, worker: WorkerId) {
    !c.deleted && c.leaseOwner == Some(worker)
  }

  /** `newActive` is the optional `active_generation` field of the release. */
  function Released(c: Columns, job: JobId, newActive: Option<nat>): Columns {
    c.(leaseOwner := None, leaseExpires := None, lastJob := Some(job),
       active := if newActive.Some? then newActive.value else c.active)
  }

  /** Abandoning expires the lease and keeps the owner. */
  function Abandoned(c: Columns, now: nat): Columns {
    c.(leaseExpires := Some(now))
  }

  class ProjectRow {
    var deleted: bool
    var leaseOwner: Option<WorkerId>
    var leaseExpires: Option<nat>
    var lastJob: Option<JobId>
    var active: nat

    constructor ()
      ensures View() == Columns(false, None, None, None, 0)
    {
      deleted, leaseOwner, leaseExpires, lastJob, active := false, None, None, None, 0;
    }

    ghost function View(): Columns
      reads this
    {
      Columns(deleted, leaseOwner, leaseExpires, lastJob, active)
    }

    method Claim(worker: WorkerId, job: JobId, now: nat, seconds: nat) returns (ok: bool)
      modifies this
      ensures ok == Claimable(old(View()), job, now)
      ensures View() == if ok then Claimed(old(View()), worker, job, now, seconds) else old(View())
      ensures ok <==> !old(deleted) && old(lastJob) != Some(job)
                      && (old(leaseExpires) == None || old(leaseExpires).value < now)
      ensures ok ==> View() == Columns(false, Some(worker), Some(now + seconds), Some(job), old(active))
    {
      ok := !deleted && lastJob != Some(job) && (leaseExpires.None? || leaseExpires.value < now);
      if ok {
        leaseOwner, leaseExpires, lastJob := Some(worker), Some(now + seconds), Some(job);
      }
    }

    method Renew(worker: WorkerId, now: nat, seconds: nat) returns (ok: bool)
      modifies this
      ensures ok == Renewable(old(View()), worker)
      ensures View() == if ok then Renewed(old(View()), now, seconds) else old(View())
      ensures ok <==> old(leaseOwner) == Some(worker)
      ensures ok ==> View() == Columns(old(deleted), Some(worker), Some(now + seconds), old(lastJob), old(active))
    {
      ok := leaseOwner == Some(worker);
      if ok {
        leaseExpires := Some(now + seconds);
      }
    }

    method Release(worker: WorkerId, job: JobId, newActive: Option<nat>) returns (ok: bool)
      modifies this
      ensures ok == Releasable(old(View()), worker)
      ensures View() == if ok then Released(old(View()), job, newActive) else old(View())
      ensures ok <==> !old(deleted) && old(leaseOwner) == Some(worker)
      ensures ok ==>
              View() == Columns(false, None, None, Some(job), if newActive.Some? then newActive.value else old(active))
    {
      ok := !deleted && leaseOwner == Some(worker);
      if ok {
        leaseOwner, leaseExpires, lastJob := None, None, Some(job);
        if newActive.Some? {
          active := newActive.value;
        }
      }
    }

    method Abandon(worker: WorkerId, now: nat) returns (ok: bool)
      modifies this
      ensures ok == Renewable(old(View()), worker)
      ensures View() == if ok then Abandoned(old(View()), now) else old(View())
      ensures ok <==> old(leaseOwner) == Some(worker)
      ensures ok ==> View() == Columns(old(deleted), Some(worker), Some(now), old(lastJob), old(active))
    {
      ok := leaseOwner == Some(worker);
      if ok {
        leaseExpires := Some(now);
      }
    }
  }
}
