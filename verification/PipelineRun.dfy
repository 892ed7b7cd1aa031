/** `handle_message` and `run` as one worker executes them, while others take their turns at every
    `await` (`queue/consumer.py`, `ingestion/pipeline.py`).

    The deployment - row, store and workers - is the state of `GenerationSwap`; a call that reaches it is
    one of that machine's steps, and says which. What the code does next depends only on what its calls
    return. */
module PipelineRun {
  import opened Prelude
  import opened Lease
  import Swap = GenerationSwap
  import opened RetryLadder

  datatype Kind = TerminalError | RetryableError | OtherError

  /** How one call fares. `applied` says whether it took effect on the store before it raised; when the
      process dies, nothing is handled. */
  datatype Fault = Fine | Raises(kind: Kind, applied: bool) | Dies

  datatype Result<T> = Ok(value: T) | Raised(kind: Kind) | Died

  /** What the clone and the chunker came to. */
  datatype Clone = Clone(keys: seq<Swap.ChunkKey>, commit: Swap.Commit)

  datatype JobOutcome = Skipped | Completed | Routed(how: RetryLadder.Outcome) | Broken | Crashed

  /** A step some other worker, the clock, a user or this worker's own heartbeat takes. */
  predicate Elsewhere(step: Swap.Step, me: WorkerId) {
    step.Tick? || Swap.IsDelete(step) || step.Renew? || step.worker != me
  }

  lemma ElsewhereKeepsMine(s: Swap.State, step: Swap.Step, me: WorkerId)
    requires Swap.Enabled(s, step) && Elsewhere(step, me)
    ensures Swap.PhaseOf(Swap.Next(s, step), me) == Swap.PhaseOf(s, me)
  {
  }

  class Worker {
    const me: WorkerId
    const batchSize: nat
    /** What happens before this worker's n-th call returns, and how the call fares. */
    const others: nat -> seq<Swap.Step>
    const faults: nat -> Fault
    /** Whether a delete that this worker's n-th call waits for gives up instead of committing. */
    const givesUp: nat -> bool
    var world: Swap.State
    var calls: nat
    /** This worker's own steps, and the exceptions its calls raised, in order. */
    var taken: seq<Swap.Step>
    var raised: seq<Kind>

    ghost predicate Valid()
      reads this
    {
      batchSize > 0 && Swap.Reachable(world)
    }

    /** Whatever this worker and the others do, the invariant of the machine holds at every call. */
    lemma AlwaysSafe()
      requires Valid()
      ensures Swap.Inv(world)
    {
      Swap.ReachableIsSafe(world);
    }

    function Mine(): Swap.Phase
      reads this
    {
      Swap.PhaseOf(world, me)
    }

    /** Nobody else moves and no delete is under way; this worker's own calls may fail. */
    ghost predicate Undisturbed()
      reads this
    {
      world.deletion.NoDelete? && forall n: nat :: others(n) == []
    }

    /** And nothing fails. */
    ghost predicate Alone()
      reads this
    {
      Undisturbed() && forall n: nat :: faults(n) == Fine
    }

    /** What an undisturbed call may change: the row, the points and this worker's own phase. */
    ghost predicate Became(before: Swap.State, row: Columns, points: map<Swap.Point, Swap.Commit>)
      reads this
    {
      && world.row == row && world.points == points
      && world.now == before.now && world.deletion == before.deletion
    }

    /** The project is there and this worker holds its lease. */
    ghost predicate Holds()
      reads this
    {
      !world.row.deleted && world.row.leaseOwner == Some(me)
    }

    /** The lease is free and the job recorded, with the pointer at `active`. */
    function Free(job: JobId, active: nat): Columns {
      Columns(false, None, None, Some(job), active)
    }

    constructor (me: WorkerId, batchSize: nat, world: Swap.State, others: nat -> seq<Swap.Step>, faults: nat -> Fault,
                 givesUp: nat -> bool)
      requires batchSize > 0 && Swap.Reachable(world)
      ensures Valid() && this.me == me && this.world == world && this.others == others && this.faults == faults
    {
      this.me, this.batchSize, this.world, this.calls := me, batchSize, world, 0;
      this.others, this.faults, this.givesUp := others, faults, givesUp;
      this.taken, this.raised := [], [];
    }

    method Move(step: Swap.Step)
      requires Valid() && Swap.Enabled(world, step)
      modifies this`world
      ensures Valid() && world == Swap.Next(old(world), step)
    {
      ghost var next := Swap.Reach(world, step);
      world := Swap.Next(world, step);
    }

    /** A step of this worker's own. */
    method Take(step: Swap.Step)
      requires Valid() && Swap.Enabled(world, step)
      modifies this`world, this`taken
      ensures Valid() && world == Swap.Next(old(world), step) && taken == old(taken) + [step]
    {
      Move(step);
      taken := taken + [step];
    }

    /** What one call leaves behind: all of its steps, a part of them and an exception, or a dead worker. */
    ghost predicate Left<T>(r: Result<T>, taken0: seq<Swap.Step>, raised0: seq<Kind>, steps: seq<Swap.Step>)
      reads this
    {
      match r
      case Ok(_) => taken == taken0 + steps && raised == raised0
      case Raised(kind) => taken0 <= taken <= taken0 + steps && raised == raised0 + [kind]
      case Died => taken0 <= taken && raised == raised0
    }

    /** Since `taken0` the worker has taken steps of `run` and not fallen out of it. */
    ghost predicate Orderly(taken0: seq<Swap.Step>)
      reads this
    {
      taken0 <= taken && forall i :: |taken0| <= i < |taken| ==> !taken[i].Crash?
    }

    /** Everyone else's turns while this worker waits. */
    method Await() returns (fault: Fault)
      requires Valid()
      modifies this
      ensures Valid() && Mine() == old(Mine()) && taken == old(taken)
      ensures raised == if fault.Raises? then old(raised) + [fault.kind] else old(raised)
      ensures old(Undisturbed()) ==> world == old(world)
      ensures old(Alone()) ==> fault == Fine
      ensures calls == old(calls) + 1 && fault == faults(old(calls))
      ensures |others(old(calls))| == 1 && Elsewhere(others(old(calls))[0], me)
              && Swap.Enabled(old(world), others(old(calls))[0]) ==>
              world == Swap.Next(old(world), others(old(calls))[0])
    {
      var turns := others(calls);
      fault := faults(calls);
      for i := 0 to |turns|
        invariant Valid() && Mine() == old(Mine())
        invariant i == 0 ==> world == old(world)
        invariant |turns| == 1 && i == 1 && Elsewhere(turns[0], me) && Swap.Enabled(old(world), turns[0]) ==>
                  world == Swap.Next(old(world), turns[0])
        invariant calls == old(calls) && taken == old(taken) && raised == old(raised)
      {
        if Swap.Enabled(world, turns[i]) && Elsewhere(turns[i], me) {
          ElsewhereKeepsMine(world, turns[i], me);
          Move(turns[i]);
        }
      }
      calls := calls + 1;
      if fault.Raises? {
        raised := raised + [fault.kind];
      }
    }

    /** The same for a statement on the row. One that matches a row some delete has locked waits for the
        delete to commit or to give up, and then sees what that left. */
    method AwaitRow(step: Swap.Step) returns (fault: Fault)
      requires Valid() && Swap.Ready(world, step) && !Swap.IsDelete(step) && !step.Tick? && step.worker == me
      modifies this
      ensures Valid() && Mine() == old(Mine()) && taken == old(taken)
      ensures raised == if fault.Raises? then old(raised) + [fault.kind] else old(raised)
      ensures fault.Fine? ==> Swap.Enabled(world, step)
      ensures old(Undisturbed()) ==> world == old(world)
      ensures old(Alone()) ==> fault == Fine
    {
      fault := Await();
      if fault.Fine? && world.deletion.Locked? && Swap.WritesRow(world, step) {
        if givesUp(calls) && !world.deletion.dropped {
          Move(Swap.AbortDelete);
        } else {
          if world.deletion.recorded && !world.deletion.dropped {
            Move(Swap.DropProject);
          }
          Swap.ReachableIsSafe(world);
          Move(Swap.CommitDelete);
        }
      }
    }

    /** The process dies: no handler runs. */
    method Die()
      requires Valid() && !Mine().Idle?
      modifies this`world, this`taken
      ensures Valid() && Mine().Idle? && taken == old(taken) + [Swap.Crash(me)]
      ensures Became(old(world), old(world).row, old(world).points) && world.flipKeys == old(world).flipKeys
    {
      Take(Swap.Crash(me));
    }

    // ----- The row -----

    /** `claim`, and its commit. */
    method Claim(job: JobId) returns (r: Result<bool>)
      requires Valid() && Mine().Idle?
      modifies this
      ensures Valid()
      ensures if r == Ok(true) then Mine() == Swap.Claimed(job) else Mine().Idle?
      ensures Left(r, old(taken), old(raised), [Swap.Step.Claim(me, job)])
      ensures old(Undisturbed()) && r != Ok(true) ==> world == old(world)
      ensures old(Undisturbed()) && r == Ok(true) ==>
              Became(old(world), Columns(false, Some(me), Some(world.now + 300), Some(job), old(world).row.active),
                     old(world).points)
      ensures old(Undisturbed()) && r.Ok? ==>
                r.value == (!old(world).row.deleted && old(world).row.lastJob != Some(job)
                            && !(old(world).row.leaseExpires.Some? && world.now <= old(world).row.leaseExpires.value))
      ensures old(Alone()) ==> r.Ok?
    {
      var fault := AwaitRow(Swap.Step.Claim(me, job));
      match fault
      case Dies => r := Died;
      case Raises(kind, _) => r := Raised(kind);
      case Fine =>
        r := Ok(Claimable(world.row, job, world.now));
        Take(Swap.Step.Claim(me, job));
    }

    /** `get`: the active generation, or none once the project is gone. */
    method Get() returns (r: Result<Option<nat>>)
      requires Valid() && Mine().Claimed?
      modifies this
      ensures Valid()
      ensures r.Died? || r == Ok(None) ==> Mine().Idle?
      ensures Left(r, old(taken), old(raised), [Swap.Get(me)])
      ensures r.Ok? && r.value.Some? ==> Mine() == Swap.Fetched(old(Mine()).job, r.value.value)
      ensures r.Raised? ==> Mine() == old(Mine()) && taken == old(taken)
      ensures old(Undisturbed()) ==> Became(old(world), old(world).row, old(world).points)
      ensures old(Undisturbed()) && r.Ok? ==>
              r.value == if old(world).row.deleted then None else Some(old(world).row.active)
      ensures old(Alone()) ==> r.Ok?
    {
      var fault := Await();
      match fault
      case Dies =>
        Die();
        r := Died;
      case Raises(kind, _) => r := Raised(kind);
      case Fine =>
        r := Ok(if world.row.deleted then None else Some(world.row.active));
        Take(Swap.Get(me));
    }

    /** `_clone`, once its result is in. */
    method CloneRepository(clone: Clone) returns (r: Result<Clone>)
      requires Valid() && Mine().Fetched?
      modifies this
      ensures Valid()
      ensures r.Ok? ==>
              r.value == clone
              && Mine() == Swap.Indexing(old(Mine()).job, old(Mine()).captured, clone.keys, {}, clone.commit)
      ensures Left(r, old(taken), old(raised), [Swap.Capture(me, clone.keys, clone.commit)])
      ensures r.Raised? ==> Mine() == old(Mine())
      ensures r.Died? ==> Mine().Idle?
      ensures old(Undisturbed()) ==> Became(old(world), old(world).row, old(world).points)
      ensures old(Alone()) ==> r.Ok?
    {
      var fault := Await();
      match fault
      case Dies =>
        Die();
        r := Died;
      case Raises(kind, _) => r := Raised(kind);
      case Fine =>
        r := Ok(clone);
        Take(Swap.Capture(me, clone.keys, clone.commit));
    }

    /** `release` of a finished index, and its commit: the flip. */
    method Release(newActive: nat) returns (r: Result<bool>)
      requires Valid() && Mine().Indexing? && Mine().pending == [] && newActive == Mine().captured + 1
      modifies this
      ensures Valid()
      ensures r == Ok(true) ==>
              Mine() == if old(Mine()).captured == 0 then Swap.Idle
                  else Swap.Sweeping(old(Mine()).job, old(Mine()).captured, false)
      ensures r == Ok(false) ==> Mine() == Swap.Refused(old(Mine()).job, newActive)
      ensures Left(r, old(taken), old(raised), [Swap.Release(me)])
      ensures r.Raised? ==> Mine() == old(Mine())
      ensures r.Died? ==> Mine().Idle?
      ensures old(Undisturbed()) ==>
              Became(old(world), if r == Ok(true) then Free(old(Mine()).job, newActive) else old(world).row,
                     old(world).points)
      ensures old(Undisturbed()) && r.Ok? ==> r.value == old(Holds())
      ensures old(Undisturbed()) && r == Ok(true) ==> world.flipKeys == old(Mine()).written
      ensures old(Alone()) ==> r.Ok?
    {
      var fault := AwaitRow(Swap.Release(me));
      match fault
      case Dies =>
        Die();
        r := Died;
      case Raises(kind, _) => r := Raised(kind);
      case Fine =>
        r := Ok(Releasable(world.row, me));
        Take(Swap.Release(me));
    }

    /** `release` of a run that failed terminally. `generation` is what the code knows of its own. */
    method ReleaseFailed(ghost generation: Option<nat>) returns (r: Result<bool>)
      requires Valid() && Swap.Running(Mine()) && generation == Swap.OwnGeneration(Mine())
      modifies this
      ensures Valid()
      ensures r == Ok(true) ==> Mine().Idle?
      ensures r == Ok(false) ==>
              if generation.Some? then Mine() == Swap.Refused(old(Mine()).job, generation.value) else Mine().Idle?
      ensures Left(r, old(taken), old(raised), [Swap.TerminalFailure(me)])
      ensures r.Raised? ==> Mine() == old(Mine())
      ensures r.Died? ==> Mine().Idle?
      ensures old(Undisturbed()) ==>
              Became(old(world), if r == Ok(true) then Free(old(Mine()).job, old(world).row.active) else old(world).row,
                     old(world).points)
      ensures old(Undisturbed()) && r.Ok? ==> r.value == old(Holds())
    {
      var fault := AwaitRow(Swap.TerminalFailure(me));
      match fault
      case Dies =>
        Die();
        r := Died;
      case Raises(kind, _) => r := Raised(kind);
      case Fine =>
        r := Ok(Releasable(world.row, me));
        Take(Swap.TerminalFailure(me));
    }

    /** `get` again, after a refused release. */
    method StillThere() returns (r: Result<bool>)
      requires Valid() && Mine().Refused?
      modifies this
      ensures Valid()
      ensures r == Ok(true) ==> Mine().Idle?
      ensures r == Ok(false) ==> Mine() == Swap.Discarding(old(Mine()).job, old(Mine()).generation, false)
      ensures Left(r, old(taken), old(raised), [Swap.CheckProject(me)])
      ensures r.Raised? ==> Mine() == old(Mine())
      ensures r.Died? ==> Mine().Idle?
      ensures old(Undisturbed()) ==> Became(old(world), old(world).row, old(world).points)
      ensures old(Undisturbed()) && r.Ok? ==> r.value == !old(world).row.deleted
    {
      var fault := Await();
      match fault
      case Dies =>
        Die();
        r := Died;
      case Raises(kind, _) => r := Raised(kind);
      case Fine =>
        r := Ok(!world.row.deleted);
        Take(Swap.CheckProject(me));
    }

    // ----- The store -----

    /** One batch of `_flush`. */
    method Upsert(size: nat) returns (r: Result<()>)
      requires Valid() && Mine().Indexing? && 0 < size <= |Mine().pending|
      modifies this
      ensures Valid()
      ensures !r.Died? ==> Mine().Indexing? && Mine().job == old(Mine()).job && Mine().captured == old(Mine()).captured
      ensures r.Ok? ==> Mine().pending == old(Mine()).pending[size..]
      ensures Left(r, old(taken), old(raised), [Swap.Flush(me, size)])
      ensures r.Died? ==> Mine().Idle?
      ensures old(Undisturbed()) ==> Became(old(world), old(world).row, world.points)
      ensures old(Undisturbed()) && r.Ok? ==> Flushed(old(world), world, me, old(Mine()).pending[..size])
      ensures old(Undisturbed()) && !r.Ok? ==>
                || world.points == old(world).points
                || world.points == Swap.Stored(old(world).points, old(Mine()).captured + 1, old(Mine()).pending[..size],
                                               old(Mine()).commit)
      ensures old(Alone()) ==> r.Ok?
    {
      var fault := Await();
      match fault
      case Dies =>
        Die();
        r := Died;
      case Raises(kind, applied) =>
        if applied {
          Take(Swap.Flush(me, size));
        }
        r := Raised(kind);
      case Fine =>
        FlushIs(world, me, size);
        Take(Swap.Flush(me, size));
        r := Ok(());
    }

    /** `delete_generation`: either the superseded one after the flip, or one's own once the project is
        gone. Nothing else may be deleted. */
    method DeleteGeneration(generation: nat) returns (r: Result<()>)
      requires Valid()
      requires || (Mine().Sweeping? && generation == Mine().superseded)
               || (Mine().Discarding? && generation == Mine().generation)
      modifies this
      ensures Valid()
      ensures r.Ok? || r.Died? ==> Mine().Idle?
      ensures r.Raised? ==>
              Swap.Running(Mine()) && Mine().job == old(Mine()).job
              && Swap.OwnGeneration(Mine()) == Swap.OwnGeneration(old(Mine()))
      ensures Left(r, old(taken), old(raised),
              [if old(Mine()).Sweeping? then Swap.DropSuperseded(me) else Swap.DropDiscarded(me), Swap.EndRun(me)])
      ensures old(Undisturbed()) ==> Became(old(world), old(world).row, world.points)
      ensures old(Undisturbed()) ==> world.flipKeys == old(world).flipKeys
      ensures old(Undisturbed()) && r.Ok? ==> world.points == Swap.WithoutGeneration(old(world).points, generation)
      ensures old(Undisturbed()) && !r.Ok? ==>
              world.points == old(world).points || world.points == Swap.WithoutGeneration(old(world).points, generation)
      ensures old(Alone()) ==> r.Ok?
    {
      var fault := Await();
      match fault
      case Dies =>
        Die();
        r := Died;
      case Raises(kind, applied) =>
        if applied {
          Take(if Mine().Sweeping? then Swap.DropSuperseded(me) else Swap.DropDiscarded(me));
        }
        r := Raised(kind);
      case Fine =>
        Take(if Mine().Sweeping? then Swap.DropSuperseded(me) else Swap.DropDiscarded(me));
        Take(Swap.EndRun(me));
        r := Ok(());
    }

    // ----- `run` -----

    /** `_index`: the chunks in batches. */
    method Index() returns (r: Result<()>)
      requires Valid() && Mine().Indexing? && Mine().written == {}
      modifies this
      ensures Valid()
      ensures !r.Died? ==> Mine().Indexing? && Mine().job == old(Mine()).job && Mine().captured == old(Mine()).captured
      ensures r.Ok? ==> Mine().pending == []
      ensures r.Died? ==> Mine().Idle?
      ensures r.Ok? ==> raised == old(raised) && Orderly(old(taken))
      ensures r.Raised? ==> raised == old(raised) + [r.kind] && Orderly(old(taken))
      ensures r.Died? ==> raised == old(raised)
      ensures old(Undisturbed()) ==> Became(old(world), old(world).row, world.points)
      ensures old(Undisturbed()) && r.Ok? ==> Wrote(old(world), world, me, old(Mine()).pending)
      ensures old(Undisturbed()) && !r.Ok? ==>
              PartlyStored(old(world).points, world.points, old(Mine()).captured + 1, old(Mine()).pending,
                           old(Mine()).commit)
      ensures old(Alone()) ==> r.Ok?
    {
      ghost var keys := Mine().pending;
      ghost var done: nat := 0;
      NothingWritten(world, me);
      while Mine().pending != []
        invariant Valid() && Mine().Indexing? && Mine().job == old(Mine()).job
                  && Mine().captured == old(Mine()).captured
        invariant done <= |keys| && Mine().pending == keys[done..]
        invariant old(Undisturbed()) ==>
                  Undisturbed() && Became(old(world), old(world).row, world.points)
                  && Wrote(old(world), world, me, keys[..done])
        invariant raised == old(raised) && Orderly(old(taken))
        decreases |Mine().pending|
      {
        var size := Min(batchSize, |Mine().pending|);
        ghost var before := world;
        var wrote := Upsert(size);
        if !wrote.Ok? {
          if old(Undisturbed()) {
            PartWritten(old(world), before, world.points, me, keys, done, size);
          }
          return wrote;
        }
        if old(Undisturbed()) {
          WroteMore(old(world), before, world, me, keys, done, size);
        }
        done := done + size;
      }
      assert keys[..done] == keys;
      r := Ok(());
    }

    /** What a refused release is followed by when the project is gone. */
    function Discarding(): seq<Swap.Step> {
      [Swap.CheckProject(me), Swap.DropDiscarded(me), Swap.EndRun(me)]
    }

    /** `_discard_unclaimed_generation`. */
    method DiscardUnclaimedGeneration(generation: nat) returns (r: Result<()>)
      requires Valid() && Mine().Refused? && Mine().generation == generation
      modifies this
      ensures Valid()
      ensures r.Ok? || r.Died? ==> Mine().Idle?
      ensures r.Raised? ==>
              Swap.Running(Mine()) && Mine().job == old(Mine()).job
              && Swap.OwnGeneration(Mine()) == Some(generation)
      ensures r.Ok? ==> raised == old(raised) && Orderly(old(taken))
      ensures r.Raised? ==> raised == old(raised) + [r.kind] && Orderly(old(taken))
      ensures r.Died? ==> raised == old(raised)
      ensures r.Ok? ==> taken == old(taken) + [Swap.CheckProject(me)] || taken == old(taken) + Discarding()
      ensures r.Raised? ==> old(taken) <= taken <= old(taken) + Discarding()
      ensures old(Undisturbed()) ==> Became(old(world), old(world).row, world.points)
      ensures old(Undisturbed()) && !old(world).row.deleted ==> world.points == old(world).points
    {
      var there := StillThere();
      match there
      case Died => r := Died;
      case Raised(kind) => r := Raised(kind);
      case Ok(there) =>
        if there {
          // leave it for its new owner
          return Ok(());
        }
        r := DeleteGeneration(generation);
        assert old(taken) + [Swap.CheckProject(me)] + [Swap.DropDiscarded(me), Swap.EndRun(me)] ==
            old(taken) + Discarding();
    }

    /** The `try` block: `generation` is known once the clone is back. */
    method TryRun(superseded: nat, clone: Clone) returns (r: Result<()>, generation: Option<nat>)
      requires Valid() && Mine().Fetched? && Mine().captured == superseded
      modifies this
      ensures Valid()
      ensures r.Ok? || r.Died? ==> Mine().Idle?
      ensures r.Raised? ==>
              Swap.Running(Mine()) && Mine().job == old(Mine()).job
              && Swap.OwnGeneration(Mine()) == generation
      ensures r.Ok? ==> raised == old(raised) && Orderly(old(taken))
      ensures r.Raised? ==> raised == old(raised) + [r.kind] && Orderly(old(taken))
      ensures r.Died? ==> raised == old(raised)
      ensures old(Undisturbed()) && old(Holds()) && r.Ok? ==>
              Undisturbed() && Flipped(old(world), world, old(Mine()).job, superseded, clone)
      ensures old(Undisturbed()) && old(Holds()) && r.Raised? ==>
              Undisturbed() && world.now == old(world).now
              && BrokenOff(old(world), world, old(Mine()).job, superseded, clone)
      ensures old(Alone()) && old(Holds()) ==> r.Ok?
    {
      ghost var start, job := world, Mine().job;
      generation := None;
      var cloned := CloneRepository(clone);
      if !cloned.Ok? {
        assert clone.keys[..0] == [];
        return if cloned.Died? then Died else Raised(cloned.kind), generation;
      }
      generation := Some(superseded + 1);
      var indexed := Index();
      if !indexed.Ok? {
        return indexed, generation;
      }
      assert old(Undisturbed()) ==> world.points == Swap.Stored(start.points, superseded + 1, clone.keys, clone.commit);
      assert clone.keys[..|clone.keys|] == clone.keys;
      r := FlipAndSweep(superseded);
    }

    /** The flip, and the sweep of the generation it superseded. */
    function Sweeping(): seq<Swap.Step> {
      [Swap.Release(me), Swap.DropSuperseded(me), Swap.EndRun(me)]
    }

    /** The flip, and what follows it. */
    method FlipAndSweep(superseded: nat) returns (r: Result<()>)
      requires Valid() && Mine().Indexing? && Mine().pending == [] && Mine().captured == superseded
      modifies this
      ensures Valid()
      ensures r.Ok? || r.Died? ==> Mine().Idle?
      ensures r.Raised? ==>
              Swap.Running(Mine()) && Mine().job == old(Mine()).job
              && Swap.OwnGeneration(Mine()) == Some(superseded + 1)
      ensures r.Ok? ==> raised == old(raised) && Orderly(old(taken))
      ensures r.Raised? ==> raised == old(raised) + [r.kind] && Orderly(old(taken))
      ensures r.Died? ==> raised == old(raised)
      // flip before delete: nothing is dropped but after the release, and by its answer
      ensures r.Ok? ==>
                || (superseded == 0 && taken == old(taken) + [Swap.Release(me)])
                || (superseded != 0 && taken == old(taken) + Sweeping())
                || taken == old(taken) + [Swap.Release(me)] + [Swap.CheckProject(me)]
                || taken == old(taken) + [Swap.Release(me)] + Discarding()
      ensures r.Raised? ==> old(taken) <= taken
      ensures r.Raised? ==> taken <= old(taken) + Sweeping() || taken <= old(taken) + [Swap.Release(me)] + Discarding()
      ensures old(Undisturbed()) ==> Became(old(world), world.row, world.points)
      ensures old(Undisturbed()) && old(Holds()) && r.Ok? ==>
                && world.row == Free(old(Mine()).job, superseded + 1)
                && world.points == (if superseded == 0 then old(world).points
                   else Swap.WithoutGeneration(old(world).points, superseded))
                && world.flipKeys == old(Mine()).written
      ensures old(Undisturbed()) && old(Holds()) && r.Raised? ==>
                || (world.row == old(world).row && world.points == old(world).points)
                || (superseded != 0 && world.row == Free(old(Mine()).job, superseded + 1)
                    && (world.points == old(world).points
                        || world.points == Swap.WithoutGeneration(old(world).points, superseded)))
      ensures old(Alone()) && old(Holds()) ==> r.Ok?
    {
      var released := Release(superseded + 1);
      match released
      case Died => r := Died;
      case Raised(kind) => r := Raised(kind);
      case Ok(released) =>
        if !released {
          r := DiscardUnclaimedGeneration(superseded + 1);
        } else if superseded != 0 {
          r := DeleteGeneration(superseded);
          assert old(taken) + [Swap.Release(me)] + [Swap.DropSuperseded(me), Swap.EndRun(me)] ==
              old(taken) + Sweeping();
        } else {
          r := Ok(());
        }
    }

    /** To end on a terminal exception without having discarded anything is to stop where one stands. */
    function EscapeStep(kind: Kind): Swap.Step {
      if kind.TerminalError? then Swap.Crash(me) else Swap.RetryableFailure(me)
    }

    /** An exception that no handler of `run` takes: the consumer ends the job on a terminal one and
        routes any other. */
    method Escape(kind: Kind) returns (r: Result<()>)
      requires Valid() && Swap.Running(Mine())
      modifies this`world, this`taken
      ensures Valid() && r == Raised(kind) && taken == old(taken) + [EscapeStep(kind)]
      ensures if kind.TerminalError? then Mine().Idle? else Mine() == Swap.Failing(old(Mine()).job)
      ensures Became(old(world), old(world).row, old(world).points)
    {
      Take(EscapeStep(kind));
      r := Raised(kind);
    }

    /** What a handler has done by the time it raises. A retryable error leaves the row alone; an
        unclassified one abandons the lease; a terminal one is recorded, and the generation discarded if
        that is refused. An exception out of a handler is not handled again. */
    ghost predicate HandledAs(kind: Kind, thrown: Kind, taken0: seq<Swap.Step>, raised0: seq<Kind>)
      reads this
    {
      if raised == raised0 then
        && thrown == kind
        && match kind
           case RetryableError => taken == taken0 + [Swap.RetryableFailure(me)]
           case OtherError => taken == taken0 + [Swap.UnclassifiedFailure(me)]
           case TerminalError => Orderly(taken0) && |taken| > |taken0| && taken[|taken0|] == Swap.TerminalFailure(me)
      else
        && !kind.RetryableError? && raised == raised0 + [thrown]
        && taken0 < taken && taken[|taken| - 1] == EscapeStep(thrown)
    }

    /** The `except` clauses. */
    method Handle(kind: Kind, generation: Option<nat>) returns (r: Result<()>)
      requires Valid() && Swap.Running(Mine()) && Swap.OwnGeneration(Mine()) == generation
      modifies this
      ensures Valid() && !r.Ok?
      ensures r.Died? || r == Raised(TerminalError) ==> Mine().Idle?
      ensures r.Raised? && !r.kind.TerminalError? ==> Mine() == Swap.Failing(old(Mine()).job)
      ensures r.Raised? ==> HandledAs(kind, r.kind, old(taken), old(raised))
      // in the row: a terminal error frees the lease and records the job, an unclassified one lets it run out
      // now, a retryable one leaves it as it is; and so does whatever its holder does not hold any more
      ensures old(Undisturbed()) && !old(world).row.deleted && r.Raised? && raised == old(raised) ==>
              Became(old(world),
                     if kind.TerminalError? && old(Holds()) then Free(old(Mine()).job, old(world).row.active)
                     else if kind.OtherError? && old(Holds())
                     then Columns(false, Some(me), Some(old(world).now), old(world).row.lastJob, old(world).row.active)
                     else old(world).row,
                     old(world).points)
    {
      match kind
      case RetryableError => r := Escape(kind);
      case OtherError =>
        var fault := AwaitRow(Swap.UnclassifiedFailure(me));
        match fault {
          case Dies =>
            Die();
            r := Died;
          case Raises(other, _) => r := Escape(other);
          case Fine =>
            Take(Swap.UnclassifiedFailure(me));
            r := Raised(kind);
        }
      case TerminalError => r := RecordFailure(generation);
    }

    /** The terminal handler: the failure on the row, and the generation discarded if that is refused. */
    method RecordFailure(generation: Option<nat>) returns (r: Result<()>)
      requires Valid() && Swap.Running(Mine()) && Swap.OwnGeneration(Mine()) == generation
      modifies this
      ensures Valid() && !r.Ok?
      ensures r.Died? || r == Raised(TerminalError) ==> Mine().Idle?
      ensures r.Raised? && !r.kind.TerminalError? ==> Mine() == Swap.Failing(old(Mine()).job)
      ensures r.Raised? ==> HandledAs(TerminalError, r.kind, old(taken), old(raised))
      ensures old(Undisturbed()) && !old(world).row.deleted && r.Raised? && raised == old(raised) ==>
              Became(old(world),
                     if old(Holds()) then Free(old(Mine()).job, old(world).row.active) else old(world).row,
                     old(world).points)
    {
      var released := ReleaseFailed(generation);
      match released
      case Died => r := Died;
      case Raised(other) => r := Escape(other);
      case Ok(released) =>
        r := Raised(TerminalError);
        if !released && generation.Some? {
          var discarded := DiscardUnclaimedGeneration(generation.value);
          match discarded {
            case Died => r := Died;
            case Raised(other) => r := Escape(other);
            case Ok(_) =>
          }
        }
    }

    /** The run got as far as reading the project, past which its handlers are in force. */
    ghost predicate ReadIt(taken0: seq<Swap.Step>)
      reads this
    {
      |taken| > |taken0| && taken0 < taken && taken[|taken0|] == Swap.Get(me)
    }

    /** How a raised run ended: unhandled if the row could not even be read, and otherwise as the handler of
        the first exception has it. */
    ghost predicate Ended(thrown: Kind, taken0: seq<Swap.Step>, raised0: seq<Kind>)
      reads this
    {
      && raised0 < raised && IsLastRaised(thrown)
      && if ReadIt(taken0) then Handled(thrown, taken0 + [Swap.Get(me)], raised0)
         else raised == raised0 + [thrown] && taken == taken0 + [EscapeStep(thrown)]
    }

    /** What a run leaves that ended on one exception: if the flip had not happened, some of its chunks and the
        lease as its handler left it; if it had, the flipped row and perhaps the old generation. */
    ghost predicate Failed(before: Swap.State, after: Swap.State, job: JobId, clone: Clone, kind: Kind)
      reads this
    {
      var active := before.row.active;
      || (&& PartlyStored(before.points, after.points, active + 1, clone.keys, clone.commit)
          && after.row == match kind
                          case TerminalError => Free(job, active)
                          case OtherError => Columns(false, Some(me), Some(before.now), before.row.lastJob, active)
                          case RetryableError => before.row)
      || (&& active != 0 && after.row == Free(job, active + 1)
          && SweptOrNot(Swap.Stored(before.points, active + 1, clone.keys, clone.commit), after.points, active))
    }

    /** What the body of `run` leaves when it raises, before any handler. */
    ghost predicate BrokenOff(before: Swap.State, after: Swap.State, job: JobId, active: nat, clone: Clone) {
      || (&& PartlyStored(before.points, after.points, active + 1, clone.keys, clone.commit)
          && after.row == before.row)
      || (&& active != 0 && after.row == Free(job, active + 1)
          && SweptOrNot(Swap.Stored(before.points, active + 1, clone.keys, clone.commit), after.points, active))
    }

    predicate IsLastRaised(kind: Kind)
      reads this
    {
      raised != [] && raised[|raised| - 1] == kind
    }

    /** The handler of the first exception has had its turn, `thrown` being the last one raised. */
    ghost predicate Handled(thrown: Kind, taken0: seq<Swap.Step>, raised0: seq<Kind>)
      reads this
    {
      && raised0 < raised
      && exists before :: taken0 <= before && before <= taken
           && HandledAs(raised[|raised0|], thrown, before, raised0 + [raised[|raised0|]])
    }

    /** `run` once the project is read: the body, and its handlers. */
    method RunRead(superseded: nat, clone: Clone) returns (r: Result<()>)
      requires Valid() && Mine().Fetched? && Mine().captured == superseded
      modifies this
      ensures Valid()
      ensures r.Ok? || r.Died? || r == Raised(TerminalError) ==> Mine().Idle?
      ensures r.Raised? && !r.kind.TerminalError? ==> Mine() == Swap.Failing(old(Mine()).job)
      ensures r.Ok? ==> raised == old(raised) && Orderly(old(taken))
      ensures r.Raised? ==> old(taken) <= taken && IsLastRaised(r.kind) && Handled(r.kind, old(taken), old(raised))
      ensures old(Undisturbed()) && old(Holds()) && r.Ok? ==>
              Flipped(old(world), world, old(Mine()).job, superseded, clone)
      ensures old(Undisturbed()) && old(Holds()) && old(world).row.active == superseded
              && r.Raised? && raised == old(raised) + [r.kind] ==>
              Became(old(world), world.row, world.points) && Failed(old(world), world, old(Mine()).job, clone, r.kind)
      ensures old(Alone()) && old(Holds()) ==> r.Ok?
    {
      var tried, generation := TryRun(superseded, clone);
      match tried
      case Ok(_) => r := Ok(());
      case Died => r := Died;
      case Raised(kind) =>
        ghost var before := taken;
        r := Handle(kind, generation);
        if r.Raised? {
          assert raised[|old(raised)|] == kind;
          assert HandledAs(kind, r.kind, before, old(raised) + [kind]);
        }
    }

    method Run(clone: Clone) returns (r: Result<()>)
      requires Valid() && Mine().Claimed?
      modifies this
      ensures Valid()
      ensures r.Ok? || r.Died? || r == Raised(TerminalError) ==> Mine().Idle?
      ensures r.Raised? && !r.kind.TerminalError? ==> Mine() == Swap.Failing(old(Mine()).job)
      ensures r.Ok? ==> raised == old(raised) && Orderly(old(taken))
      ensures r.Raised? ==> Ended(r.kind, old(taken), old(raised))
      ensures old(Undisturbed()) && old(Holds()) && r.Ok? ==>
              Flipped(old(world), world, old(Mine()).job, old(world).row.active, clone)
      ensures old(Undisturbed()) && old(Holds()) && r.Raised? && raised == old(raised) + [r.kind] ==>
              && Became(old(world), world.row, world.points)
              && (if ReadIt(old(taken)) then Failed(old(world), world, old(Mine()).job, clone, r.kind)
                  else world.row == old(world).row && world.points == old(world).points)
      ensures old(Alone()) && old(Holds()) ==> r.Ok?
    {
      var project := Get();
      match project
      case Died => r := Died;
      case Raised(kind) => r := Escape(kind);
      case Ok(None) => r := Ok(());
      case Ok(Some(superseded)) => r := RunRead(superseded, clone);
    }

    // ----- `handle_message` -----

    function RouteStep(topic: Topic, delay: nat): Swap.Step {
      if topic.DeadLetter? then Swap.Step.DeadLetter(me) else Swap.Reschedule(me, delay)
    }

    /** The row after a failed job was routed: freed for a dead letter, held to the retry's due moment for a
        retry; as it was if the lease was not held. */
    function RowOnceRouted(row: Columns, now: nat, job: JobId, dead: bool, delay: nat): Columns {
      if row.leaseOwner != Some(me) then row
      else if dead then Free(job, row.active)
      else Columns(false, Some(me), Some(now + delay), row.lastJob, row.active)
    }

    /** The row's part of routing a failure: hold the lease to the retry's due moment, or give it up. */
    method RecordRoute(topic: Topic, delay: nat) returns (r: Result<()>)
      requires Valid() && Mine().Failing?
      modifies this
      ensures Valid() && Mine().Idle?
      ensures r.Ok? ==> taken == old(taken) + [RouteStep(topic, delay)] && raised == old(raised)
      ensures r.Raised? ==> raised == old(raised) + [r.kind]
      ensures old(Undisturbed()) && !old(world).row.deleted && r.Ok? ==>
              Became(old(world), RowOnceRouted(old(world).row, world.now, old(Mine()).job, topic.DeadLetter?, delay),
                  old(world).points)
    {
      var fault := AwaitRow(RouteStep(topic, delay));
      match fault
      case Dies =>
        Die();
        r := Died;
      case Raises(kind, _) =>
        Take(Swap.Crash(me));
        r := Raised(kind);
      case Fine =>
        Take(RouteStep(topic, delay));
        r := Ok(());
    }

    /** `_route_failure`: the row first, then the message. */
    method Route(message: Message, newId: JobId, nowMs: nat, maxAttempts: int, unexpected: bool, producer: Producer)
      returns (outcome: JobOutcome)
      requires Valid() && Mine().Failing? && Unused(newId, message, producer.sent)
      modifies this, producer
      ensures DistinctJobs(old(producer.sent)) ==> DistinctJobs(producer.sent)
      ensures Valid() && Mine().Idle? && (outcome.Routed? || outcome.Broken? || outcome.Crashed?)
      ensures if outcome.Routed?
              then Succeeded(old(producer.sent), producer.sent, message, newId, nowMs, maxAttempts, unexpected,
                  outcome.how)
              else producer.sent == old(producer.sent)
      ensures outcome.Routed? ==>
                var (topic, delay) := Destination(message.attempt, unexpected, maxAttempts);
                raised == old(raised) && taken == old(taken) + [RouteStep(topic, delay)]
      ensures outcome.Broken? ==> old(raised) < raised
      ensures old(Undisturbed()) && !old(world).row.deleted && outcome.Routed? ==>
                var (topic, delay) := Destination(message.attempt, unexpected, maxAttempts);
                Became(old(world), RowOnceRouted(old(world).row, world.now, old(Mine()).job, topic.DeadLetter?, delay),
                       old(world).points)
    {
      ghost var start, job := world, Mine().job;
      var (topic, delay) := Destination(message.attempt, unexpected, maxAttempts);
      var recorded := RecordRoute(topic, delay);
      if !recorded.Ok? {
        return if recorded.Died? then Crashed else Broken;
      }
      var produced := Await();
      if produced != Fine {
        return if produced.Dies? then Crashed else Broken;
      }
      producer.ProduceTo(topic,
          Message(message.project, newId, message.attempt + 1, nowMs + delay * 1000, message.originalTopic));
      outcome := Routed(if topic.DeadLetter? then DeadLettered else RetryScheduled);
    }

    /** The last exception decides: unclassified or not, it has its destination, the row's part is the
        worker's last step, and the successor is the only message. */
    ghost predicate Answered(message: Message, newId: JobId, nowMs: nat, maxAttempts: int,
                             sent0: seq<(Topic, Message)>, sent: seq<(Topic, Message)>, how: RetryLadder.Outcome)
      reads this
    {
      && raised != [] && taken != [] && !raised[|raised| - 1].TerminalError?
      && var unexpected := raised[|raised| - 1].OtherError?;
         var (topic, delay) := Destination(message.attempt, unexpected, maxAttempts);
         && taken[|taken| - 1] == RouteStep(topic, delay)
         && Succeeded(sent0, sent, message, newId, nowMs, maxAttempts, unexpected, how)
    }

    /** What a job leaves in the row when nobody else was about and one exception at most was raised: the lease
        is free again, unless a retry is to come, which it is held for; and the pointer has moved if the job is
        done, or if the sweep was what failed. */
    ghost predicate LeavesRow(active: nat, message: Message, outcome: JobOutcome, maxAttempts: int,
                              taken0: seq<Swap.Step>, raised0: seq<Kind>)
      reads this
    {
      match outcome
      case Completed => raised == raised0 + [TerminalError] && ReadIt(taken0) ==>
                          Settled(world.row, active, message.job, world.now, None)
      case Routed(_) => |raised| == |raised0| + 1 ==>
                          var (topic, delay) := Destination(message.attempt, raised[|raised0|].OtherError?,
                              maxAttempts);
                          Settled(world.row, active, message.job, world.now,
                                  if topic.DeadLetter? then None else Some(delay))
      case _ => true
    }

    /** The lease is free, or held for a retry; or the pointer has moved and the lease is free. */
    predicate Settled(row: Columns, active: nat, job: JobId, now: nat, retryIn: Option<nat>) {
      || (active != 0 && row == Free(job, active + 1))
      || row == if retryIn.None? then Free(job, active)
                else Columns(false, Some(me), Some(now + retryIn.value), Some(job), active)
    }

    /** A failed run's row, routed. */
    lemma RoutedRow(before: Swap.State, failed: Swap.State, job: JobId, clone: Clone, kind: Kind, dead: bool,
        delay: nat)
      requires before.row == Columns(false, Some(me), before.row.leaseExpires, Some(job), before.row.active)
      requires failed.row == before.row || Failed(before, failed, job, clone, kind)
      requires !kind.TerminalError?
      ensures Settled(RowOnceRouted(failed.row, failed.now, job, dead, delay), before.row.active, job, failed.now,
                      if dead then None else Some(delay))
    {
    }

    /** A claimed job: the run, and what is made of an exception out of it. */
    method WorkOn(message: Message, clone: Clone, newId: JobId, nowMs: nat, maxAttempts: int, producer: Producer)
      returns (outcome: JobOutcome)
      requires Valid() && Mine() == Swap.Claimed(message.job) && Unused(newId, message, producer.sent)
      modifies this, producer
      ensures DistinctJobs(old(producer.sent)) ==> DistinctJobs(producer.sent)
      ensures Valid() && Mine().Idle? && !outcome.Skipped?
      ensures match outcome
              case Completed => (raised == old(raised) && Orderly(old(taken)))
                  || (old(raised) < raised && raised[|raised| - 1].TerminalError?)
              case Routed(how) => old(raised) < raised
                  && Answered(message, newId, nowMs, maxAttempts, old(producer.sent), producer.sent, how)
              case Broken => old(raised) < raised
              case _ => true
      ensures !outcome.Routed? ==> producer.sent == old(producer.sent)
      ensures old(Undisturbed()) && old(Holds()) && outcome == Completed && raised == old(raised) ==>
              Flipped(old(world), world, message.job, old(world).row.active, clone)
      ensures old(Undisturbed()) && old(Holds()) && old(world).row.lastJob == Some(message.job) ==>
              LeavesRow(old(world).row.active, message, outcome, maxAttempts, old(taken), old(raised))
      ensures old(Alone()) && old(Holds()) ==> outcome == Completed && raised == old(raised)
    {
      var ran := Run(clone);
      match ran
      case Ok(_) => outcome := Completed;
      case Died => outcome := Crashed;
      case Raised(kind) =>
        if kind.TerminalError? {
          return Completed;
        }
        ghost var alone := old(Undisturbed()) && old(Holds()) && old(world).row.lastJob == Some(message.job)
                           && raised == old(raised) + [kind];
        ghost var (topic, delay) := Destination(message.attempt, kind.OtherError?, maxAttempts);
        if old(Undisturbed()) && old(Holds()) && old(world).row.lastJob == Some(message.job)
           && raised == old(raised) + [kind] {
          RoutedRow(old(world), world, message.job, clone, kind, topic.DeadLetter?, delay);
        }
        outcome := Route(message, newId, nowMs, maxAttempts, kind.OtherError?, producer);
    }

    /** Every path ends with the worker idle, having taken only steps of the machine; a failed job has one
        successor and no other job has any; left alone, a claimable job leaves exactly its own chunks. */
    method HandleMessage(message: Message, clone: Clone, newId: JobId, nowMs: nat, maxAttempts: int, producer: Producer)
      returns (outcome: JobOutcome)
      requires Valid() && Mine().Idle? && Unused(newId, message, producer.sent)
      modifies this, producer
      ensures DistinctJobs(old(producer.sent)) ==> DistinctJobs(producer.sent)
      ensures Valid() && Mine().Idle?
      ensures match outcome
              case Skipped => taken == old(taken) + [Swap.Step.Claim(me, message.job)] && raised == old(raised)
              case Completed => (raised == old(raised) && Orderly(old(taken)))
                  || (old(raised) < raised && raised[|raised| - 1].TerminalError?)
              case Routed(how) => old(raised) < raised
                  && Answered(message, newId, nowMs, maxAttempts, old(producer.sent), producer.sent, how)
              case Broken => old(raised) < raised
              case Crashed => true
      ensures !outcome.Routed? ==> producer.sent == old(producer.sent)
      ensures old(Undisturbed()) && outcome == Skipped ==> world == old(world)
      ensures old(Undisturbed()) && outcome == Completed && raised == old(raised) ==>
              Flipped(old(world), world, message.job, old(world).row.active, clone)
      ensures old(Undisturbed()) ==>
              LeavesRow(old(world).row.active, message, outcome, maxAttempts,
                        old(taken) + [Swap.Step.Claim(me, message.job)], old(raised))
      ensures old(Alone()) && !Claimable(old(world).row, message.job, old(world).now) ==>
              outcome == Skipped && world == old(world)
      ensures old(Alone()) && Claimable(old(world).row, message.job, old(world).now) ==>
                outcome == Completed && Flipped(old(world), world, message.job, old(world).row.active, clone)
    {
      var claimed := Claim(message.job);
      match claimed
      case Died => outcome := Crashed;
      case Raised(_) => outcome := Broken;
      case Ok(claimed) =>
        if !claimed {
          return Skipped;
        }
        outcome := WorkOn(message, clone, newId, nowMs, maxAttempts, producer);
    }
  }

  /** Who may claim next: once the lease is free any other job at once, and while it is held for a retry any
      other job once the retry is due. */
  lemma NextClaim(row: Columns, holder: WorkerId, until: nat, job: JobId, other: JobId, active: nat, now: nat)
    requires row == Columns(false, None, None, Some(job), active)
             || row == Columns(false, Some(holder), Some(until), Some(job), active)
    ensures Claimable(row, other, now) <==> other != job && (row.leaseOwner == None || now > until)
  {
  }

  /** One successor: a later attempt, its own id, due after the delay; dead-lettered exactly when the
      ladder is spent. */
  predicate Succeeded(before: seq<(Topic, Message)>, after: seq<(Topic, Message)>, message: Message, newId: JobId,
      nowMs: nat,
                      maxAttempts: int, unexpected: bool, how: RetryLadder.Outcome) {
    var (topic, delay) := Destination(message.attempt, unexpected, maxAttempts);
    && after == before
       + [(topic, Message(message.project, newId, message.attempt + 1, nowMs + delay * 1000, message.originalTopic))]
    && (how.DeadLettered? <==> Ends(message.attempt, unexpected, maxAttempts))
  }

  // ----- What a run left alone does -----

  /** `done` of the run's chunks are in the store, and nothing else has moved. */
  ghost predicate Wrote(before: Swap.State, after: Swap.State, me: WorkerId, done: seq<Swap.ChunkKey>) {
    && Swap.PhaseOf(before, me).Indexing? && Swap.PhaseOf(after, me).Indexing?
    && var p := Swap.PhaseOf(before, me);
       && after.row == before.row
       && after.points == Swap.Stored(before.points, p.captured + 1, done, p.commit)
       && Swap.PhaseOf(after, me).written == KeySet(done) && Swap.PhaseOf(after, me).commit == p.commit
       && Swap.PhaseOf(after, me).captured == p.captured
  }

  /** The first of the chunks are in the store, each batch whole. */
  ghost predicate PartlyStored(before: map<Swap.Point, Swap.Commit>, after: map<Swap.Point, Swap.Commit>,
                               generation: nat, keys: seq<Swap.ChunkKey>, commit: Swap.Commit) {
    exists n :: 0 <= n <= |keys| && after == Swap.Stored(before, generation, keys[..n], commit)
  }

  ghost predicate SweptOrNot(full: map<Swap.Point, Swap.Commit>, after: map<Swap.Point, Swap.Commit>, old_: nat) {
    after == full || after == Swap.WithoutGeneration(full, old_)
  }

  lemma PartWritten(before: Swap.State, mid: Swap.State, points: map<Swap.Point, Swap.Commit>, me: WorkerId,
                    keys: seq<Swap.ChunkKey>, done: nat, size: nat)
    requires done + size <= |keys| && Wrote(before, mid, me, keys[..done])
    requires var p := Swap.PhaseOf(before, me);
             || points == mid.points
             || points == Swap.Stored(mid.points, p.captured + 1, keys[done..][..size], p.commit)
    ensures var p := Swap.PhaseOf(before, me);
            PartlyStored(before.points, points, p.captured + 1, keys, p.commit)
  {
    var p := Swap.PhaseOf(before, me);
    StoredTwice(before.points, p.captured + 1, keys[..done], keys[done..][..size], p.commit);
    assert keys[..done] + keys[done..][..size] == keys[..done + size];
  }

  lemma NothingWritten(s: Swap.State, me: WorkerId)
    requires Swap.PhaseOf(s, me).Indexing? && Swap.PhaseOf(s, me).written == {}
    ensures Wrote(s, s, me, [])
  {
    assert KeySet([]) == {};
  }

  lemma {:induction false} StoredTwice(points: map<Swap.Point, Swap.Commit>, generation: nat,
                                       first: seq<Swap.ChunkKey>, second: seq<Swap.ChunkKey>, commit: Swap.Commit)
    ensures Swap.Stored(Swap.Stored(points, generation, first, commit), generation, second, commit)
         == Swap.Stored(points, generation, first + second, commit)
    decreases |second|
  {
    if second == [] {
      assert first + second == first;
    } else {
      var n := |second| - 1;
      StoredTwice(points, generation, first, second[..n], commit);
      assert (first + second)[..|first + second| - 1] == first + second[..n];
    }
  }

  /** One batch went in. */
  ghost predicate Flushed(s: Swap.State, t: Swap.State, me: WorkerId, batch: seq<Swap.ChunkKey>) {
    && Swap.PhaseOf(s, me).Indexing? && Swap.PhaseOf(t, me).Indexing?
    && var p, q := Swap.PhaseOf(s, me), Swap.PhaseOf(t, me);
       && t.row == s.row && t.points == Swap.Stored(s.points, p.captured + 1, batch, p.commit)
       && q.captured == p.captured && q.commit == p.commit && q.written == p.written + KeySet(batch)
  }

  function KeySet(keys: seq<Swap.ChunkKey>): set<Swap.ChunkKey> {
    set k | k in keys
  }

  lemma FlushIs(s: Swap.State, me: WorkerId, size: nat)
    requires Swap.Enabled(s, Swap.Flush(me, size))
    ensures Flushed(s, Swap.Next(s, Swap.Flush(me, size)), me, Swap.PhaseOf(s, me).pending[..size])
  {
  }

  lemma KeySetOfBoth(first: seq<Swap.ChunkKey>, second: seq<Swap.ChunkKey>)
    ensures KeySet(first + second) == KeySet(first) + KeySet(second)
  {
  }

  lemma WroteMore(before: Swap.State, mid: Swap.State, after: Swap.State, me: WorkerId, keys: seq<Swap.ChunkKey>,
      done: nat, size: nat)
    requires done + size <= |keys| && Wrote(before, mid, me, keys[..done])
    requires Flushed(mid, after, me, keys[done..][..size])
    ensures Wrote(before, after, me, keys[..done + size])
  {
    var batch, p := keys[done..][..size], Swap.PhaseOf(before, me);
    assert keys[..done] + batch == keys[..done + size];
    KeySetOfBoth(keys[..done], batch);
    StoredTwice(before.points, p.captured + 1, keys[..done], batch, p.commit);
  }

  /** The pointer is on the new generation, the lease is gone, and the store has the run's chunks where
      the superseded generation's were. */
  ghost predicate Flipped(before: Swap.State, after: Swap.State, job: JobId, superseded: nat, clone: Clone) {
    && after.row == Columns(before.row.deleted, None, None, Some(job), superseded + 1)
    && after.points ==
         (if superseded == 0 then Swap.Stored(before.points, 1, clone.keys, clone.commit)
          else Swap.WithoutGeneration(Swap.Stored(before.points, superseded + 1, clone.keys, clone.commit), superseded))
    && after.flipKeys == KeySet(clone.keys)
  }
}
