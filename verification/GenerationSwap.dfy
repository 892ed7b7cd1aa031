/** Indexing one project by any number of workers (`ingestion/pipeline.py`, `queue/consumer.py`).

    Every `await` in the source is a point where other workers run, so a run is a sequence of atomic
    steps: one committed statement on the project row, or one call to the vector store. A worker that
    lost its lease keeps stepping until a `release` refuses it. */
module GenerationSwap {
  import opened Prelude
  import opened Lease

  datatype ChunkKey = ChunkKey(path: string, index: nat)

  /** A point of this project; the generation is part of its identity. */
  datatype Point = Point(generation: nat, key: ChunkKey)

  type Commit = string

  /** Where one worker stands in `handle_message` and `run`. */
  datatype Phase =
    | Idle
    | Claimed(job: JobId)
    | Fetched(job: JobId, captured: nat)                     // the row is read; cloning
    | Indexing(job: JobId, captured: nat, pending: seq<ChunkKey>, written: set<ChunkKey>, commit: Commit)
    | Sweeping(job: JobId, superseded: nat, dropped: bool)   // pointer flipped, old generation to drop
    | Refused(job: JobId, generation: nat)                   // `release` matched no row
    | Discarding(job: JobId, generation: nat, dropped: bool) // the project was found gone
    | Failing(job: JobId)                                    // the consumer is routing the failure

  /** A user's delete (`services/project.py`): it reads the row, locks it by marking it deleted, calls the
      store only if the row it read names a collection, and commits. The collection is written by the
      first release that moves the pointer, so it is named exactly when the pointer is not 0. */
  datatype Deletion = NoDelete | Asked(recorded: bool) | Locked(recorded: bool, dropped: bool)

  /** `flipKeys` and `flipCommit` are history: what the run that flipped the pointer last wrote. */
  datatype State = State(
    now: nat,
    row: Columns,
    points: map<Point, Commit>,
    phases: map<WorkerId, Phase>,
    flipKeys: set<ChunkKey>,
    flipCommit: Commit,
    deletion: Deletion)

  datatype Step =
    | Tick(elapsed: nat)
    | Claim(worker: WorkerId, job: JobId)
    | Renew(worker: WorkerId)
    | Get(worker: WorkerId)
    | Capture(worker: WorkerId, keys: seq<ChunkKey>, commit: Commit)
    | Flush(worker: WorkerId, size: nat)
    | Release(worker: WorkerId)
    | DropSuperseded(worker: WorkerId)
    | CheckProject(worker: WorkerId)
    | DropDiscarded(worker: WorkerId)
    | EndRun(worker: WorkerId)
    | TerminalFailure(worker: WorkerId)
    | RetryableFailure(worker: WorkerId)
    | UnclassifiedFailure(worker: WorkerId)
    | Reschedule(worker: WorkerId, delay: nat)
    | DeadLetter(worker: WorkerId)
    | Crash(worker: WorkerId)
    | AskDelete
    | LockRow
    | DropProject
    | CommitDelete
    | AbortDelete   // the store is unreachable: nothing is committed

  const INITIAL := State(0, Columns(false, None, None, None, 0), map[], map[], {}, "", NoDelete)

  function PhaseOf(s: State, w: WorkerId): Phase {
    if w in s.phases then s.phases[w] else Idle
  }

  function At(s: State, w: WorkerId, p: Phase): State {
    s.(phases := s.phases[w := p])
  }

  /** The run has work of its own in flight, so an exception can leave it. */
  predicate Running(p: Phase) {
    !p.Idle? && !p.Failing?
  }

  /** The generation a run writes, or would have to discard; `generation` in the source. */
  function OwnGeneration(p: Phase): Option<nat> {
    match p
    case Indexing(_, captured, _, _, _) => Some(captured + 1)
    case Sweeping(_, superseded, _) => Some(superseded + 1)
    case Refused(_, generation) => Some(generation)
    case Discarding(_, generation, _) => Some(generation)
    case _ => None
  }

  /** The statement matches the project's row. One that does waits for the delete that has locked it; one
      that does not returns at once. */
  predicate WritesRow(s: State, step: Step) {
    match step
    case Claim(_, job) => Claimable(s.row, job, s.now)
    case Renew(w) => Renewable(s.row, w)
    case Release(w) => Releasable(s.row, w)
    case TerminalFailure(w) => Releasable(s.row, w)
    case UnclassifiedFailure(w) => Renewable(s.row, w)
    case Reschedule(w, _) => Renewable(s.row, w)
    case DeadLetter(w) => Releasable(s.row, w)
    case _ => false
  }

  predicate Enabled(s: State, step: Step) {
    Ready(s, step) && !(s.deletion.Locked? && WritesRow(s, step))
  }

  predicate Ready(s: State, step: Step) {
    match step
    case Tick(_) => true
    case AskDelete => !s.row.deleted && s.deletion.NoDelete?
    case LockRow => s.deletion.Asked?
    case DropProject => s.deletion.Locked? && s.deletion.recorded && !s.deletion.dropped
    case CommitDelete => s.deletion.Locked? && s.deletion.recorded == s.deletion.dropped
    case AbortDelete => s.deletion.Asked? || (s.deletion.Locked? && !s.deletion.dropped)
    case Claim(w, job) => PhaseOf(s, w).Idle?
    case Renew(w) => true
    case Get(w) => PhaseOf(s, w).Claimed?
    case Capture(w, _, _) => PhaseOf(s, w).Fetched?
    case Flush(w, size) => PhaseOf(s, w).Indexing? && 0 < size <= |PhaseOf(s, w).pending|
    case Release(w) => PhaseOf(s, w).Indexing? && PhaseOf(s, w).pending == []
    case DropSuperseded(w) => PhaseOf(s, w).Sweeping?
    case CheckProject(w) => PhaseOf(s, w).Refused?
    case DropDiscarded(w) => PhaseOf(s, w).Discarding?
    case EndRun(w) => (PhaseOf(s, w).Sweeping? || PhaseOf(s, w).Discarding?) && PhaseOf(s, w).dropped
    case TerminalFailure(w) => Running(PhaseOf(s, w))
    case RetryableFailure(w) => Running(PhaseOf(s, w))
    case UnclassifiedFailure(w) => Running(PhaseOf(s, w))
    case Reschedule(w, _) => PhaseOf(s, w).Failing?
    case DeadLetter(w) => PhaseOf(s, w).Failing?
    case Crash(w) => !PhaseOf(s, w).Idle?
  }

  /** One upsert: the batch's points take the new content, every other point keeps its own. */
  function Stored(points: map<Point, Commit>, generation: nat, keys: seq<ChunkKey>,
      commit: Commit): map<Point, Commit> {
    if keys == [] then points
    else Stored(points, generation, keys[..|keys| - 1], commit)[Point(generation, keys[|keys| - 1]) := commit]
  }

  lemma {:induction false} StoredAt(points: map<Point, Commit>, generation: nat, keys: seq<ChunkKey>, commit: Commit,
      p: Point)
    ensures p in Stored(points, generation, keys, commit) <==>
            p in points || (p.generation == generation && p.key in keys)
    ensures p in Stored(points, generation, keys, commit) ==>
              Stored(points, generation, keys, commit)[p] ==
              if p.generation == generation && p.key in keys then commit else points[p]
    decreases |keys|
  {
    if keys != [] {
      StoredAt(points, generation, keys[..|keys| - 1], commit, p);
      assert keys == keys[..|keys| - 1] + [keys[|keys| - 1]];
    }
  }

  function WithoutGeneration(points: map<Point, Commit>, generation: nat): map<Point, Commit> {
    map p | p in points && p.generation != generation :: points[p]
  }

  function Next(s: State, step: Step): State
    requires Enabled(s, step)
  {
    match step
    case Tick(elapsed) => s.(now := s.now + elapsed)
    case AskDelete => s.(deletion := Asked(s.row.active != 0))
    case LockRow => s.(deletion := Locked(s.deletion.recorded, false))
    case DropProject => s.(points := map[], deletion := Locked(true, true))
    case CommitDelete => s.(row := s.row.(deleted := true), deletion := NoDelete)
    case AbortDelete => s.(deletion := NoDelete)
    case Claim(w, job) =>
      if Claimable(s.row, job, s.now)
      then At(s, w, Claimed(job)).(row := Lease.Claimed(s.row, w, job, s.now, LEASE_SECONDS))
      else s
    case Renew(w) =>
      if Renewable(s.row, w) then s.(row := Renewed(s.row, s.now, LEASE_SECONDS)) else s
    case Get(w) =>
      At(s, w, if s.row.deleted then Idle else Fetched(PhaseOf(s, w).job, s.row.active))
    case Capture(w, keys, commit) =>
      At(s, w, Indexing(PhaseOf(s, w).job, PhaseOf(s, w).captured, keys, {}, commit))
    case Flush(w, size) =>
      var p := PhaseOf(s, w);
      var batch := p.pending[..size];
      At(s, w, p.(pending := p.pending[size..], written := p.written + set k | k in batch))
        .(points := Stored(s.points, p.captured + 1, batch, p.commit))
    case Release(w) =>
      var p := PhaseOf(s, w);
      if Releasable(s.row, w) then
        At(s, w, if p.captured == 0 then Idle else Sweeping(p.job, p.captured, false))
          .(row := Released(s.row, p.job, Some(p.captured + 1)), flipKeys := p.written, flipCommit := p.commit)
      else
        At(s, w, Refused(p.job, p.captured + 1))
    case DropSuperseded(w) =>
      var p := PhaseOf(s, w);
      At(s, w, Sweeping(p.job, p.superseded, true)).(points := WithoutGeneration(s.points, p.superseded))
    case CheckProject(w) =>
      var p := PhaseOf(s, w);
      At(s, w, if s.row.deleted then Discarding(p.job, p.generation, false) else Idle)
    case DropDiscarded(w) =>
      var p := PhaseOf(s, w);
      At(s, w, Discarding(p.job, p.generation, true)).(points := WithoutGeneration(s.points, p.generation))
    case EndRun(w) => At(s, w, Idle)
    case TerminalFailure(w) =>
      var p := PhaseOf(s, w);
      if Releasable(s.row, w) then At(s, w, Idle).(row := Released(s.row, p.job, None))
      else At(s, w, match OwnGeneration(p) case Some(g) => Refused(p.job, g) case None => Idle)
    case RetryableFailure(w) => At(s, w, Failing(PhaseOf(s, w).job))
    case UnclassifiedFailure(w) =>
      At(s, w, Failing(PhaseOf(s, w).job))
        .(row := if Renewable(s.row, w) then Abandoned(s.row, s.now) else s.row)
    case Reschedule(w, delay) =>
      At(s, w, Idle).(row := if Renewable(s.row, w) then Renewed(s.row, s.now, delay) else s.row)
    case DeadLetter(w) =>
      At(s, w, Idle).(row := if Releasable(s.row, w) then Released(s.row, PhaseOf(s, w).job, None) else s.row)
    case Crash(w) => At(s, w, Idle)
  }

  /** A run of the system: every step is enabled where it is taken. */
  ghost predicate Legal(s: State, steps: seq<Step>)
    decreases |steps|
  {
    steps == [] || (Enabled(s, steps[0]) && Legal(Next(s, steps[0]), steps[1..]))
  }

  ghost function After(s: State, steps: seq<Step>): State
    requires Legal(s, steps)
    decreases |steps|
  {
    if steps == [] then s else After(Next(s, steps[0]), steps[1..])
  }

  predicate IsDelete(step: Step) {
    step.AskDelete? || step.LockRow? || step.DropProject? || step.CommitDelete? || step.AbortDelete?
  }

  // ---------------------------------------------------------------- invariant

  /** The project is neither deleted nor past the point where its delete emptied the store. */
  predicate Live(s: State) {
    !s.row.deleted && !(s.deletion.Locked? && s.deletion.dropped)
  }

  /** What holds of one worker. The heart is `captured == active` for the lease holder: nobody moves
      the pointer under it, so the generation it writes is the next one and no delete reaches it. */
  ghost predicate PhaseOk(s: State, w: WorkerId, p: Phase) {
    match p
    case Fetched(_, captured) =>
      captured <= s.row.active && (s.row.leaseOwner == Some(w) ==> captured == s.row.active)
    case Indexing(_, captured, _, written, _) =>
      captured <= s.row.active
      && (s.row.leaseOwner == Some(w) ==>
            captured == s.row.active
            && (Live(s) ==> forall k :: k in written ==> Point(captured + 1, k) in s.points))
    case Sweeping(_, superseded, _) => superseded < s.row.active
    case Discarding(_, _, _) => s.row.deleted
    case _ => true
  }

  /** Every chunk of the run that flipped the pointer last is in the store. */
  ghost predicate ActiveComplete(s: State) {
    Live(s) ==> forall k :: k in s.flipKeys ==> Point(s.row.active, k) in s.points
  }

  predicate DeletionOk(s: State) {
    && (s.row.deleted ==> s.deletion.NoDelete?)
    && (s.deletion.Locked? && s.deletion.dropped ==> s.deletion.recorded)
    && (!s.deletion.NoDelete? && s.deletion.recorded ==> s.row.active != 0)
  }

  ghost predicate Inv(s: State) {
    && (forall w :: w in s.phases ==> PhaseOk(s, w, s.phases[w]))
    && ActiveComplete(s)
    && DeletionOk(s)
  }

  /** A live project never loses a point of the active or a later generation: sweeps drop superseded
      generations, discards need a deleted project. */
  lemma NoDeleteReachesActive(s: State, step: Step, p: Point)
    requires Enabled(s, step)
    requires step.DropSuperseded? || step.DropDiscarded? ==> PhaseOk(s, step.worker, PhaseOf(s, step.worker))
    requires p in s.points && p.generation >= s.row.active && Live(Next(s, step))
    ensures p in Next(s, step).points
  {
    if step.Flush? {
      FlushStores(s, step.worker, step.size, p);
    }
  }

  /** What a batch does to one point. */
  lemma FlushStores(s: State, w: WorkerId, size: nat, p: Point)
    requires Enabled(s, Flush(w, size))
    ensures var t, run := Next(s, Flush(w, size)), PhaseOf(s, w);
            var mine := p.generation == run.captured + 1 && p.key in run.pending[..size];
            && (p in t.points <==> p in s.points || mine)
            && (p in t.points ==> t.points[p] == if mine then run.commit else s.points[p])
  {
    var run := PhaseOf(s, w);
    StoredAt(s.points, run.captured + 1, run.pending[..size], run.commit, p);
  }

  lemma OtherKeepsPhase(s: State, step: Step, w: WorkerId)
    requires Enabled(s, step) && PhaseOk(s, w, PhaseOf(s, w))
    requires !IsDelete(step) && !step.Tick? ==> step.worker != w && PhaseOk(s, step.worker, PhaseOf(s, step.worker))
    ensures PhaseOk(Next(s, step), w, PhaseOf(Next(s, step), w))
  {
    var p, t := PhaseOf(s, w), Next(s, step);
    assert PhaseOf(t, w) == p;
    if p.Indexing? && t.row.leaseOwner == Some(w) && Live(t) {
      forall k | k in p.written ensures Point(p.captured + 1, k) in t.points {
        NoDeleteReachesActive(s, step, Point(p.captured + 1, k));
      }
    }
  }

  lemma FlushKeepsPhase(s: State, w: WorkerId, size: nat)
    requires Enabled(s, Flush(w, size)) && PhaseOk(s, w, PhaseOf(s, w))
    ensures PhaseOk(Next(s, Flush(w, size)), w, PhaseOf(Next(s, Flush(w, size)), w))
  {
    var t, p := Next(s, Flush(w, size)), PhaseOf(s, w);
    forall k | k in PhaseOf(t, w).written && s.row.leaseOwner == Some(w) && Live(s)
      ensures Point(p.captured + 1, k) in t.points
    {
      FlushStores(s, w, size, Point(p.captured + 1, k));
    }
  }

  lemma ActorKeepsPhase(s: State, step: Step)
    requires Enabled(s, step) && !IsDelete(step) && !step.Tick?
    requires PhaseOk(s, step.worker, PhaseOf(s, step.worker))
    ensures PhaseOk(Next(s, step), step.worker, PhaseOf(Next(s, step), step.worker))
  {
    if step.Flush? {
      FlushKeepsPhase(s, step.worker, step.size);
    }
  }

  /** How far the steps move the clock. */
  function Elapsed(steps: seq<Step>): nat {
    if steps == [] then 0 else (if steps[0].Tick? then steps[0].elapsed else 0) + Elapsed(steps[1..])
  }

  /** The worker itself gives the lease up or hands it to a retry. */
  predicate LetsGo(step: Step, w: WorkerId) {
    match step
    case Release(x) => x == w
    case TerminalFailure(x) => x == w
    case UnclassifiedFailure(x) => x == w
    case Reschedule(x, _) => x == w
    case DeadLetter(x) => x == w
    case _ => false
  }

  /** A worker that has just claimed the project, or whose heartbeat has just renewed the lease, is the holder
      for the next 300 seconds, whatever the others do, unless it lets go itself. */
  lemma LeaseOutlastsTheHeartbeat(s: State, step: Step, w: WorkerId, steps: seq<Step>)
    requires Enabled(s, step)
    requires (step == Renew(w) && s.row.leaseOwner == Some(w))
             || (step.Claim? && step.worker == w && PhaseOf(Next(s, step), w).Claimed?)
    requires Legal(Next(s, step), steps) && Elapsed(steps) <= 300
    requires forall i :: 0 <= i < |steps| ==> !LetsGo(steps[i], w)
    ensures After(Next(s, step), steps).row.leaseOwner == Some(w)
  {
    var t := Next(s, step);
    assert step.Renew? ==> t.row.leaseExpires == Some(s.now + 300);
    assert step.Claim? ==> t.row.leaseExpires == Some(s.now + 300);
    assert t.row.leaseOwner == Some(w);
    LeaseRunsOut(Next(s, step), w, s.now + 300, steps);
  }

  lemma {:induction false} LeaseRunsOut(s: State, w: WorkerId, until: nat, steps: seq<Step>)
    requires s.row.leaseOwner == Some(w) && s.row.leaseExpires.Some? && s.row.leaseExpires.value >= until
    requires Legal(s, steps) && s.now + Elapsed(steps) <= until <= s.now + 300
    requires forall i :: 0 <= i < |steps| ==> !LetsGo(steps[i], w)
    ensures After(s, steps).row.leaseOwner == Some(w)
    decreases |steps|
  {
    if steps != [] {
      assert !LetsGo(steps[0], w);
      LeaseRunsOut(Next(s, steps[0]), w, until, steps[1..]);
    }
  }

  lemma StepKeepsActive(s: State, step: Step)
    requires Inv(s) && Enabled(s, step)
    ensures ActiveComplete(Next(s, step))
  {
    var t := Next(s, step);
    if Live(t) {
      forall k | k in t.flipKeys ensures Point(t.row.active, k) in t.points {
        if step.Release? {
          assert PhaseOk(s, step.worker, PhaseOf(s, step.worker));
        } else {
          NoDeleteReachesActive(s, step, Point(s.row.active, k));
        }
      }
    }
  }

  lemma StepKeepsInv(s: State, step: Step)
    requires Inv(s) && Enabled(s, step)
    ensures Inv(Next(s, step))
  {
    var t := Next(s, step);
    forall w | w in t.phases ensures PhaseOk(t, w, t.phases[w]) {
      assert PhaseOf(t, w) == t.phases[w];
      if IsDelete(step) || step.Tick? || step.worker != w {
        OtherKeepsPhase(s, step, w);
      } else {
        ActorKeepsPhase(s, step);
      }
    }
    StepKeepsActive(s, step);
  }

  lemma {:induction false} RunKeepsInv(s: State, steps: seq<Step>)
    requires Inv(s) && Legal(s, steps)
    ensures Inv(After(s, steps))
    decreases |steps|
  {
    if steps != [] {
      StepKeepsInv(s, steps[0]);
      RunKeepsInv(Next(s, steps[0]), steps[1..]);
    }
  }

  // ---------------------------------------------------------------- safety of every run

  /** Only a release by the lease holder moves the pointer, and only to the next generation. */
  lemma PointerAdvancesByOne(s: State, step: Step)
    requires Inv(s) && Enabled(s, step)
    ensures Next(s, step).row.active ==
            s.row.active + (if step.Release? && Releasable(s.row, step.worker) then 1 else 0)
  {
    if step.Release? {
      assert PhaseOk(s, step.worker, PhaseOf(s, step.worker));
    }
  }

  /** How many releases of a run flipped the pointer. */
  ghost function Flips(s: State, steps: seq<Step>): nat
    requires Legal(s, steps)
    decreases |steps|
  {
    if steps == [] then 0
    else
      (if steps[0].Release? && Releasable(s.row, steps[0].worker) then 1 else 0)
      + Flips(Next(s, steps[0]), steps[1..])
  }

  /** Over any run: the pointer never goes back and counts the flips exactly, every chunk of the run
      that flipped last is in the active generation, and a point of the final active generation (or a
      later one) is never lost on the way while the project lives. */
  lemma {:induction false} EveryRunIsSafe(s: State, steps: seq<Step>)
    requires Inv(s) && Legal(s, steps)
    ensures var t := After(s, steps);
            && Inv(t)
            && t.row.active == s.row.active + Flips(s, steps)
            && (Live(t) ==>
                  && Live(s)
                  && (forall k :: k in t.flipKeys ==> Point(t.row.active, k) in t.points)
                  && (forall p :: p in s.points && p.generation >= t.row.active ==> p in t.points))
    decreases |steps|
  {
    if steps != [] {
      var mid, t := Next(s, steps[0]), After(s, steps);
      StepKeepsInv(s, steps[0]);
      PointerAdvancesByOne(s, steps[0]);
      EveryRunIsSafe(mid, steps[1..]);
      forall p | Live(t) && p in s.points && p.generation >= t.row.active ensures p in t.points {
        NoDeleteReachesActive(s, steps[0], p);
      }
    }
  }

  // ---------------------------------------------------------------- content of the active generation

  /** The step takes up a clone for a run that read `g` off the row. */
  predicate CapturesFrom(s: State, step: Step, g: nat) {
    step.Capture? && PhaseOf(s, step.worker).Fetched? && PhaseOf(s, step.worker).captured == g
  }

  /** Every run that set out from generation `g` saw the same chunks of the same commit. */
  ghost predicate CapturesAgree(s: State, steps: seq<Step>, g: nat, keys: set<ChunkKey>, commit: Commit)
    requires Legal(s, steps)
    decreases |steps|
  {
    steps == [] ||
    ((CapturesFrom(s, steps[0], g) ==> (set k | k in steps[0].keys) == keys && steps[0].commit == commit)
     && CapturesAgree(Next(s, steps[0]), steps[1..], g, keys, commit))
  }

  ghost predicate RunAgrees(p: Phase, g: nat, keys: set<ChunkKey>, commit: Commit) {
    p.Indexing? && p.captured == g ==> p.commit == commit && p.written + (set k | k in p.pending) == keys
  }

  ghost predicate PointAgrees(s: State, p: Point, g: nat, keys: set<ChunkKey>, commit: Commit)
    requires p in s.points
  {
    p.generation == g + 1 ==> p.key in keys && s.points[p] == commit
  }

  ghost predicate Agreed(s: State, g: nat, keys: set<ChunkKey>, commit: Commit) {
    && (forall p :: p in s.points ==> PointAgrees(s, p, g, keys, commit))
    && (forall w :: w in s.phases ==> RunAgrees(s.phases[w], g, keys, commit))
    && (s.row.active == g + 1 ==> s.flipKeys == keys)
  }

  lemma StepKeepsRunAgrees(s: State, step: Step, w: WorkerId, g: nat, keys: set<ChunkKey>, commit: Commit)
    requires Enabled(s, step) && RunAgrees(PhaseOf(s, w), g, keys, commit)
    requires CapturesFrom(s, step, g) ==> (set k | k in step.keys) == keys && step.commit == commit
    ensures RunAgrees(PhaseOf(Next(s, step), w), g, keys, commit)
  {
    if step.Flush? && step.worker == w {
      var p := PhaseOf(s, w);
      assert p.pending == p.pending[..step.size] + p.pending[step.size..];
    }
  }

  lemma StepKeepsPointAgrees(s: State, step: Step, p: Point, g: nat, keys: set<ChunkKey>, commit: Commit)
    requires Enabled(s, step) && p in Next(s, step).points
    requires p in s.points ==> PointAgrees(s, p, g, keys, commit)
    requires step.Flush? ==> RunAgrees(PhaseOf(s, step.worker), g, keys, commit)
    ensures PointAgrees(Next(s, step), p, g, keys, commit)
  {
    if step.Flush? {
      FlushStores(s, step.worker, step.size, p);
    }
  }

  lemma StepKeepsAgreed(s: State, step: Step, g: nat, keys: set<ChunkKey>, commit: Commit)
    requires Inv(s) && Enabled(s, step) && Agreed(s, g, keys, commit)
    requires CapturesFrom(s, step, g) ==> (set k | k in step.keys) == keys && step.commit == commit
    ensures Agreed(Next(s, step), g, keys, commit)
  {
    var t := Next(s, step);
    forall w | w in t.phases ensures RunAgrees(t.phases[w], g, keys, commit) {
      StepKeepsRunAgrees(s, step, w, g, keys, commit);
      assert t.phases[w] == PhaseOf(t, w);
    }
    forall p | p in t.points ensures PointAgrees(t, p, g, keys, commit) {
      StepKeepsPointAgrees(s, step, p, g, keys, commit);
    }
    PointerAdvancesByOne(s, step);
    if step.Release? && Releasable(s.row, step.worker) {
      assert PhaseOk(s, step.worker, PhaseOf(s, step.worker));
      assert RunAgrees(PhaseOf(s, step.worker), g, keys, commit);
    }
  }

  /** While generation `g + 1` is active its points are exactly the chunks of that commit: retries and
      stale workers overwrite, and neither add nor remove. */
  lemma {:induction false} ActiveGenerationIsTheIndex(s: State, steps: seq<Step>, g: nat, keys: set<ChunkKey>,
      commit: Commit)
    requires Inv(s) && Legal(s, steps) && Agreed(s, g, keys, commit)
    requires CapturesAgree(s, steps, g, keys, commit)
    ensures var t := After(s, steps);
            t.row.active == g + 1 && Live(t) ==>
              forall k :: (Point(g + 1, k) in t.points <==> k in keys)
                          && (k in keys ==> t.points[Point(g + 1, k)] == commit)
    decreases |steps|
  {
    if steps != [] {
      StepKeepsInv(s, steps[0]);
      StepKeepsAgreed(s, steps[0], g, keys, commit);
      ActiveGenerationIsTheIndex(Next(s, steps[0]), steps[1..], g, keys, commit);
    }
  }

  // What decides it, exactly.

  /** The step writes a batch of generation `g`, and which. */
  predicate Writes(s: State, step: Step, g: nat) {
    step.Flush? && PhaseOf(s, step.worker).Indexing? && PhaseOf(s, step.worker).captured + 1 == g
  }

  function Batch(s: State, step: Step): seq<ChunkKey>
    requires Enabled(s, step) && step.Flush?
  {
    PhaseOf(s, step.worker).pending[..step.size]
  }

  /** The chunks all runs together, whatever they cloned, wrote in generation `g`. */
  ghost function WrittenIn(s: State, steps: seq<Step>, g: nat): set<ChunkKey>
    requires Legal(s, steps)
    decreases |steps|
  {
    if steps == [] then {}
    else
      (if Writes(s, steps[0], g) then set k | k in Batch(s, steps[0]) else {})
          + WrittenIn(Next(s, steps[0]), steps[1..], g)
  }

  /** The commit the chunk was last written from in generation `g`. */
  ghost function LastWriter(s: State, steps: seq<Step>, g: nat, k: ChunkKey): Option<Commit>
    requires Legal(s, steps)
    decreases |steps|
  {
    if steps == [] then None
    else
      var later := LastWriter(Next(s, steps[0]), steps[1..], g, k);
      if later.Some? then later
      else if Writes(s, steps[0], g) && k in Batch(s, steps[0]) then Some(PhaseOf(s, steps[0].worker).commit)
      else None
  }

  /** Until it is superseded a generation holds what was written in it, each chunk as written last. */
  lemma {:induction false} GenerationHoldsItsWrites(s: State, steps: seq<Step>, g: nat, k: ChunkKey)
    requires Inv(s) && Legal(s, steps) && Live(After(s, steps)) && After(s, steps).row.active <= g
    ensures var t, p := After(s, steps), Point(g, k);
            && (k in WrittenIn(s, steps, g) <==> LastWriter(s, steps, g, k).Some?)
            && (p in t.points <==> p in s.points || k in WrittenIn(s, steps, g))
            && (p in t.points ==>
                  t.points[p] == if k in WrittenIn(s, steps, g) then LastWriter(s, steps, g, k).value else s.points[p])
    decreases |steps|
  {
    if steps != [] {
      var mid := Next(s, steps[0]);
      StepKeepsInv(s, steps[0]);
      EveryRunIsSafe(s, steps);
      EveryRunIsSafe(mid, steps[1..]);
      GenerationHoldsItsWrites(mid, steps[1..], g, k);
      StepMovesPoint(s, steps[0], Point(g, k));
    }
  }

  /** What one step does to a point of the active or a later generation. */
  lemma StepMovesPoint(s: State, step: Step, p: Point)
    requires Inv(s) && Enabled(s, step) && Live(Next(s, step)) && s.row.active <= p.generation
    ensures var t := Next(s, step);
            var written := Writes(s, step, p.generation) && p.key in Batch(s, step);
            && (p in t.points <==> p in s.points || written)
            && (p in t.points ==> t.points[p] == if written then PhaseOf(s, step.worker).commit else s.points[p])
  {
    if step.Flush? {
      FlushStores(s, step.worker, step.size, p);
    } else if step.DropSuperseded? || step.DropDiscarded? {
      assert PhaseOk(s, step.worker, PhaseOf(s, step.worker));
    }
  }

  /** Generation `g` is the clone of the run that flipped to it: its chunks, all of them at its commit. */
  ghost predicate HasExactly(s: State, g: nat, keys: set<ChunkKey>) {
    forall k :: Point(g, k) in s.points <==> k in keys
  }

  ghost predicate AllAt(s: State, g: nat, keys: set<ChunkKey>, commit: Commit) {
    forall k :: k in keys ==> Point(g, k) in s.points && s.points[Point(g, k)] == commit
  }

  ghost predicate LastWrittenAt(steps: seq<Step>, g: nat, keys: set<ChunkKey>, commit: Commit)
    requires Legal(INITIAL, steps)
  {
    forall k :: k in keys ==> LastWriter(INITIAL, steps, g, k) == Some(commit)
  }

  /** The active generation has exactly the chunks of the run that flipped to it, if and only if no run
      wrote it any other chunk; and has them at that run's commit, if and only if no run overwrote one from
      another commit since. */
  lemma ActiveGenerationIsTheCloneIff(steps: seq<Step>)
    requires Legal(INITIAL, steps) && Live(After(INITIAL, steps)) && After(INITIAL, steps).row.active > 0
    ensures var t := After(INITIAL, steps);
            && (HasExactly(t, t.row.active, t.flipKeys) <==> WrittenIn(INITIAL, steps, t.row.active) <= t.flipKeys)
            && (AllAt(t, t.row.active, t.flipKeys, t.flipCommit) <==>
               LastWrittenAt(steps, t.row.active, t.flipKeys, t.flipCommit))
  {
    var t := After(INITIAL, steps);
    var g := t.row.active;
    EveryRunIsSafe(INITIAL, steps);
    forall k
      ensures Point(g, k) in t.points <==> k in WrittenIn(INITIAL, steps, g)
      ensures k in t.flipKeys ==>
              Point(g, k) in t.points && Some(t.points[Point(g, k)]) == LastWriter(INITIAL, steps, g, k)
    {
      GenerationHoldsItsWrites(INITIAL, steps, g, k);
    }
  }

  // ---------------------------------------------------------------- reachable states and two findings

  ghost predicate Reachable(s: State) {
    exists steps :: Legal(INITIAL, steps) && After(INITIAL, steps) == s
  }

  lemma {:induction false} Extend(s: State, steps: seq<Step>, step: Step)
    requires Legal(s, steps) && Enabled(After(s, steps), step)
    ensures Legal(s, steps + [step]) && After(s, steps + [step]) == Next(After(s, steps), step)
    decreases |steps|
  {
    if steps == [] {
      assert steps + [step] == [step];
      assert Legal(Next(s, step), [step][1..]);
    } else {
      Extend(Next(s, steps[0]), steps[1..], step);
      assert (steps + [step])[1..] == steps[1..] + [step];
    }
  }

  lemma Reach(s: State, step: Step) returns (t: State)
    requires Reachable(s) && Enabled(s, step)
    ensures t == Next(s, step) && Reachable(t)
  {
    var steps :| Legal(INITIAL, steps) && After(INITIAL, steps) == s;
    Extend(INITIAL, steps, step);
    t := Next(s, step);
  }

  lemma InitialIsReachable()
    ensures Reachable(INITIAL)
  {
    assert Legal(INITIAL, []) && After(INITIAL, []) == INITIAL;
  }

  lemma ReachableIsSafe(s: State)
    requires Reachable(s)
    ensures Inv(s)
  {
    var steps :| Legal(INITIAL, steps) && After(INITIAL, steps) == s;
    RunKeepsInv(INITIAL, steps);
  }

  lemma StoredOne(points: map<Point, Commit>, generation: nat, key: ChunkKey, commit: Commit)
    ensures Stored(points, generation, [key], commit) == points[Point(generation, key) := commit]
  {
  }

  lemma FlushOne(s: State, w: WorkerId, job: JobId, captured: nat, first: ChunkKey, rest: seq<ChunkKey>, commit: Commit)
    requires PhaseOf(s, w) == Indexing(job, captured, [first] + rest, {}, commit)
    ensures Enabled(s, Flush(w, 1))
    ensures Next(s, Flush(w, 1)) == s.(phases := s.phases[w := Indexing(job, captured, rest, {first}, commit)],
                                       points := s.points[Point(captured + 1, first) := commit])
  {
    var pending := [first] + rest;
    assert pending[..1] == [first] && pending[1..] == rest;
    assert {} + (set k | k in [first]) == {first};
    StoredOne(s.points, captured + 1, first, commit);
  }

  lemma ReachFlush(s: State, w: WorkerId, job: JobId, captured: nat, first: ChunkKey, rest: seq<ChunkKey>,
      commit: Commit)
    returns (t: State)
    requires Reachable(s) && PhaseOf(s, w) == Indexing(job, captured, [first] + rest, {}, commit)
    ensures Reachable(t)
    ensures t == s.(phases := s.phases[w := Indexing(job, captured, rest, {first}, commit)],
                    points := s.points[Point(captured + 1, first) := commit])
  {
    FlushOne(s, w, job, captured, first, rest, commit);
    t := Reach(s, Flush(w, 1));
  }

  /** A worker claims a fresh project and writes the first chunk of its clone. */
  lemma FirstChunkWritten(first: ChunkKey, rest: seq<ChunkKey>) returns (s: State)
    ensures Reachable(s)
    ensures s == State(0, Columns(false, Some(0), Some(LEASE_SECONDS), Some(0), 0), map[Point(1, first) := "c1"],
                       map[0 := Indexing(0, 0, rest, {first}, "c1")], {}, "", NoDelete)
  {
    InitialIsReachable();
    s := Reach(INITIAL, Claim(0, 0));
    s := Reach(s, Get(0));
    s := Reach(s, Capture(0, [first] + rest, "c1"));
    s := ReachFlush(s, 0, 0, 0, first, rest, "c1");
  }

  lemma FirstAttemptFailed(first: ChunkKey) returns (s: State)
    ensures Reachable(s)
    ensures s == State(61, Columns(false, Some(0), Some(60), Some(0), 0), map[Point(1, first) := "c1"],
                       map[0 := Idle], {}, "", NoDelete)
  {
    s := FirstChunkWritten(first, []);
    s := Reach(s, RetryableFailure(0));
    s := Reach(s, Reschedule(0, 60));
    s := Reach(s, Tick(61));
  }

  lemma SecondAttemptWritten(gone: ChunkKey, kept: ChunkKey) returns (s: State)
    ensures Reachable(s) && PhaseOf(s, 0) == Indexing(1, 0, [], {kept}, "c2") && s.deletion.NoDelete?
    ensures s.row == Columns(false, Some(0), Some(61 + LEASE_SECONDS), Some(1), 0) && Point(1, gone) in s.points
  {
    s := FirstAttemptFailed(gone);
    s := Reach(s, Claim(0, 1));
    s := Reach(s, Get(0));
    s := Reach(s, Capture(0, [kept], "c2"));
    assert [kept] == [kept] + [];
    s := ReachFlush(s, 0, 1, 0, kept, [], "c2");
  }

  /** Without agreement the retry's overwrite is not enough: a chunk only the failed attempt had stays
      in the active generation, from another commit. */
  lemma RetryAtAnotherCommitLeavesStaleChunks() returns (s: State, stale: Point)
    ensures Reachable(s) && !s.row.deleted
    ensures stale in s.points && stale.generation == s.row.active && stale.key !in s.flipKeys
  {
    var gone, kept := ChunkKey("gone.py", 0), ChunkKey("kept.py", 0);
    s := SecondAttemptWritten(gone, kept);
    s := Reach(s, Release(0));
    stale := Point(1, gone);
  }

  // ---------------------------------------------------------------- what a delete leaves behind

  /** No run is at work on the deleted project and none can start, so nothing will touch the store. */
  ghost predicate Quiet(s: State) {
    s.row.deleted && s.deletion.NoDelete?
    && forall w :: w in s.phases ==> s.phases[w].Idle? || s.phases[w].Failing? || s.phases[w].Claimed?
  }

  ghost predicate HasPoints(s: State, g: nat) {
    exists k :: Point(g, k) in s.points
  }

  /** The delete, a run discarding its own generation, or a sweep of the superseded one. */
  predicate Drops(s: State, step: Step, g: nat) {
    || step.DropProject?
    || (step.DropDiscarded? && PhaseOf(s, step.worker).Discarding? && PhaseOf(s, step.worker).generation == g)
    || (step.DropSuperseded? && PhaseOf(s, step.worker).Sweeping? && PhaseOf(s, step.worker).superseded == g)
  }

  ghost predicate DroppedIn(s: State, steps: seq<Step>, g: nat)
    requires Legal(s, steps)
    decreases |steps|
  {
    steps != [] && (Drops(s, steps[0], g) || DroppedIn(Next(s, steps[0]), steps[1..], g))
  }

  /** Some run wrote a batch of generation `g` that nothing dropped afterwards. */
  ghost predicate LeftBehind(s: State, steps: seq<Step>, g: nat)
    requires Legal(s, steps)
    decreases |steps|
  {
    && steps != []
    && ((Writes(s, steps[0], g) && !DroppedIn(Next(s, steps[0]), steps[1..], g))
        || LeftBehind(Next(s, steps[0]), steps[1..], g))
  }

  lemma StepMovesGeneration(s: State, step: Step, g: nat)
    requires Enabled(s, step)
    ensures HasPoints(Next(s, step), g) <==> Writes(s, step, g) || (HasPoints(s, g) && !Drops(s, step, g))
  {
    var t := Next(s, step);
    if step.Flush? {
      forall k ensures Point(g, k) in t.points <==>
          Point(g, k) in s.points || (Writes(s, step, g) && k in Batch(s, step)) {
        FlushStores(s, step.worker, step.size, Point(g, k));
      }
      var first := Batch(s, step)[0];
      assert first in Batch(s, step);
      assert Writes(s, step, g) ==> Point(g, first) in t.points;
    } else if HasPoints(s, g) && !Drops(s, step, g) {
      var k :| Point(g, k) in s.points;
      assert Point(g, k) in t.points;
    }
  }

  lemma {:induction false} PointsStayIff(s: State, steps: seq<Step>, g: nat)
    requires Legal(s, steps)
    ensures HasPoints(After(s, steps), g) <==> LeftBehind(s, steps, g) || (HasPoints(s, g) && !DroppedIn(s, steps, g))
    decreases |steps|
  {
    if steps != [] {
      StepMovesGeneration(s, steps[0], g);
      PointsStayIff(Next(s, steps[0]), steps[1..], g);
    }
  }

  lemma EmptyIffNoGeneration(s: State)
    ensures s.points == map[] <==> forall g: nat :: !HasPoints(s, g)
  {
    if s.points != map[] {
      var p :| p in s.points;
      assert Point(p.generation, p.key) in s.points;
      assert HasPoints(s, p.generation);
    }
  }

  /** A deleted project whose workers are done has points left if and only if some run wrote a batch that
      neither the delete nor a discard (nor a sweep, before) dropped afterwards; and they are left for
      good. */
  lemma DeletedProjectIsCleanIff(steps: seq<Step>, later: seq<Step>)
    requires Legal(INITIAL, steps) && Quiet(After(INITIAL, steps)) && Legal(After(INITIAL, steps), later)
    ensures var t := After(After(INITIAL, steps), later);
            && (forall g: nat :: HasPoints(t, g) <==> LeftBehind(INITIAL, steps, g))
            && (t.points == map[] <==> forall g: nat :: !LeftBehind(INITIAL, steps, g))
  {
    var s := After(INITIAL, steps);
    var t := After(s, later);
    LeakIsPermanent(s, later);
    EmptyIffNoGeneration(t);
    forall g: nat ensures HasPoints(t, g) <==> LeftBehind(INITIAL, steps, g) {
      PointsStayIff(INITIAL, steps, g);
      assert HasPoints(t, g) <==> HasPoints(s, g);
    }
  }

  /** What is left then is left for good. */
  lemma {:induction false} LeakIsPermanent(s: State, steps: seq<Step>)
    requires Quiet(s) && Legal(s, steps)
    ensures Quiet(After(s, steps)) && After(s, steps).points == s.points
    decreases |steps|
  {
    if steps != [] {
      assert Quiet(Next(s, steps[0])) && Next(s, steps[0]).points == s.points;
      LeakIsPermanent(Next(s, steps[0]), steps[1..]);
    }
  }

  /** A delete nobody disturbs empties the store if and only if the pointer was ever moved; before the
      first flip it leaves every point where it is. */
  lemma UndisturbedDeleteIff(s: State) returns (t: State)
    requires Reachable(s) && !s.row.deleted && s.deletion.NoDelete?
    ensures Reachable(t)
            && t == s.(row := s.row.(deleted := true), points := if s.row.active != 0 then map[] else s.points)
  {
    t := Reach(s, AskDelete);
    t := Reach(t, LockRow);
    if s.row.active != 0 {
      t := Reach(t, DropProject);
    }
    t := Reach(t, CommitDelete);
  }

  /** A delete that gives up because the store is unreachable leaves everything as it was. */
  lemma AbortedDeleteChangesNothing(s: State) returns (t: State)
    requires Reachable(s) && !s.row.deleted && s.deletion.NoDelete?
    ensures Reachable(t) && t == s
  {
    t := Reach(s, AskDelete);
    t := Reach(t, LockRow);
    t := Reach(t, AbortDelete);
  }

  /** A first index that fails terminally while it holds the lease discards nothing, and the delete that
      follows does not call the store. */
  lemma FailedFirstIndexOutlivesDelete(first: ChunkKey, rest: seq<ChunkKey>) returns (s: State)
    ensures Reachable(s) && Quiet(s) && s.points == map[Point(1, first) := "c1"]
  {
    s := FirstChunkWritten(first, rest);
    s := Reach(s, TerminalFailure(0));
    s := UndisturbedDeleteIff(s);
  }

  /** The same for a run that fails retryably after the delete: its retry is refused by the claim. */
  lemma RetryableFailureAfterDeleteLeaks(first: ChunkKey, rest: seq<ChunkKey>) returns (s: State)
    ensures Reachable(s) && Quiet(s) && s.points == map[Point(1, first) := "c1"]
  {
    s := FirstChunkWritten(first, rest);
    s := UndisturbedDeleteIff(s);
    s := Reach(s, RetryableFailure(0));
    s := Reach(s, Reschedule(0, 60));
  }

  /** A first flip between the delete's read of the row and its lock: the whole active generation stays. */
  lemma FlipOvertakesDelete(first: ChunkKey) returns (s: State)
    ensures Reachable(s) && Quiet(s) && s.row.active == 1 && s.points == map[Point(1, first) := "c1"]
            && s.flipKeys == {first}
  {
    s := FirstChunkWritten(first, []);
    s := Reach(s, AskDelete);
    s := Reach(s, Release(0));
    s := Reach(s, LockRow);
    s := Reach(s, CommitDelete);
  }
}
