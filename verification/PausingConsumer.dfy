/** The polling loop that outlives `max.poll.interval.ms` (`queue/consumer.py`): pause every partition, run
    the job, keep polling, commit one offset, resume. The broker may rebalance during any poll or commit. */
module PausingConsumer {
  import opened Prelude

  type Partition = nat

  datatype Record = Record(partition: Partition, offset: nat)

  /** `committed` is the group's offset per partition. Two histories ride along: the records some member
      ran or found unparseable, and those a keep-alive poll fetched and threw away. */
  datatype Client = Client(
    assignment: set<Partition>,
    paused: set<Partition>,
    busy: bool,
    position: map<Partition, nat>,
    committed: map<Partition, nat>,
    attempted: set<Record>,
    discarded: set<Record>)

  /** Another member, owning a partition we do not, attempts every record below `upto` and commits. */
  datatype Foreign = Foreign(partition: Partition, upto: nat, commit: nat)

  /** What the broker does during one await: other members' progress, then possibly a rebalance; and
      which partition it would serve a record from. */
  datatype Turn = Turn(others: seq<Foreign>, rebalance: Option<set<Partition>>, offered: Option<Partition>)

  function At(m: map<Partition, nat>, p: Partition): nat {
    if p in m then m[p] else 0
  }

  function Below(p: Partition, n: nat): set<Record> {
    set o: nat | o < n :: Record(p, o)
  }

  function Progressed(c: Client, f: Foreign): Client {
    if f.partition in c.assignment || f.commit > f.upto then c
    else c.(attempted := c.attempted + Below(f.partition, f.upto), committed := c.committed[f.partition := f.commit])
  }

  function AllProgressed(c: Client, others: seq<Foreign>): Client
    decreases |others|
  {
    if others == [] then c else AllProgressed(Progressed(c, others[0]), others[1..])
  }

  /** Per-partition state is rebuilt un-paused at the committed offset; then `on_partitions_assigned`
      pauses what arrived if a job is running. */
  function Rebalanced(c: Client, now: set<Partition>): Client {
    c.(assignment := now, position := map p | p in now :: At(c.committed, p), paused := if c.busy then now else {})
  }

  function Awaited(c: Client, turn: Turn): Client {
    var d := AllProgressed(c, turn.others);
    if turn.rebalance.Some? then Rebalanced(d, turn.rebalance.value) else d
  }

  /** The record one `getmany` hands over: never from a paused partition. */
  function Offer(c: Client, offered: Option<Partition>): Option<Record> {
    if offered.Some? && offered.value in c.assignment - c.paused
    then Some(Record(offered.value, At(c.position, offered.value))) else None
  }

  function Fetched(c: Client, r: Record): Client {
    c.(position := c.position[r.partition := r.offset + 1])
  }

  /** `_commit`: refused when the partition is no longer ours. */
  function Committed(c: Client, r: Record): Client {
    if r.partition in c.assignment then c.(committed := c.committed[r.partition := r.offset + 1]) else c
  }

  function PausedAll(c: Client): Client {
    c.(paused := c.paused + c.assignment)
  }

  /** One turn of the keep-alive loop. */
  function KeptAlive(c: Client, turn: Turn): Client {
    var d := Awaited(PausedAll(c), turn);
    match Offer(d, turn.offered)
    case None => d
    case Some(r) => Fetched(d, r).(discarded := d.discarded + {r})
  }

  function AllKeptAlive(c: Client, turns: seq<Turn>): Client
    decreases |turns|
  {
    if turns == [] then c else AllKeptAlive(KeptAlive(c, turns[0]), turns[1..])
  }

  /** What happens to one record: whether it decodes, the turns its job is waited for, whether the job (or a
      keep-alive poll) then raises, the turn the commit waits for, and whether the commit raises what `_commit`
      does not catch. */
  datatype Job = Job(parseable: bool, turns: seq<Turn>, raises: bool, atCommit: Turn, commitRaises: bool)

  /** Waiting for the commit, and the commit. */
  function Settled(c: Client, r: Record, job: Job): Client {
    var d := Awaited(c, job.atCommit);
    if job.commitRaises then d else Committed(d, r)
  }

  /** `_process`. */
  function Processed(c: Client, r: Record, job: Job): Client {
    var tried := c.(attempted := c.attempted + {r});
    if !job.parseable then Settled(tried, r, job)
    else
      var ran := AllKeptAlive(PausedAll(tried).(busy := true), job.turns);
      var ended := if job.raises then ran else Settled(ran, r, job);
      ended.(busy := false, paused := ended.paused - c.assignment)
  }

  /** One turn of `run`: at most one record is polled, then processed. */
  datatype Iteration = Iteration(poll: Turn, job: Job)

  function Iterated(c: Client, i: Iteration): Client {
    var d := Awaited(c, i.poll);
    match Offer(d, i.poll.offered)
    case None => d
    case Some(r) => Processed(Fetched(d, r), r, i.job)
  }

  function Ran(c: Client, script: seq<Iteration>): Client
    decreases |script|
  {
    if script == [] then c else Ran(Iterated(c, script[0]), script[1..])
  }

  // ---------------------------------------------------------------- what every await keeps

  /** No offset is committed, and none is read past, over a record nobody attempted. */
  ghost predicate OffsetsOk(c: Client) {
    && (forall p, o: nat :: p in c.committed && o < c.committed[p] ==> Record(p, o) in c.attempted)
    && (forall p, o: nat :: p in c.position && o < c.position[p] ==> Record(p, o) in c.attempted)
    && c.position.Keys == c.assignment
    && c.paused <= c.assignment
  }

  lemma {:induction false} OthersKeepOffsets(c: Client, others: seq<Foreign>)
    requires OffsetsOk(c)
    ensures var d := AllProgressed(c, others);
            OffsetsOk(d) && d == c.(attempted := d.attempted, committed := d.committed) && c.attempted <= d.attempted
    decreases |others|
  {
    if others != [] {
      var f := others[0];
      forall o: nat | o < f.upto ensures Record(f.partition, o) in Below(f.partition, f.upto) { }
      OthersKeepOffsets(Progressed(c, f), others[1..]);
    }
  }

  /** Another member's progress on a partition of its own is seen here, and none on ours. */
  lemma OthersProgress(c: Client, f: Foreign)
    requires f.commit <= f.upto
    ensures var d := Awaited(c, Turn([f], None, None));
            if f.partition in c.assignment then d == c
            else At(d.committed, f.partition) == f.commit
                 && forall o: nat :: o < f.upto ==> Record(f.partition, o) in d.attempted
  {
    assert [f][1..] == [];
    var p := Progressed(c, f);
    assert AllProgressed(p, []) == p;
    forall o: nat | o < f.upto ensures Record(f.partition, o) in Below(f.partition, f.upto) {
    }
  }

  lemma AwaitKeepsOffsets(c: Client, turn: Turn)
    requires OffsetsOk(c)
    ensures var d := Awaited(c, turn);
            OffsetsOk(d) && d.busy == c.busy && d.discarded == c.discarded && c.attempted <= d.attempted
            && (c.busy && c.paused == c.assignment ==> d.paused == d.assignment)
  {
    OthersKeepOffsets(c, turn.others);
  }

  /** While a job is in flight every assigned partition is paused, through any rebalances, so no
      keep-alive poll throws a record away. */
  lemma {:induction false} KeepAliveDiscardsNothing(c: Client, turns: seq<Turn>)
    requires OffsetsOk(c) && c.busy && c.paused == c.assignment
    ensures var d := AllKeptAlive(c, turns);
            && OffsetsOk(d) && d.busy && d.paused == d.assignment
            && d.discarded == c.discarded && c.attempted <= d.attempted
    decreases |turns|
  {
    if turns != [] {
      assert PausedAll(c) == c;
      AwaitKeepsOffsets(c, turns[0]);
      KeepAliveDiscardsNothing(KeptAlive(c, turns[0]), turns[1..]);
    }
  }

  /** A record as `getmany` hands it over: the position is just past it. */
  ghost predicate InHand(c: Client, r: Record) {
    && !c.busy
    && OffsetsOk(c.(attempted := c.attempted + {r}))
    && r.partition in c.assignment && c.position[r.partition] == r.offset + 1
  }

  lemma CommitKeepsOffsets(c: Client, r: Record)
    requires OffsetsOk(c) && forall o: nat :: o <= r.offset ==> Record(r.partition, o) in c.attempted
    ensures OffsetsOk(Committed(c, r))
  {
  }

  /** One record, whatever happens meanwhile: offsets stay justified, nothing is thrown away, and the
      partitions left paused are exactly those gained while the job ran. */
  lemma ProcessingResumesWhatItHeld(c: Client, r: Record, job: Job)
    requires InHand(c, r)
    ensures var d := Processed(c, r, job);
            && OffsetsOk(d) && !d.busy && d.discarded == c.discarded && r in d.attempted && c.attempted <= d.attempted
            && (job.parseable ==> d.paused == d.assignment - c.assignment)
  {
    var tried := c.(attempted := c.attempted + {r});
    assert forall o: nat :: o <= r.offset ==> Record(r.partition, o) in tried.attempted;
    if !job.parseable {
      AwaitKeepsOffsets(tried, job.atCommit);
      CommitKeepsOffsets(Awaited(tried, job.atCommit), r);
    } else {
      var start := PausedAll(tried).(busy := true);
      KeepAliveDiscardsNothing(start, job.turns);
      var ran := AllKeptAlive(start, job.turns);
      if !job.raises {
        AwaitKeepsOffsets(ran, job.atCommit);
        CommitKeepsOffsets(Awaited(ran, job.atCommit), r);
      }
    }
  }

  lemma FetchPutsInHand(c: Client, offered: Option<Partition>)
    requires OffsetsOk(c) && !c.busy && Offer(c, offered).Some?
    ensures InHand(Fetched(c, Offer(c, offered).value), Offer(c, offered).value)
  {
  }

  /** Over any run of the loop. */
  lemma {:induction false} EveryRunCommitsOnlyWhatWasAttempted(c: Client, script: seq<Iteration>)
    requires OffsetsOk(c) && !c.busy
    ensures var d := Ran(c, script);
            && OffsetsOk(d) && !d.busy && d.discarded == c.discarded
            && forall p, o: nat :: p in d.committed && o < d.committed[p] ==> Record(p, o) in d.attempted
    decreases |script|
  {
    if script != [] {
      var i := script[0];
      AwaitKeepsOffsets(c, i.poll);
      var polled := Awaited(c, i.poll);
      if Offer(polled, i.poll.offered).Some? {
        FetchPutsInHand(polled, i.poll.offered);
        var r := Offer(polled, i.poll.offered).value;
        ProcessingResumesWhatItHeld(Fetched(polled, r), r, i.job);
      }
      EveryRunCommitsOnlyWhatWasAttempted(Iterated(c, i), script[1..]);
    }
  }

  // ---------------------------------------------------------------- two findings

  ghost predicate NoRebalance(script: seq<Iteration>) {
    forall i :: 0 <= i < |script| ==> script[i].poll.rebalance.None?
  }

  /** A partition gained mid-job stays paused; when nothing else is assigned, the loop fetches nothing
      until the group rebalances again. */
  lemma {:induction false} GainedPartitionsStarve(c: Client, script: seq<Iteration>)
    requires OffsetsOk(c) && c.paused == c.assignment && NoRebalance(script)
    ensures Ran(c, script).position == c.position && Ran(c, script).paused == Ran(c, script).assignment
    decreases |script|
  {
    if script != [] {
      OthersKeepOffsets(c, script[0].poll.others);
      GainedPartitionsStarve(Iterated(c, script[0]), script[1..]);
    }
  }

  predicate Still(turn: Turn) {
    turn.rebalance.None?
  }

  /** No rebalance falls into the iteration, its job or its commit. */
  ghost predicate StillThroughout(i: Iteration) {
    Still(i.poll) && Still(i.job.atCommit) && forall n :: 0 <= n < |i.job.turns| ==> Still(i.job.turns[n])
  }

  ghost predicate AllStill(script: seq<Iteration>) {
    forall n :: 0 <= n < |script| ==> StillThroughout(script[n])
  }

  /** The offset is moved past the record. */
  predicate Commits(job: Job) {
    !(job.parseable && job.raises) && !job.commitRaises
  }

  function HandedOver(c: Client, i: Iteration): Option<Record> {
    Offer(Awaited(c, i.poll), i.poll.offered)
  }

  predicate Takes(c: Client, i: Iteration, p: Partition) {
    HandedOver(c, i).Some? && HandedOver(c, i).value.partition == p
  }

  /** What only another rebalance could change. */
  ghost predicate SamePlace(c: Client, d: Client) {
    && d.assignment == c.assignment && d.position == c.position
    && forall p :: p in c.assignment ==> At(d.committed, p) == At(c.committed, p)
  }

  lemma {:induction false} OthersStayOut(c: Client, others: seq<Foreign>)
    ensures SamePlace(c, AllProgressed(c, others)) && AllProgressed(c, others).paused == c.paused
            && AllProgressed(c, others).busy == c.busy
    decreases |others|
  {
    if others != [] {
      OthersStayOut(Progressed(c, others[0]), others[1..]);
    }
  }

  lemma {:induction false} JobStaysInPlace(c: Client, turns: seq<Turn>)
    requires c.paused == c.assignment && forall n :: 0 <= n < |turns| ==> Still(turns[n])
    ensures SamePlace(c, AllKeptAlive(c, turns)) && AllKeptAlive(c, turns).paused == c.paused
    decreases |turns|
  {
    if turns != [] {
      assert Still(turns[0]) && PausedAll(c) == c;
      OthersStayOut(c, turns[0].others);
      JobStaysInPlace(KeptAlive(c, turns[0]), turns[1..]);
    }
  }

  /** One iteration without a rebalance moves the position past the record it takes, and the offset too
      exactly if neither the job nor the commit raised. */
  lemma IterationMovesOnePartition(c: Client, i: Iteration, p: Partition)
    requires OffsetsOk(c) && !c.busy && StillThroughout(i) && p in c.assignment
    ensures var d := Iterated(c, i);
            && OffsetsOk(d) && !d.busy && d.assignment == c.assignment
            && d.position[p] == c.position[p] + (if Takes(c, i, p) then 1 else 0)
            && (Takes(c, i, p) ==> HandedOver(c, i) == Some(Record(p, c.position[p])))
            && At(d.committed, p) == if Takes(c, i, p) && Commits(i.job) then c.position[p] + 1 else At(c.committed, p)
  {
    var polled := Awaited(c, i.poll);
    AwaitKeepsOffsets(c, i.poll);
    OthersStayOut(c, i.poll.others);
    if HandedOver(c, i).Some? {
      var r := HandedOver(c, i).value;
      var fetched := Fetched(polled, r);
      FetchPutsInHand(polled, i.poll.offered);
      ProcessingResumesWhatItHeld(fetched, r, i.job);
      var tried := fetched.(attempted := fetched.attempted + {r});
      if !i.job.parseable {
        OthersStayOut(tried, i.job.atCommit.others);
      } else {
        var start := PausedAll(tried).(busy := true);
        JobStaysInPlace(start, i.job.turns);
        OthersStayOut(AllKeptAlive(start, i.job.turns), i.job.atCommit.others);
      }
    }
  }

  /** A later record of the partition is taken up and its offset committed. */
  ghost predicate CommitsLater(c: Client, script: seq<Iteration>, p: Partition)
    decreases |script|
  {
    && script != []
    && ((Takes(c, script[0], p) && Commits(script[0].job)) || CommitsLater(Iterated(c, script[0]), script[1..], p))
  }

  ghost predicate IsHandedOver(c: Client, script: seq<Iteration>, r: Record)
    decreases |script|
  {
    && script != []
    && (HandedOver(c, script[0]) == Some(r) || IsHandedOver(Iterated(c, script[0]), script[1..], r))
  }

  /** A record that was taken up and not committed, because its job or the commit raised: until a rebalance
      no poll returns it, and it is committed over if and only if a later record of its partition is
      committed. */
  lemma {:induction false} RaisedRecordIsSkippedIff(c: Client, script: seq<Iteration>, r: Record)
    requires OffsetsOk(c) && !c.busy && AllStill(script)
    requires r.partition in c.assignment && At(c.committed, r.partition) <= r.offset < c.position[r.partition]
    ensures var d := Ran(c, script);
            && !IsHandedOver(c, script, r)
            && (At(d.committed, r.partition) > r.offset <==> CommitsLater(c, script, r.partition))
    decreases |script|
  {
    if script != [] {
      var d := Iterated(c, script[0]);
      assert StillThroughout(script[0]);
      IterationMovesOnePartition(c, script[0], r.partition);
      if At(d.committed, r.partition) <= r.offset {
        RaisedRecordIsSkippedIff(d, script[1..], r);
      } else {
        CommittedStaysPast(d, script[1..], r);
      }
    }
  }

  lemma {:induction false} CommittedStaysPast(c: Client, script: seq<Iteration>, r: Record)
    requires OffsetsOk(c) && !c.busy && AllStill(script)
    requires r.partition in c.assignment && r.offset < At(c.committed, r.partition)
             && r.offset < c.position[r.partition]
    ensures !IsHandedOver(c, script, r) && At(Ran(c, script).committed, r.partition) > r.offset
    decreases |script|
  {
    if script != [] {
      assert StillThroughout(script[0]);
      IterationMovesOnePartition(c, script[0], r.partition);
      CommittedStaysPast(Iterated(c, script[0]), script[1..], r);
    }
  }

  predicate RunsJob(c: Client, i: Iteration) {
    HandedOver(c, i).Some? && i.job.parseable
  }

  ghost predicate SomeJobRuns(c: Client, script: seq<Iteration>)
    decreases |script|
  {
    script != [] && (RunsJob(c, script[0]) || SomeJobRuns(Iterated(c, script[0]), script[1..]))
  }

  lemma JobUnpausesAll(c: Client, i: Iteration)
    requires OffsetsOk(c) && !c.busy && StillThroughout(i)
    ensures var d := Iterated(c, i);
            && OffsetsOk(d) && !d.busy && d.assignment == c.assignment
            && d.paused == if RunsJob(c, i) then {} else c.paused
  {
    var polled := Awaited(c, i.poll);
    AwaitKeepsOffsets(c, i.poll);
    OthersStayOut(c, i.poll.others);
    if HandedOver(c, i).Some? {
      var r := HandedOver(c, i).value;
      var fetched := Fetched(polled, r);
      FetchPutsInHand(polled, i.poll.offered);
      ProcessingResumesWhatItHeld(fetched, r, i.job);
      var tried := fetched.(attempted := fetched.attempted + {r});
      if !i.job.parseable {
        OthersStayOut(tried, i.job.atCommit.others);
      } else {
        var start := PausedAll(tried).(busy := true);
        JobStaysInPlace(start, i.job.turns);
        OthersStayOut(AllKeptAlive(start, i.job.turns), i.job.atCommit.others);
      }
    }
  }

  /** A partition gained mid-job stays paused, and none of its records is taken up, until a rebalance or
      exactly until some other partition's record runs as the next job. */
  lemma {:induction false} GainedPartitionStarvesIff(c: Client, script: seq<Iteration>, p: Partition)
    requires OffsetsOk(c) && !c.busy && AllStill(script) && p in c.paused
    ensures p in Ran(c, script).paused <==> !SomeJobRuns(c, script)
    ensures !SomeJobRuns(c, script) ==> forall o: nat :: !IsHandedOver(c, script, Record(p, o))
    decreases |script|
  {
    if script != [] {
      assert StillThroughout(script[0]);
      JobUnpausesAll(c, script[0]);
      OthersStayOut(c, script[0].poll.others);
      if RunsJob(c, script[0]) {
        NothingPausesAgain(Iterated(c, script[0]), script[1..]);
      } else {
        GainedPartitionStarvesIff(Iterated(c, script[0]), script[1..], p);
      }
    }
  }

  /** The assignment once these turns have passed. */
  function AssignedAfter(assignment: set<Partition>, turns: seq<Turn>): set<Partition> {
    if turns == [] then assignment
    else if turns[|turns| - 1].rebalance.Some? then turns[|turns| - 1].rebalance.value
    else AssignedAfter(assignment, turns[..|turns| - 1])
  }

  /** The iteration's poll hands a record over. */
  predicate Serves(c: Client, i: Iteration) {
    && i.poll.offered.Some?
    && if i.poll.rebalance.Some? then i.poll.offered.value in i.poll.rebalance.value
       else i.poll.offered.value in c.assignment && i.poll.offered.value !in c.paused
  }

  /** The turns a job lasts, its commit included. */
  function JobTurns(job: Job): seq<Turn> {
    job.turns + (if job.raises then [] else [job.atCommit])
  }

  /** The iteration runs a job during which a rebalance brought the partition. */
  predicate GainedInJob(c: Client, i: Iteration, p: Partition) {
    && Serves(c, i) && i.job.parseable
    && var before := AssignedAfter(c.assignment, [i.poll]);
       p !in before && p in AssignedAfter(before, JobTurns(i.job))
  }

  /** The iteration meets a rebalance with no job in flight, or runs a job to its end. */
  predicate Clears(c: Client, i: Iteration) {
    i.poll.rebalance.Some? || (Serves(c, i) && (i.job.parseable || i.job.atCommit.rebalance.Some?))
  }

  lemma AwaitedAssigns(c: Client, turn: Turn)
    ensures Awaited(c, turn).assignment == AssignedAfter(c.assignment, [turn])
    ensures turn.rebalance.None? ==> Awaited(c, turn).paused == c.paused
    ensures turn.rebalance.Some? ==> Awaited(c, turn).paused == if c.busy then turn.rebalance.value else {}
  {
    OthersStayOut(c, turn.others);
    assert [turn][..0] == [];
  }

  lemma {:induction false} KeptAliveAssigns(c: Client, turns: seq<Turn>)
    ensures AllKeptAlive(c, turns).assignment == AssignedAfter(c.assignment, turns)
    decreases |turns|
  {
    if turns != [] {
      var before, last := turns[..|turns| - 1], turns[|turns| - 1];
      assert turns == before + [last];
      KeepAliveSnoc(c, before, last);
      KeptAliveAssigns(c, before);
      var d := AllKeptAlive(c, before);
      AwaitedAssigns(PausedAll(d), last);
      assert [last][..0] == [];
    }
  }

  lemma JobAssigns(c: Client, r: Record, job: Job)
    requires InHand(c, r) && job.parseable
    ensures Processed(c, r, job).assignment == AssignedAfter(c.assignment, JobTurns(job))
  {
    var start := PausedAll(c.(attempted := c.attempted + {r})).(busy := true);
    KeptAliveAssigns(start, job.turns);
    if !job.raises {
      AwaitedAssigns(AllKeptAlive(start, job.turns), job.atCommit);
      assert JobTurns(job)[..|job.turns|] == job.turns;
      assert [job.atCommit][..0] == [];
    } else {
      assert JobTurns(job) == job.turns;
    }
  }

  /** One iteration leaves a partition paused if its job gained it, or if it was and nothing cleared it. */
  lemma IterationPauses(c: Client, i: Iteration, p: Partition)
    requires OffsetsOk(c) && !c.busy
    ensures p in Iterated(c, i).paused <==> GainedInJob(c, i, p) || (p in c.paused && !Clears(c, i))
  {
    var polled := Awaited(c, i.poll);
    AwaitKeepsOffsets(c, i.poll);
    AwaitedAssigns(c, i.poll);
    if Serves(c, i) {
      var r := Offer(polled, i.poll.offered).value;
      FetchPutsInHand(polled, i.poll.offered);
      var fetched := Fetched(polled, r);
      ProcessingResumesWhatItHeld(fetched, r, i.job);
      if i.job.parseable {
        JobAssigns(fetched, r, i.job);
      } else {
        AwaitedAssigns(fetched.(attempted := fetched.attempted + {r}), i.job.atCommit);
      }
    }
  }

  const NEW := Client({}, {}, false, map[], map[], {}, {})

  /** Iteration `n` gained the partition during its job, and no later one has cleared it. */
  ghost predicate GainedLast(script: seq<Iteration>, n: nat, p: Partition) {
    && n < |script| && GainedInJob(Ran(NEW, script[..n]), script[n], p)
    && forall m :: n < m < |script| ==> !ClearsAt(script, m)
  }

  ghost predicate ClearsAt(script: seq<Iteration>, m: nat)
    requires m < |script|
  {
    Clears(Ran(NEW, script[..m]), script[m])
  }

  /** Over any run of a new consumer: a partition is paused if and only if it was gained by a rebalance while
      a job was in flight, and since then there was neither a rebalance without one nor another job. */
  lemma {:induction false} PausedIffGainedInJob(script: seq<Iteration>, p: Partition)
    ensures p in Ran(NEW, script).paused <==> exists n: nat :: GainedLast(script, n, p)
    decreases |script|
  {
    if script != [] {
      var last := |script| - 1;
      var b := script[..last];
      assert script == b + [script[last]];
      PausedIffGainedInJob(b, p);
      EveryRunCommitsOnlyWhatWasAttempted(NEW, b);
      RanSnoc(NEW, b, script[last]);
      IterationPauses(Ran(NEW, b), script[last], p);
      assert forall n {:trigger b[..n]} :: 0 <= n <= last ==> b[..n] == script[..n];
      assert forall m :: 0 <= m < last ==> ClearsAt(b, m) == ClearsAt(script, m);
      forall n: nat ensures GainedLast(script, n, p) <==>
          (n == last && GainedInJob(Ran(NEW, b), script[last], p)) || (GainedLast(b, n, p) && !ClearsAt(script, last)) {
        assert n < last ==> b[..n] == script[..n] && b[n] == script[n];
        assert n < last ==> (GainedLast(script, n, p) ==> !ClearsAt(script, last));
      }
      if GainedInJob(Ran(NEW, b), script[last], p) {
        assert GainedLast(script, last, p);
      } else if n: nat :| GainedLast(b, n, p) && !ClearsAt(script, last) {
        assert GainedLast(script, n, p);
      }
    }
  }

  lemma {:induction false} NothingPausesAgain(c: Client, script: seq<Iteration>)
    requires OffsetsOk(c) && !c.busy && AllStill(script) && c.paused == {}
    ensures Ran(c, script).paused == {}
    decreases |script|
  {
    if script != [] {
      assert StillThroughout(script[0]);
      JobUnpausesAll(c, script[0]);
      NothingPausesAgain(Iterated(c, script[0]), script[1..]);
    }
  }

  // ---------------------------------------------------------------- the loop itself

  lemma {:induction false} KeepAliveSnoc(c: Client, turns: seq<Turn>, turn: Turn)
    ensures AllKeptAlive(c, turns + [turn]) == KeptAlive(AllKeptAlive(c, turns), turn)
    decreases |turns|
  {
    if turns == [] {
      assert [turn][1..] == [] && [] + [turn] == [turn];
      assert AllKeptAlive(KeptAlive(c, turn), []) == KeptAlive(c, turn);
    } else {
      assert (turns + [turn])[1..] == turns[1..] + [turn];
      KeepAliveSnoc(KeptAlive(c, turns[0]), turns[1..], turn);
    }
  }

  lemma {:induction false} RanSnoc(c: Client, script: seq<Iteration>, i: Iteration)
    ensures Ran(c, script + [i]) == Iterated(Ran(c, script), i)
    decreases |script|
  {
    if script == [] {
      assert [i][1..] == [] && [] + [i] == [i];
      assert Ran(Iterated(c, i), []) == Iterated(c, i);
    } else {
      assert (script + [i])[1..] == script[1..] + [i];
      RanSnoc(Iterated(c, script[0]), script[1..], i);
    }
  }

  /** The consumer object and the broker state it talks to, each method as the source writes it. */
  class PausingConsumer {
    var assignment: set<Partition>
    var paused: set<Partition>
    var jobInFlight: bool
    var position: map<Partition, nat>
    var committed: map<Partition, nat>
    ghost var attempted: set<Record>
    ghost var discarded: set<Record>

    ghost function View(): Client
      reads this
    {
      Client(assignment, paused, jobInFlight, position, committed, attempted, discarded)
    }

    constructor ()
      ensures View() == NEW && OffsetsOk(View())
    {
      assignment, paused, jobInFlight, position, committed := {}, {}, false, map[], map[];
      attempted, discarded := {}, {};
    }

    /** An await: other members, a rebalance, and `_RepauseOnRebalance` inside it. */
    method Await(turn: Turn)
      modifies this
      ensures View() == Awaited(old(View()), turn)
      // what a rebalance leaves paused: nothing, unless a job is in flight, and then everything
      ensures turn.rebalance.Some? ==>
                && assignment == turn.rebalance.value && paused == (if jobInFlight then assignment else {})
                && position == map p | p in assignment :: if p in committed then committed[p] else 0
      ensures turn.rebalance.None? ==>
                assignment == old(assignment) && paused == old(paused) && position == old(position)
      ensures jobInFlight == old(jobInFlight)
    {
      ghost var before := View();
      for n := 0 to |turn.others|
        invariant AllProgressed(View(), turn.others[n..]) == AllProgressed(before, turn.others)
        invariant assignment == old(assignment) && paused == old(paused) && position == old(position)
        invariant jobInFlight == old(jobInFlight)
      {
        var f := turn.others[n];
        assert turn.others[n..][1..] == turn.others[n + 1..];
        if f.partition !in assignment && f.commit <= f.upto {
          attempted := attempted + Below(f.partition, f.upto);
          committed := committed[f.partition := f.commit];
        }
      }
      if turn.rebalance.Some? {
        assignment := turn.rebalance.value;
        position := map p | p in assignment :: At(committed, p);
        paused := {};
        if assignment != {} && jobInFlight {
          paused := assignment;
        }
      }
    }

    method GetMany(turn: Turn) returns (r: Option<Record>)
      modifies this
      ensures r == Offer(Awaited(old(View()), turn), turn.offered)
      ensures View() == match r
              case None => Awaited(old(View()), turn)
              case Some(x) => Fetched(Awaited(old(View()), turn), x)
      // a partition that is offered, assigned and not paused is read from its position, or right after an
      // idle rebalance from its committed offset; any other poll hands over nothing
      ensures turn.rebalance.Some? && !old(jobInFlight) ==>
                r == if turn.offered.Some? && turn.offered.value in turn.rebalance.value
                     then Some(Record(turn.offered.value, At(committed, turn.offered.value))) else None
      ensures turn.rebalance.Some? && old(jobInFlight) ==> r == None
      ensures turn.rebalance.None? ==>
                r == if turn.offered.Some? && turn.offered.value in old(assignment) - old(paused)
                     then Some(Record(turn.offered.value, At(old(position), turn.offered.value))) else None
      ensures r.Some? ==> r.value.partition in position && position[r.value.partition] == r.value.offset + 1
    {
      Await(turn);
      r := None;
      if turn.offered.Some? && turn.offered.value in assignment && turn.offered.value !in paused {
        var p := turn.offered.value;
        r := Some(Record(p, At(position, p)));
        position := position[p := At(position, p) + 1];
      }
    }

    method PauseAssigned() returns (which: set<Partition>)
      modifies `paused
      ensures View() == PausedAll(old(View())) && which == assignment
    {
      which := assignment;
      paused := paused + which;
    }

    method Resume(which: set<Partition>)
      modifies `paused
      ensures paused == old(paused) - (which * assignment)
    {
      var stillOurs := set p | p in which && p in assignment;
      paused := paused - stillOurs;
    }

    method Commit(r: Record)
      modifies `committed
      ensures View() == Committed(old(View()), r)
      ensures committed == if r.partition in assignment then old(committed)[r.partition := r.offset + 1]
                           else old(committed)
    {
      if r.partition in assignment {
        committed := committed[r.partition := r.offset + 1];
      }
    }

    /** Keep polling until the job is done. */
    method AwaitJob(turns: seq<Turn>)
      modifies this
      ensures View() == AllKeptAlive(old(View()), turns)
    {
      ghost var start := View();
      var n := 0;
      while n < |turns|
        invariant 0 <= n <= |turns| && View() == AllKeptAlive(start, turns[..n])
      {
        KeepAliveSnoc(start, turns[..n], turns[n]);
        assert turns[..n] + [turns[n]] == turns[..n + 1];
        var _ := PauseAssigned();
        var thrownAway := GetMany(turns[n]);
        if thrownAway.Some? {
          discarded := discarded + {thrownAway.value};
        }
        n := n + 1;
      }
      assert turns[..n] == turns;
    }

    /** The commit; `commitRaises` is an exception it does not catch. */
    method Settle(r: Record, job: Job)
      modifies this
      ensures View() == Settled(old(View()), r, job)
    {
      Await(job.atCommit);
      if !job.commitRaises {
        Commit(r);
      }
    }

    method Process(r: Record, job: Job)
      requires InHand(View(), r)
      modifies this
      ensures View() == Processed(old(View()), r, job)
      ensures OffsetsOk(View()) && !jobInFlight && discarded == old(discarded)
      ensures job.parseable ==> paused == assignment - old(assignment)
    {
      ProcessingResumesWhatItHeld(View(), r, job);
      attempted := attempted + {r};
      if !job.parseable {
        Settle(r, job);
        return;
      }
      var held := PauseAssigned();
      jobInFlight := true;
      KeepAliveDiscardsNothing(View(), job.turns);
      AwaitJob(job.turns);
      AwaitKeepsOffsets(View(), job.atCommit);
      if !job.raises {
        Settle(r, job);
      }
      jobInFlight := false;
      assert paused <= assignment;
      Resume(held);
    }

    method Run(script: seq<Iteration>)
      requires OffsetsOk(View()) && !jobInFlight
      modifies this
      ensures View() == Ran(old(View()), script)
      ensures OffsetsOk(View()) && discarded == old(discarded)
    {
      ghost var start := View();
      EveryRunCommitsOnlyWhatWasAttempted(start, script);
      for n := 0 to |script|
        invariant View() == Ran(start, script[..n]) && OffsetsOk(View()) && !jobInFlight
      {
        RanSnoc(start, script[..n], script[n]);
        assert script[..n] + [script[n]] == script[..n + 1];
        AwaitKeepsOffsets(View(), script[n].poll);
        ghost var polled := Awaited(View(), script[n].poll);
        var r := GetMany(script[n].poll);
        if r.Some? {
          FetchPutsInHand(polled, script[n].poll.offered);
          Process(r.value, script[n].job);
        }
      }
      assert script[..|script|] == script;
    }
  }
}
