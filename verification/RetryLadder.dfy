/** What the consumer does with a failed job (`_route_failure` in `queue/consumer.py`, `next_destination` in
    `queue/topics.py`). Times are microseconds on one clock; `not_before_ms` truncates to milliseconds. */
module RetryLadder {
  import opened Prelude
  import opened Lease

  datatype Topic = Ingest | RetryOneMinute | RetryTenMinutes | DeadLetter

  const RETRY_TOPICS: seq<(Topic, nat)> := [(RetryOneMinute, 60), (RetryTenMinutes, 600)]

  datatype Message = Message(project: nat, job: JobId, attempt: nat, notBeforeMs: nat, originalTopic: Topic)

  datatype Outcome = RetryScheduled | DeadLettered

  function NextDestination(attempt: nat, maxAttempts: int): (Topic, nat) {
    if attempt >= maxAttempts - 1 || attempt >= |RETRY_TOPICS| then (DeadLetter, 0) else RETRY_TOPICS[attempt]
  }

  /** One more try for an unclassified error, the whole ladder for a classified one. */
  function Destination(attempt: nat, unexpected: bool, maxAttempts: int): (Topic, nat) {
    if unexpected && attempt >= 1 then (DeadLetter, 0) else NextDestination(attempt, maxAttempts)
  }

  predicate Ends(attempt: nat, unexpected: bool, maxAttempts: int) {
    Destination(attempt, unexpected, maxAttempts).0 == DeadLetter
  }

  /** Which failure ends a chain, exactly; and the others wait a minute after the first try and ten after the
      second. */
  lemma EndsExactly(attempt: nat, unexpected: bool, maxAttempts: int)
    ensures Ends(attempt, unexpected, maxAttempts) <==>
            attempt >= 2 || attempt + 1 >= maxAttempts || (unexpected && attempt >= 1)
    ensures Destination(attempt, unexpected, maxAttempts) ==
            if attempt >= 2 || attempt + 1 >= maxAttempts || (unexpected && attempt >= 1) then (DeadLetter, 0)
            else if attempt == 0 then (RetryOneMinute, 60)
            else (RetryTenMinutes, 600)
  {
  }

  /** How many times a job that keeps failing is tried: `unexpected[i]` says how its `i`-th try failed. */
  function Tries(attempt: nat, unexpected: nat -> bool, maxAttempts: int): nat
    decreases 3 - attempt
  {
    if Ends(attempt, unexpected(attempt), maxAttempts) then 1
    else
      EndsExactly(attempt, unexpected(attempt), maxAttempts);
      1 + Tries(attempt + 1, unexpected, maxAttempts)
  }

  /** Every chain is finite: three tries at most, no more than allowed, and one retry after which an
      unclassified failure is the last. */
  lemma ChainIsFinite(unexpected: nat -> bool, maxAttempts: int)
    ensures 1 <= Tries(0, unexpected, maxAttempts) <= 3
    ensures maxAttempts >= 1 ==> Tries(0, unexpected, maxAttempts) <= maxAttempts
    ensures Tries(0, unexpected, maxAttempts) >= 2 && unexpected(1) ==> Tries(0, unexpected, maxAttempts) == 2
    ensures maxAttempts >= 3 && !unexpected(1) ==> Tries(0, unexpected, maxAttempts) == 3
  {
    EndsExactly(0, unexpected(0), maxAttempts);
    EndsExactly(1, unexpected(1), maxAttempts);
    EndsExactly(2, unexpected(2), maxAttempts);
    assert Tries(2, unexpected, maxAttempts) == 1;
  }

  function ToMs(us: nat): nat {
    us / 1000
  }

  /** The producer's log. */
  class Producer {
    var sent: seq<(Topic, Message)>

    constructor ()
      ensures sent == []
    {
      sent := [];
    }

    method ProduceTo(topic: Topic, message: Message)
      modifies this
      ensures sent == old(sent) + [(topic, message)]
    {
      sent := sent + [(topic, message)];
    }
  }

  /** No two messages carry the same job id. */
  predicate DistinctJobs(sent: seq<(Topic, Message)>) {
    forall i, j :: 0 <= i < j < |sent| ==> sent[i].1.job != sent[j].1.job
  }

  /** What minting an id gives: one that neither the failed message nor any sent before carries. */
  predicate Unused(newId: JobId, message: Message, sent: seq<(Topic, Message)>) {
    newId != message.job && forall i :: 0 <= i < |sent| ==> sent[i].1.job != newId
  }

  /** `_route_failure`: read the clock for the message, write the row (a moment later), then produce.
      `newId` is the id drawn for the retry. */
  method RouteFailure(message: Message, row: ProjectRow, producer: Producer, worker: WorkerId, maxAttempts: int,
                      unexpected: bool, readAt: nat, writtenAt: nat, newId: JobId)
    returns (outcome: Outcome)
    requires readAt <= writtenAt && Unused(newId, message, producer.sent)
    modifies row, producer
    // so the claim, which recorded the failed job's id, does not take the retry for one it has seen
    ensures DistinctJobs(old(producer.sent)) ==> DistinctJobs(producer.sent)
    ensures old(row.lastJob) == Some(message.job) ==> row.lastJob != Some(newId)
    ensures var (topic, delay) := Destination(message.attempt, unexpected, maxAttempts);
            // exactly one successor, a later attempt under its own id
            && producer.sent == old(producer.sent)
                 + [(topic, Message(message.project, newId, message.attempt + 1,
                                    ToMs(readAt) + delay * 1000, message.originalTopic))]
            && (outcome == DeadLettered <==> Ends(message.attempt, unexpected, maxAttempts))
            // a retry holds the lease to its due moment; a dead letter gives it up
            && row.View() == (
                 if outcome == DeadLettered then
                   (if Releasable(old(row.View()), worker) then Released(old(row.View()), message.job, None)
                       else old(row.View()))
                 else
                   (if Renewable(old(row.View()), worker) then Renewed(old(row.View()), writtenAt, delay * 1000000)
                       else old(row.View())))
  {
    var topic, delay := DeadLetter, 0;
    if !(unexpected && message.attempt >= 1) {
      var destination := NextDestination(message.attempt, maxAttempts);
      topic, delay := destination.0, destination.1;
    }
    var forwarded := Message(message.project, newId, message.attempt + 1,
        ToMs(readAt) + delay * 1000, message.originalTopic);
    if topic != DeadLetter {
      var _ := row.Renew(worker, writtenAt, delay * 1000000);
      producer.ProduceTo(topic, forwarded);
      return RetryScheduled;
    }
    var _ := row.Release(worker, message.job, None);
    producer.ProduceTo(topic, forwarded);
    outcome := DeadLettered;
  }

  /** `find_stranded`: the sweep takes a lease that has run out for abandoned. */
  predicate LooksAbandoned(c: Columns, now: nat) {
    c.leaseExpires.Some? && c.leaseExpires.value < now
  }

  /** A retry whose worker still held the lease never looks abandoned before it is due, for all the
      truncation. */
  lemma ScheduledRetryIsNotAbandonedEarly(c: Columns, worker: WorkerId, readAt: nat, writtenAt: nat, delay: nat,
      now: nat)
    requires Renewable(c, worker) && readAt <= writtenAt
    requires ToMs(now) < ToMs(readAt) + delay * 1000
    ensures !LooksAbandoned(Renewed(c, writtenAt, delay * 1000000), now)
  {
    assert now < (ToMs(now) + 1) * 1000;
    assert ToMs(readAt) * 1000 <= readAt;
  }

  /** A retry handed over `late` microseconds after the moment its message is due wins its claim if and only if
      that is longer than the clock moved between the message's reading and the row's, plus what truncation
      took off the message: so never at the due moment itself, and a refused message is spent. */
  lemma RetryIsClaimedIffLateEnough(c: Columns, worker: WorkerId, retry: JobId, readAt: nat, writtenAt: nat,
      delay: nat, late: nat)
    requires Renewable(c, worker) && !c.deleted && c.lastJob != Some(retry) && readAt <= writtenAt
    ensures var due := (ToMs(readAt) + delay * 1000) * 1000;
            && (Claimable(Renewed(c, writtenAt, delay * 1000000), retry, due + late) <==>
               late > writtenAt - readAt + readAt % 1000)
            && !Claimable(Renewed(c, writtenAt, delay * 1000000), retry, due)
  {
    assert readAt == ToMs(readAt) * 1000 + readAt % 1000;
  }

  /** It can happen at the very moment the retry consumer is allowed to hand the message over. */
  lemma PunctualRetryCanBeRefused() returns (c: Columns, readAt: nat, writtenAt: nat, deliveredAt: nat)
    ensures Renewable(c, 0) && !c.deleted && c.lastJob != Some(1) && readAt <= writtenAt
    ensures ToMs(deliveredAt) >= ToMs(readAt) + 60 * 1000
    ensures !Claimable(Renewed(c, writtenAt, 60 * 1000000), 1, deliveredAt)
  {
    c := Columns(false, Some(0), Some(0), Some(0), 0);
    readAt, writtenAt, deliveredAt := 0, 5000, 60000000;
  }
}
