# A verified model of AskRepo's backend protocols

AskRepo clones a repository, splits it into chunks, embeds them and answers questions over them. The part
of its backend that is easy to get wrong is not the answering but what surrounds it: workers that lose
their lease while still writing, a consumer that polls while it works, queues that drop a backlog and must
not drop the news, caches that are invalidated under a racing reader, batches that are cut off and resumed.
This project models that part in Dafny and proves what it keeps, over every run and every input.

Code that changes state step by step is a class whose methods are proved against functions of their old
state; code that computes is functions. Where several tasks interleave, the atomic steps (one committed
statement, one call to a store) form a state machine, its invariant is proved for every run, and the
imperative method is proved to take only steps of that machine.

| module | what it covers |
|---|---|
| `Lease`, `GenerationSwap`, `PipelineRun` | claiming a project, writing the next index generation, flipping the pointer, dropping the old one; any number of workers that stall, lose the lease, fail and retry; `run` and `handle_message` as one worker executes them |
| `RetryLadder` | what happens to a failed job, and when its retry may start |
| `PausingConsumer` | the polling loop, its pauses, its offsets, and rebalances |
| `Fanout`, `LiveHub`, `EventStream`, `Staging` | live events from a commit to a browser: staged, published, queued, lost and resynchronised, re-authorised |
| `GrantCache`, `RateLimit`, `Outbox` | epoch invalidation with racing loaders, fixed-window limits, the mail lease |
| `VectorStore`, `Indexing` | point identity, upserts and deletes, batched and retried indexing |
| `Chunker`, `SourceRebuild` | where a chunk sits in its file, and the file rebuilt from its chunks |
| `Sampling`, `EvalRunner`, `EvalWorkers` | sampling chunks, answering an eval run in resumable batches, several workers at one run |
| `Ordering`, `Prelude` | sorting, grouping, small shared definitions |

Some promises made in comments and documentation turn out to hold only under a condition. Each such case
has the condition, proved necessary and sufficient where that is possible, and a lemma that exhibits a run
outside it:

- a deleted project's store is empty in the end if and only if no run wrote a batch that neither the delete
  nor a discard dropped (`GenerationSwap.DeletedProjectIsCleanIff`). Three runs leave points for good: a first
  index that failed before the delete, for which the delete does not call the store
  (`GenerationSwap.FailedFirstIndexOutlivesDelete`), one that fails retryably after the delete
  (`GenerationSwap.RetryableFailureAfterDeleteLeaks`), and a first flip between the delete's read of the row and
  its write (`GenerationSwap.FlipOvertakesDelete`);
- the active generation is the clone of the run that flipped to it if and only if no run wrote it any other
  chunk (`GenerationSwap.ActiveGenerationIsTheCloneIff`); a retry that finds another commit does
  (`GenerationSwap.RetryAtAnotherCommitLeavesStaleChunks`);
- a retry handed over at the very moment it is due is refused by the lease; it wins its claim if and only if it
  comes later by more than the clock moved between the message's reading and the row's, and the part of a
  millisecond that the message drops (`RetryLadder.RetryIsClaimedIffLateEnough`);
- a partition gained during a job stays paused until a rebalance or exactly until another partition's record
  runs as the next job (`PausingConsumer.GainedPartitionStarvesIff`), and a record whose job or commit raised is
  passed over exactly when a later record of its partition is committed
  (`PausingConsumer.RaisedRecordIsSkippedIff`);
- evicting one user's grants holds if and only if no load is left, at the delete, that will write an older
  snapshot under the same epoch (`GrantCache.EvictionHoldsIff`); one can be left
  (`GrantCache.OverlappingLoadOutlivesEviction`);
- a change that is rolled back is announced if and only if its event waits at a commit, or at a savepoint's
  release that publishes, and no change staged as the same event by then escapes the rollback
  (`Staging.AnnouncesOnlySurvivorsIff`): when its savepoint is rolled back and the transaction commits
  (`Staging.RolledBackSavepointStillAnnounces`), and when a release publishes it before the transaction is rolled
  back (`Staging.ReleasedThenRolledBackAnnounces`);
- trimming overlaps inverts chunking exactly when the windows fit (`SourceRebuild.RoundTripIffWindowsFit`), which
  they need not (`SourceRebuild.ShortStepsDoNotRoundTrip`);
- a chunk's line range lies inside its file if and only if its piece was found or has no more line breaks than
  the text left to search (`Chunker.RangeIsInsideIff`); pieces that start at the same character can break that
  (`Chunker.SharedStartLeavesTheFile`);
- the mail lease excludes a second replica only while a batch's worst case fits into it
  (`Outbox.SlowBatchIsClaimedTwice`);
- overlapping logins take the failure counter past its limit by up to one less than how many overlap, and no
  further (`RateLimit.OverlapIsBounded`, `RateLimit.OverlapReachesTheBound`); a check that failed open takes it
  past too (`RateLimit.SequentialAttemptsStayWithinTheLimit`);
- the results of an eval run are all made under the stamp it carries, all along, if and only if no stamp loaded as
  absent is written over results made under another, and no results are committed under a stamp that has been
  replaced (`EvalWorkers.StampIsKeptIff`); whether that can still happen is decided by who holds what at the
  moment (`EvalWorkers.StampCanBreakIff`). A worker that stalled before stamping does it to results already
  committed (`EvalWorkers.LateStampRenamesResults`) or to the holder's next ones
  (`EvalWorkers.EarlyStampRenamesResults`).

Verify with `dafny verify dfyconfig.toml`.

## Model

| member | source | states |
|---|---|---|
| `Lease.ProjectRow.Claim` | backend/app/repositories/lease.py:46-86 | the claim matches exactly a live row whose recorded job is another and whose lease is absent or past, and then writes owner, expiry and job id and nothing else |
| `Lease.ProjectRow.Renew` | backend/app/repositories/lease.py:89-113 | renewal looks at the owner alone and moves the expiry alone |
| `Lease.ProjectRow.Release` | backend/app/repositories/lease.py:116-153 | only the owner of a live row releases; the lease goes, the job is recorded, and the pointer moves exactly when a generation was given |
| `Lease.ProjectRow.Abandon` | backend/app/repositories/project.py:214-250 | only the owner abandons, and it expires the lease without giving up the owner |
| `GenerationSwap.StepKeepsInv` | backend/app/ingestion/pipeline.py:65-226 | every atomic step of every worker keeps the invariant: a lease holder's captured generation is the active one and its chunks are in the store, a sweep is below the pointer, a discard needs a deleted project, the active generation is complete |
| `GenerationSwap.NoDeleteReachesActive` | backend/app/ingestion/pipeline.py:157-162 | no step removes a point of the active or a later generation of a live project |
| `GenerationSwap.PointerAdvancesByOne` | backend/app/ingestion/pipeline.py:107-129 | only a release by the lease holder moves the pointer, and always to the next generation |
| `GenerationSwap.LeaseOutlastsTheHeartbeat` | backend/app/repositories/lease.py:46-113 | a worker that has just claimed, or whose heartbeat has just renewed, is the holder for the next 300 seconds over any run of any workers, unless it lets go itself |
| `GenerationSwap.EveryRunIsSafe` | backend/app/ingestion/pipeline.py:104-162 | over any run of any number of workers the pointer counts the flips exactly, the chunks of the last flip are all in the active generation, and no point at or above the final pointer was ever lost while the project lives |
| `GenerationSwap.ActiveGenerationIsTheCloneIff` | backend/app/ingestion/pipeline.py:107-129 | for every run from the start: the active generation has exactly the chunks of the run that flipped to it if and only if no run wrote it any other chunk, and has them at that commit if and only if the last writer of each was at that commit |
| `GenerationSwap.GenerationHoldsItsWrites` | backend/app/ingestion/pipeline.py:203-212 | until it is superseded a generation holds exactly what was written in it, each chunk as it was written last, whoever wrote it |
| `GenerationSwap.ActiveGenerationIsTheIndex` | backend/app/ingestion/pipeline.py:203-212 | the case a caller can check beforehand: if all runs from one pointer saw the same clone, the generation they write is exactly that clone's chunks at that commit, for all retries and stale writers |
| `GenerationSwap.RetryAtAnotherCommitLeavesStaleChunks` | backend/app/ingestion/pipeline.py:210-212 | without that agreement a reachable live state has a chunk in the active generation that the run which flipped never saw |
| `GenerationSwap.DeletedProjectIsCleanIff` | backend/app/services/project.py:372-451 | once the workers of a deleted project are quiet, and ever after, a generation has points left if and only if some run wrote a batch of it that neither the delete, nor a discard, nor a sweep dropped afterwards; the store is empty exactly when there is no such run |
| `GenerationSwap.UndisturbedDeleteIff` | backend/app/services/project.py:432-451 | a delete of a live project that nothing disturbs empties the store if the pointer was ever moved and otherwise leaves every point; nothing else changes but the row's mark |
| `GenerationSwap.AbortedDeleteChangesNothing` | backend/app/services/project.py:432-449 | a delete that gives up because the store is unreachable leaves the row, the points and the workers as they were |
| `GenerationSwap.FailedFirstIndexOutlivesDelete` | backend/app/ingestion/pipeline.py:167-187 | a first index that fails terminally while it holds the lease, then the delete: the points stay |
| `GenerationSwap.FlipOvertakesDelete` | backend/app/services/project.py:372-432 | a first flip between the delete's read of the row and its write: a whole active generation stays |
| `GenerationSwap.LeakIsPermanent` | backend/app/ingestion/pipeline.py:296-307 | what is left then is left by every continuation of the run |
| `GenerationSwap.RetryableFailureAfterDeleteLeaks` | backend/app/ingestion/pipeline.py:203-212 | so does a retryable failure after the delete: it skips the discard, and its retry is refused |
| `GenerationSwap.ReachableIsSafe` | backend/app/ingestion/pipeline.py:65-226 | every reachable state satisfies the invariant |
| `PipelineRun.Worker.HandleMessage` | backend/app/queue/consumer.py:76-143 | with any turns of others and any fault at any call the worker ends idle; a skipped job is a refused claim and nothing else, a completed one raised nothing or ended in a terminal error, a routed one has its one successor at the destination of its last exception; left alone, a claimable job leaves exactly its chunks in the new generation and the lease free, and any other job changes nothing; with nobody else about and one exception, the row ends, column by column, with the lease free and the job recorded, or held to the retry's moment if one is scheduled, the pointer having moved only if the flip had happened |
| `PipelineRun.Worker.WorkOn` | backend/app/queue/consumer.py:106-143 | the same for a job once it is claimed: the run and what is made of an exception out of it |
| `PipelineRun.NextClaim` | backend/app/repositories/lease.py:46-86 | of such rows: a free one is claimed by any other job at once, a held one by any other job once the retry's moment has passed |
| `PipelineRun.Worker.Run` | backend/app/ingestion/pipeline.py:65-226 | it returns exactly when nothing was raised; otherwise it raises the last exception, handled once by the handler of the first, and a retryable or unclassified one leaves the job to be routed; with nobody else about and one exception, some first part of the chunks is stored, whole batches of it, and the row is free and the job recorded after a terminal one, its lease run out now after an unclassified one, as it was after a retryable one; or the flip had happened and stays |
| `PipelineRun.Worker.TryRun` | backend/app/ingestion/pipeline.py:93-162 | when the body raises, the generation variable names exactly the generation the run may have written, and is absent before the clone is in |
| `PipelineRun.Worker.FlipAndSweep` | backend/app/ingestion/pipeline.py:116-162 | flip before delete: the worker's own steps are the release alone, the release then the drop of the superseded generation, or, refused, the release, the look at the project and at most the drop of its own generation, in that order |
| `PipelineRun.Worker.Handle` | backend/app/ingestion/pipeline.py:164-221 | the three handlers: retryable leaves the row alone, unclassified lets the lease run out now and keeps its owner, terminal frees the lease and records the job, column by column, and discards if refused; no point moves while the project is there; an exception out of a handler is not handled again |
| `PipelineRun.Worker.RecordFailure` | backend/app/ingestion/pipeline.py:164-200 | the terminal handler alone: the free row if the lease was held, the row as it was if not |
| `PipelineRun.Worker.DiscardUnclaimedGeneration` | backend/app/ingestion/pipeline.py:296-320 | the look at the project comes first; points are dropped only when it was found gone, and only the run's own generation |
| `PipelineRun.Worker.DeleteGeneration` | backend/app/ingestion/pipeline.py:157-162 | may be called for the superseded generation after the flip or for one's own when discarding, and for nothing else |
| `PipelineRun.Worker.Index` | backend/app/ingestion/pipeline.py:252-281 | undisturbed, the store is the old one with every chunk upserted in the new generation, whatever the batch size |
| `PipelineRun.Worker.Route` | backend/app/queue/consumer.py:146-219 | one successor with the next attempt and its own id, after the row was written; none when the row or the broker failed |
| `PipelineRun.Worker.AlwaysSafe` | backend/app/queue/consumer.py:76-143 | the machine's invariant holds at every call of the executing worker |
| `RetryLadder.EndsExactly` | backend/app/queue/topics.py:17-20 | a failure is dead-lettered exactly on the third try, on the last allowed one, or when unclassified after the first; any other waits a minute in the first retry topic after the first try and ten in the second after the second |
| `RetryLadder.ChainIsFinite` | backend/app/queue/consumer.py:158-168 | however a job keeps failing it is tried at most three times and no more than allowed, and an unclassified failure on the second try ends it |
| `RetryLadder.RouteFailure` | backend/app/queue/consumer.py:146-219 | exactly one message goes out, for the next attempt under the new id, and ids stay distinct; a retry's row holds the lease to the due moment, a dead letter's gives it up, and neither records the new id, so the retry is not taken for a redelivery |
| `RetryLadder.ScheduledRetryIsNotAbandonedEarly` | backend/app/queue/consumer.py:180-192 | on one clock, a scheduled retry whose worker held the lease never looks abandoned before its due moment, truncation to milliseconds included |
| `RetryLadder.RetryIsClaimedIffLateEnough` | backend/app/queue/consumer.py:169-192 | a retry handed over after its message's due moment wins its claim if and only if the delay beyond it exceeds the time between reading the clock for the message and for the row, plus the truncated part of a millisecond; so never at the due moment itself |
| `RetryLadder.PunctualRetryCanBeRefused` | backend/app/queue/consumer.py:174-192 | one such delivery that the retry consumer may make and the claim refuses |
| `PausingConsumer.KeepAliveDiscardsNothing` | backend/app/queue/consumer.py:382-391 | while a job is in flight and through any rebalances every assigned partition is paused, and no keep-alive poll discards a record |
| `PausingConsumer.ProcessingResumesWhatItHeld` | backend/app/queue/consumer.py:382-413 | after a job exactly the partitions gained during it are left paused; offsets stay justified and nothing was discarded |
| `PausingConsumer.EveryRunCommitsOnlyWhatWasAttempted` | backend/app/queue/consumer.py:312-435 | over any run, every offset below a committed one is of a record that was attempted or found unparseable |
| `PausingConsumer.PausedIffGainedInJob` | backend/app/queue/consumer.py:224-262 | over any run of a new consumer, a partition is paused if and only if a rebalance gained it while a job was in flight and since then there was neither a rebalance without a job nor another job |
| `PausingConsumer.GainedPartitionStarvesIff` | backend/app/queue/consumer.py:382-413 | without a rebalance such a partition stays paused if and only if no job runs, whatever is polled, and until then none of its records is taken up |
| `PausingConsumer.GainedPartitionsStarve` | backend/app/queue/consumer.py:404-413 | with only such partitions assigned the loop fetches nothing until the next rebalance |
| `PausingConsumer.RaisedRecordIsSkippedIff` | backend/app/queue/consumer.py:331-348 | a record taken up and left uncommitted, because its job or its commit raised, is not polled again until a rebalance, and is committed over if and only if a later record of its partition is committed |
| `PausingConsumer.PausingConsumer.Process` | backend/app/queue/consumer.py:350-395 | one record, against the client's state function, and the facts above for it |
| `PausingConsumer.PausingConsumer.Run` | backend/app/queue/consumer.py:312-329 | the loop over any script of polls, rebalances and jobs |
| `PausingConsumer.PausingConsumer.GetMany` | backend/app/queue/consumer.py:312-329 | in the fields: a poll hands over the record at the position of an offered, assigned and unpaused partition; right after a rebalance without a job, that of any offered one now assigned, at its committed offset; and nothing else |
| `PausingConsumer.PausingConsumer.Await` | backend/app/queue/consumer.py:241-262 | a rebalance with no job in flight leaves nothing paused and every position at its committed offset, one with a job in flight leaves everything paused |
| `PausingConsumer.PausingConsumer.Commit` | backend/app/queue/consumer.py:415-435 | moves the offset past the record if the partition is still held, and otherwise nothing |
| `Fanout.DeliveryQueuesOrMarks` | backend/app/live/fanout.py:57-77 | after a delivery the event is queued or a marker stands in its place, nothing queued is lost without a marker, and an unread marker is not displaced |
| `Fanout.ResyncAndCloseMark` | backend/app/live/fanout.py:79-112 | resync and close leave a marker, keep the queue's bound and its flags' meaning, and only close displaces a marker |
| `Fanout.LiveEventFanout.Subscribe` | backend/app/live/fanout.py:44-55 | one new empty queue, no other touched |
| `Fanout.LiveEventFanout.Unsubscribe` | backend/app/live/fanout.py:44-55 | the queue and its flags go together, so flags exist only for live queues |
| `Fanout.LiveEventFanout.PutNowait` | backend/app/live/fanout.py:57-77 | is only called on a queue with room |
| `Fanout.LiveEventFanout.Deliver` | backend/app/live/fanout.py:57-77 | in whatever order the queues are visited, each open one without an unread marker gains the event at its end while it has fewer than 100 items, and holds one resync and nothing else when it has 100; every other stays as it is |
| `Fanout.LiveEventFanout.ResyncAll` | backend/app/live/fanout.py:79-98 | each queue holds one resync and nothing else, unless it is closed; what is closed stays so |
| `Fanout.LiveEventFanout.CloseAll` | backend/app/live/fanout.py:100-112 | each queue holds one close and nothing else, and all are closed |
| `LiveHub.StepKeepsInv` | backend/app/live/kafka.py:140-173 | publishing, subscribing, reading, dispatching, connecting and losing the broker keep every stream covered |
| `LiveHub.NoEventIsMissedSilently` | backend/app/live/kafka.py:140-173 | over any interleaving, each event an open stream should learn of is read, queued, still to be dispatched, or covered by a resync or close; queues stay within 100; nothing is read twice or out of order; after a loss every older stream has been told to end |
| `LiveHub.ReaderWhoKeepsUpGetsAll` | backend/app/live/kafka.py:131-138 | a stream whose queue had room at every dispatch, with no broker gained or lost since it subscribed, has read a first part of the messages that decode dispatched since then and holds exactly the others, in order, and no marker |
| `LiveHub.EachMessageIsReceived` | backend/app/live/kafka.py:156-162 | a connected consumer dispatches the next message there is, one at a time |
| `LiveHub.KafkaLiveEventHub.OneSession` | backend/app/live/kafka.py:140-173 | connect, receive, lose and wait, in that order, each message dispatched once, reading on from where the seek landed; the delay is the one for the failures in a row |
| `LiveHub.KafkaLiveEventHub.Run` | backend/app/live/kafka.py:140-173 | the reconnect loop: the hub session by session, never available between sessions; the delay is a second after a connection and 2, 5, 10 and then 30 after each failure in a row |
| `LiveHub.MetAllReaches` | backend/app/live/kafka.py:140-173 | what the loop makes of a hub is reached by steps of the hub alone, so the results above hold of it |
| `LiveHub.EveryStreamIsToldToEnd` | backend/app/live/kafka.py:166-168 | after any sessions every stream opened before the last loss has an unread marker or has ended |
| `LiveHub.KafkaLiveEventHub.DispatchNext` | backend/app/live/kafka.py:131-138 | an undecodable message moves the position and no queue; any other reaches every queue |
| `EventStream.LiveEventStream` | backend/app/live/stream.py:98-152 | for any clock, queue and check outcomes, the log of what the generator sees and does is one whose every entry the earlier ones and the outside world call for; its frames are those sent, and items are taken in order until it ends itself |
| `EventStream.LogIsDetermined` | backend/app/live/stream.py:98-152 | that judgement leaves no choice: of two such logs over one outside world, one continues the other |
| `EventStream.ChecksAreSpaced` | backend/app/live/stream.py:89-95 | on a clock that does not run backwards, a re-check is run only when none can be reused, so successive ones begin at least two seconds apart |
| `EventStream.ForwardedIsAuthorised` | backend/app/live/stream.py:142-152 | every forwarded project-scoped frame names a project, and the newest re-check, with none after it, read an account that need not change its password, whose session is live if it has one, and that is an administrator or a member of that project; when the frame goes out that re-check is less than two seconds old from its start, or was run for this event and is as old as it took, waiting included |
| `EventStream.ScopedIsForwardedIff` | backend/app/core/access.py:306-309 | the answer to a project-scoped event is its own frame if the newest re-check read an administrator or a member of its project, and is withheld otherwise |
| `EventStream.MembersEventIsForwarded` | backend/app/live/stream.py:135-152 | so such an event taken off the queue is forwarded, before the next poll, to an administrator or a member of its project |
| `EventStream.CheckRefusesIff` | backend/app/live/stream.py:52-74 | a re-check refuses exactly when it raised, the account is gone or must change its password, or the session it signed in with is over; otherwise it passes on exactly the rights it read; a refusal ends the stream at once |
| `EventStream.ReuseNeverExtends` | backend/app/live/stream.py:77-95 | however often a re-check is relied on, the last reliance is still within two seconds of its start |
| `EventStream.HeartbeatComesFirst` | backend/app/live/stream.py:124-133 | however busy the queue, a heartbeat found due is handled before anything is answered and before the next poll |
| `EventStream.HeartbeatOnlyWhenDue` | backend/app/live/stream.py:124-133 | a heartbeat is handled only after a poll that ended its interval or more after the last one handled, and is followed by a ping exactly if the deadline has not passed |
| `EventStream.DueIsAfterTheLastBeat` | backend/app/live/stream.py:110-131 | it is due its interval after the last one handled |
| `EventStream.DeadlineIsKept` | backend/app/live/stream.py:111-118 | no poll begins at or after the deadline, and the stream ends for it only then |
| `EventStream.NothingFollowsRefusal` | backend/app/live/stream.py:128-147 | after a refused re-check, a close or a passed deadline nothing follows |
| `EventStream.EveryItemIsAnswered` | backend/app/live/stream.py:135-152 | an item taken off the queue is answered before the next poll: an event with its own frame or withheld, a resync with a resync frame; a close is followed by no poll |
| `EventStream.NotificationReachesItsRecipients` | backend/app/core/access.py:296-309 | a notification is forwarded as it is if it names the stream's own user, administrators included, and is withheld if not |
| `EventStream.RecheckOrReuse` | backend/app/live/stream.py:77-95 | a reused result is one still in its window; a failed check yields no user |
| `Staging.SubmitsWhatCommitsIffNothingIsReleasedEarly` | backend/app/live/staging.py:68-94 | the submissions are exactly one per committed outermost transaction with something staged, if savepoint releases do not fire the commit hook, and otherwise if and only if no savepoint is released with something staged |
| `Staging.ExpectedIsTheCommits` | backend/app/live/staging.py:51-78 | a submission is a commit of something staged, at that step, with the transaction's events; at most one a step, in order |
| `Staging.OnceKeepsFirstOrder` | backend/app/live/staging.py:63-65 | its events are without repeats, in the order they were first staged |
| `Staging.StagedInIsSinceTheLastEnd` | backend/app/live/staging.py:81-94 | what a commit submits was staged since the last end of an outermost transaction: nothing leaks into the next |
| `Staging.AnnouncesOnlySurvivorsIff` | backend/app/live/staging.py:1-8 | over what the session submits, whether a release publishes or not: every announced event has a change, staged as it by then in that transaction, that is not rolled back, if and only if no event waits at a hand-over with every such change rolled back, before it or after it |
| `Staging.LostIffRolledBack` | backend/app/live/staging.py:81-94 | a change, followed level by level through the session, is lost exactly when the outermost transaction is rolled back or closed, or a savepoint is whose level the session has not been beneath since |
| `Staging.CommitIsFinal` | backend/app/live/staging.py:68-78 | what undoes a change staged in a committed transaction is a savepoint rolled back before the commit; nothing after it does |
| `Staging.RolledBackSavepointStillAnnounces` | backend/app/live/staging.py:81-94 | stage in a savepoint, roll it back, commit: the session submits the event, whatever came before and whether a release publishes or not, though that change, and it alone, is lost |
| `Staging.ReleasedThenRolledBackAnnounces` | backend/app/live/staging.py:68-78 | stage, open and release a savepoint, roll back: if a release publishes, the session has submitted the event and every change behind it is lost; if not, nothing goes out |
| `Staging.Session.Do` | backend/app/live/staging.py:51-94 | the session and the two hooks do exactly that |
| `Staging.RunHistory` | backend/app/live/staging.py:51-94 | any legal history on a new session submits as promised, under the condition above |
| `GrantCache.LoadReflectsBumpedRoleChange` | backend/app/core/grant_cache.py:55-102 | a load begun after a role change's bump completed returns grants at least as new as the change, for any other loads, writers and failures in between |
| `GrantCache.EvictionHoldsIff` | backend/app/core/grant_cache.py:55-83 | after a carried-out eviction some continuation has a later load of the user return less than the write if and only if, at the delete, the epoch is the one read and a load of the user still has an older snapshot to write under it |
| `GrantCache.LoadReflectsQuietEviction` | backend/app/core/grant_cache.py:70-83 | the case a writer can rely on: when no load of that user overlapped the window from the commit to the eviction, every later load is at least as new as the write |
| `GrantCache.OverlappingLoadOutlivesEviction` | backend/app/core/grant_cache.py:70-83 | a reachable state in which a load begun after the eviction returned older grants |
| `GrantCache.StepKeepsInv` | backend/app/core/grant_cache.py:55-129 | every step of loaders and writers keeps each entry at least as new as what its epoch owes |
| `GrantCache.GrantCache.Load` | backend/app/core/grant_cache.py:55-68 | with any turns of others at its awaits it reads the epoch, the entry, the database and writes back in that order, returns what the load found, and that is no older than every role change bumped and every quiet eviction before it began |
| `GrantCache.LoadIsCacheAside` | backend/app/core/grant_cache.py:55-68 | with nobody else about, a usable entry of the epoch is served as it is, and a miss reads the database and leaves an entry of what it read |
| `GrantCache.ExpiredIsReloaded` | backend/app/core/grant_cache.py:55-68 | once an entry has expired a load reads the database, however old it was |
| `GrantCache.GrantCache.InvalidateUser` | backend/app/core/grant_cache.py:70-83 | whatever others do in between, the entry under the epoch it read is gone when Redis answered |
| `GrantCache.GrantCache.BumpEpoch` | backend/app/core/grant_cache.py:85-90 | no entry is of the new epoch, and the change is part of what every later load owes |
| `RateLimit.RateLimiter.Hit` | backend/app/core/rate_limit.py:93-113 | a hit is admitted exactly when its window holds fewer than the limit, or Redis did not answer; it adds one to its own window if Redis carried it out, the answer lost or not, and to no other |
| `RateLimit.RateLimiter.GetCount` | backend/app/core/rate_limit.py:115-126 | the hits of the current window since it was reset, 0 in an outage |
| `RateLimit.RateLimiter.Reset` | backend/app/core/rate_limit.py:128-137 | if Redis carries it out the current window counts none, and no other window moves |
| `RateLimit.WindowAdmitsUpToTheLimit` | backend/app/core/rate_limit.py:88-113 | a window admits exactly the lesser of its hits and the limit |
| `RateLimit.AdmissionsAreBounded` | backend/app/core/rate_limit.py:88-113 | any stretch of time admits at most the limit for each window length begun and once more, so at most twice the limit in one window length |
| `RateLimit.BoundaryBurstAdmitsTwiceTheLimit` | backend/app/core/rate_limit.py:88-113 | that bound is met, for every limit and window, inside two milliseconds |
| `RateLimit.SequentialAttemptsStayWithinTheLimit` | backend/app/core/rate_limit.py:204-229 | one attempt after another keeps the failure counter within its limit if and only if the check did not fail open on a spent budget with the record going through |
| `RateLimit.SequentialLoginsNeverPassTheLimit` | backend/app/core/rate_limit.py:204-229 | any sequence of logins whose checks reach Redis keeps every window within the limit |
| `RateLimit.OverlapIsBounded` | backend/app/core/rate_limit.py:204-229 | while Redis answers, for any interleaving of checks, records, resets and time: with at most c attempts between check and record at once, no window ever holds more than the limit and c - 1 |
| `RateLimit.OverlapReachesTheBound` | backend/app/core/rate_limit.py:204-225 | that bound is met, for every limit and every c |
| `RateLimit.LoginAttemptLimiter.SignIn` | backend/app/core/rate_limit.py:204-229 | refused exactly when the window of the check holds the limit and Redis could be read; a refused attempt writes nothing, a wrong password one hit, a success a reset |
| `Outbox.ExclusiveIffTheBatchFitsTheLease` | backend/app/mail/outbox.py:28-35 | for any replicas on any schedule no two live ones have the same row in hand, if and only if the set-up and a full batch at its slowest fit in the lease |
| `Outbox.HeadroomOfTheConstants` | backend/app/mail/outbox.py:28-35 | with the constants as they are: if and only if the set-up and fifty times the overhead per row come to at most 400 seconds |
| `Outbox.SlowBatchIsClaimedTwice` | backend/app/repositories/notification.py:150-181 | otherwise a reachable state has the last row in two replicas' hands |
| `Outbox.StepKeepsInv` | backend/app/mail/outbox.py:49-79 | claims, sends, waits and crashes keep every drain on schedule and its rows leased to it |
| `Outbox.CompletedPassLeavesPending` | backend/app/mail/outbox.py:82-113 | a completed pass takes the row out of pending except after a retryable refusal with attempts to spare, so never after the fifth; sent means handed to the relay |
| `Outbox.PassIsOutcome` | backend/app/mail/outbox.py:82-113 | one pass over one row, column by column, as just said |
| `Outbox.OutcomesAreFinal` | backend/app/repositories/notification.py:216-231 | no step of any replica changes a row that is sent, failed or skipped |
| `Outbox.SendPendingOnce` | backend/app/mail/outbox.py:42-113 | row by row: a picked row ends skipped if its user is gone or its event over a day old, sent if the relay took it, pending under its lease after a refusal worth repeating before the fifth attempt, and failed otherwise, with one attempt more; no other row moves, and the count is of those sent |
| `Outbox.DrainedIsOnePassEach` | backend/app/mail/outbox.py:49-79 | every picked row has its own pass behind it and no other row has moved |
| `VectorStore.NameIsInjective` | backend/app/ingestion/vector_store.py:59-69 | path, chunk index and generation are recovered from the point's name for all strings and numbers, colons in the path included |
| `VectorStore.DecimalIsInjective` | backend/app/ingestion/vector_store.py:59-69 | numerals name one number |
| `VectorStore.InMemoryVectorStore.Upsert` | backend/app/ingestion/vector_store.py:603-619 | the list of points, as a map by id, is the old map overwritten by the batch; under each chunk's name is that chunk with its own vector and the commit, unless a later one of the batch has the name |
| `VectorStore.UpsertStoresEach` | backend/app/ingestion/vector_store.py:603-619 | the last chunk of a batch at its place is stored under its name with its own vector |
| `VectorStore.InMemoryVectorStore.DeleteGeneration` | backend/app/ingestion/vector_store.py:621-630 | exactly the points of that project and generation go |
| `VectorStore.InMemoryVectorStore.DeleteProject` | backend/app/ingestion/vector_store.py:632-636 | exactly the points of that project go |
| `VectorStore.InMemoryVectorStore.Scroll` | backend/app/ingestion/vector_store.py:557-583 | the pages are full but for the last and hold each point of that project and generation under that path as often as it is stored, and no other, by path and by chunk index within a path |
| `VectorStore.RestIsWithout` | backend/app/ingestion/vector_store.py:603-636 | filtering the list is filtering the map |
| `VectorStore.ReplacingIsUpdating` | backend/app/ingestion/vector_store.py:603-619 | removing a point's old version and appending the new one is a map update |
| `VectorStore.UpsertLeavesOtherGenerations` | backend/app/ingestion/vector_store.py:59-69 | writing one generation leaves every point of another generation or project as it was |
| `VectorStore.DeleteGoesByName` | backend/app/ingestion/vector_store.py:621-636 | in a store whose ids are names, a delete leaves nothing under the project and generation (or the project) it names, and the point of every path and index under any other as it was |
| `Indexing.IngestionPipeline.Index` | backend/app/ingestion/pipeline.py:252-281 | the flushed batches concatenate to the chunk list in order, all but the last are full, the counts are those of the list, and the store has what was flushed; cut off, a prefix of it; what is written is of the files that could be read, and all they have once it is complete |
| `Indexing.IngestionPipeline.Flush` | backend/app/ingestion/pipeline.py:283-294 | one batch reaches the store whole or not at all |
| `Indexing.CompleteAttemptErasesEarlier` | backend/app/ingestion/pipeline.py:203-212 | a complete attempt erases whatever earlier attempts wrote under its ids |
| `Indexing.RetriesRefineOneShot` | backend/app/ingestion/pipeline.py:252-294 | after any number of interrupted attempts over one chunk list, a complete one leaves the store as a single upsert of the list would |
| `Chunker.GreedyIsTheLeastPlacement` | backend/app/ingestion/chunker.py:102-107 | if the pieces occur at some strictly increasing offsets, the search finds every piece, at strictly increasing offsets, each no later than the true one |
| `Chunker.GreedyIsTrueIffNoEarlierOccurrence` | backend/app/ingestion/chunker.py:93-107 | the recovered offsets are the true ones if and only if no piece also occurs between its predecessor and its own place |
| `Chunker.StartLinesNeverGoBack` | backend/app/ingestion/chunker.py:103-110 | start lines never decrease, whatever the splitter returns |
| `Chunker.LineRangeIsReal` | backend/app/ingestion/chunker.py:103-120 | every line range of a placeable chunk lies inside the file and is that of a real occurrence of its text |
| `Chunker.EveryPieceIsFoundIff` | backend/app/ingestion/chunker.py:102-107 | the search finds every piece if and only if the pieces occur at some strictly increasing offsets |
| `Chunker.RangeIsInsideIff` | backend/app/ingestion/chunker.py:103-120 | for any pieces at all: a chunk's lines lie inside the file if and only if its piece was found or has at most as many line breaks as the text from the cursor on |
| `Chunker.SharedStartLeavesTheFile` | backend/app/ingestion/chunker.py:103-110 | four pieces that all occur in the file in order, two at one offset, the last of which is given lines outside it |
| `Chunker.NonBlankStaysPlaceable` | backend/app/ingestion/chunker.py:99 | dropping blank pieces keeps the rest placeable |
| `Chunker.Split` | backend/app/ingestion/chunker.py:87-124 | the loop computes the chunks the lemmas are about: of a file that is not all space, exactly the pieces that are not all space, in order, numbered from 0, each with its path, language and own symbol; a blank file has none |
| `Chunker.ChunksAreThePieces` | backend/app/ingestion/chunker.py:98-122 | the same of the chunks the lemmas are about |
| `SourceRebuild.JoinedEndsWithItsLastChunk` | backend/app/checklist/source.py:63-69 | the text joined from the first chunks ends with the last of them |
| `SourceRebuild.EveryChunkOccurs` | backend/app/checklist/source.py:63-69 | every chunk occurs whole in the rebuilt text |
| `SourceRebuild.JoinedLength` | backend/app/checklist/source.py:45-69 | the length lies between the chunks' total less one overlap a seam, and the total |
| `SourceRebuild.SeamUpToIsLongest` | backend/app/checklist/source.py:45-60 | what is trimmed is the longest match not over the bound |
| `SourceRebuild.RoundTripIffSeamsArePlain` | backend/app/checklist/source.py:45-69 | for windows covering a source, the rebuilt text follows it through every chunk if and only if each true overlap fits the bound and the trimmed part before it and no longer match exists there |
| `SourceRebuild.RoundTripIffWindowsFit` | backend/app/checklist/source.py:45-69 | the same in windows and source alone: if and only if each overlap is within the bound, no window reaches back past its predecessor's new text, and no longer repetition stands at a seam |
| `SourceRebuild.FittingWindowsRoundTrip` | backend/app/checklist/source.py:45-69 | then joining the chunks gives the source back |
| `SourceRebuild.FaultsCanCancel` | backend/app/checklist/source.py:45-69 | why the equivalence is about every chunk: one seam can trim a character too many and a later one a character too few |
| `SourceRebuild.UnfitOverlapBreaks` | backend/app/checklist/source.py:63-69 | an overlap longer than the trimmed part before it is never recovered |
| `SourceRebuild.ShortStepsDoNotRoundTrip` | backend/app/checklist/source.py:63-69 | three windows of one text that do not come back |
| `SourceRebuild.RebuildFiles` | backend/app/checklist/source.py:78-107 | one file for each path that has chunks, in path order: its text is the join of all its chunks by index, holds each whole and ends with one of the highest index, its length within the bounds; its lines span the chunks' and no more, its language is that of a lowest-index chunk or text, it is partial exactly when an index is missing, and exactly the partial ones are named |
| `SourceRebuild.RebuiltIsRight` | backend/app/checklist/source.py:78-107 | the same of the description the method is proved against |
| `SourceRebuild.JoinIsDetermined` | backend/app/checklist/source.py:63-69 | with one chunk for each index the text is the join of the chunks by index |
| `SourceRebuild.FittingFileComesBack` | backend/app/checklist/source.py:63-107 | a file whose chunks are fitting windows of a source, one for each index, comes back as that source |
| `SourceRebuild.RebuildForgetsOrder` | backend/app/checklist/source.py:78-107 | with distinct indexes per file the result is the same for every order of the payloads |
| `SourceRebuild.PartialIffGap` | backend/app/checklist/source.py:72-75 | a file is reported whole exactly when no index below its chunk count is missing |
| `SourceRebuild.RangeSpansChunks` | backend/app/checklist/source.py:78-107 | the reported lines are the least start and the greatest end of the chunks |
| `Sampling.SampleChunks` | backend/app/eval/sampling.py:43-70 | exactly the lesser of the count and the total, picked round by round from each file's best |
| `Sampling.EachFileGivesItsBest` | backend/app/eval/sampling.py:28-70 | the chunks taken of a file are the first so many in the order of best: named a symbol, then longer, then earlier start, earlier end, lower index; each of them as its payload has it, and no other |
| `Sampling.PicksAreShares` | backend/app/eval/sampling.py:58-70 | closed form: at some level every file gives the lesser of its size and the level, one more for an initial segment of the file order, and always its best-ranked ones |
| `Sampling.PicksAreInTurn` | backend/app/eval/sampling.py:58-70 | nothing is picked twice, and picks go round by round |
| `Sampling.PicksAreSettledByCount` | backend/app/eval/sampling.py:58-70 | the sizes and the number picked settle which ones they are |
| `Sampling.QueuesHoldEverything` | backend/app/eval/sampling.py:50-57 | every payload is in exactly one queue |
| `Sampling.SampleIsDetermined` | backend/app/eval/sampling.py:43-70 | two samples of the same payloads in whatever order, with distinct ranks in a file, the same count and the same shuffle, are equal; every result of `SampleChunks` is such a sample |
| `Sampling.SampleForgetsOrder` | backend/app/eval/sampling.py:28-57 | with distinct ranks in a file, neither the names to be shuffled nor the queues depend on payload order |
| `EvalRunner.EvalRun.Run` | backend/app/eval/runner.py:108-213 | the batch loop leaves the row as the attempt's description says, done exactly when the summary is written, terminal exactly on a provenance mismatch; earlier results stay, new ones are of included pairs with this attempt's answers under its provenance, and a summary counts all rows, the hits and each verdict's own |
| `EvalRunner.LeaseDecides` | backend/app/eval/runner.py:156-199 | an attempt that never finds the lease and loses it at the end commits nothing, one that loses it at the end does not finish the run, and one that nothing disturbs does |
| `EvalRunner.EvalRun.AnswerInBatches` | backend/app/eval/runner.py:156-179 | what is committed is a prefix of the pending pairs' answers, and the session holds the rest of those produced |
| `EvalRunner.StampProvenance` | backend/app/eval/runner.py:245-274 | fields already stamped are compared and never overwritten; on a mismatch nothing is written |
| `EvalRunner.EverySequenceOfAttemptsIsSound` | backend/app/eval/runner.py:141-213 | over any attempts, each cut off anywhere: one result a pair, all made under the one provenance on the row, a summary that counts them, and no more answers produced than kept plus what the interruptions may lose |
| `EvalRunner.InterruptionLosesLittle` | backend/app/eval/runner.py:156-183 | one interruption loses at most nine answers and the chunk in hand |
| `EvalRunner.DoneAnswersEveryPairOnce` | backend/app/eval/runner.py:144-199 | an attempt that finishes the run leaves exactly one result for each pair included when it began, and verdicts that add up to the pairs answered |
| `EvalRunner.TallySummarises` | backend/app/eval/runner.py:193-198 | the summary's fields are the numbers of rows, of hits, and of rows with each verdict |
| `EvalRunner.TalliesAddUp` | backend/app/eval/runner.py:402-403 | the four verdict counts partition the rows |
| `EvalWorkers.NoPairIsAnsweredTwice` | backend/app/eval/runner.py:276-295 | with any workers stalling and losing leases, committed results have distinct pairs: the lease check before each commit is enough |
| `EvalWorkers.StampIsKeptIff` | backend/app/eval/runner.py:141-213 | over any run of any workers: every committed result was made under the stamp the run carried, after every step, if and only if no step writes a stamp loaded as absent over results made under another or commits results under a stamp since replaced |
| `EvalWorkers.StampCanBreakIff` | backend/app/eval/runner.py:141-213 | from any reachable state that keeps it, some continuation breaks it if and only if the run is open without a stamp, or a worker is late with another stamp and there is a result or the run is open, or the holder works under a replaced one with something left to commit |
| `EvalWorkers.ResultsCarryOneStamp` | backend/app/eval/runner.py:245-274 | the case a lease check before the stamp would secure: as long as no worker without the lease writes its stamp, every committed result was made under the run's one stamp |
| `EvalWorkers.StampBreaksIff` | backend/app/eval/runner.py:141-179 | the step that breaks it, exactly, among all steps: the late write over results, and the commit under a replaced stamp |
| `EvalWorkers.LateStampRenamesResults` | backend/app/eval/runner.py:141-142 | for any two provenances a run ends with a result made under the one and the row stamped with the other |
| `EvalWorkers.EarlyStampRenamesResults` | backend/app/eval/runner.py:141-142 | the same when the late stamp is written before there is any result |
| `Ordering.SortForgetsOrder` | backend/app/checklist/source.py:90-96 | sorting by distinct keys gives the same list for every order of the input |
| `Ordering.SortIsStable` | backend/app/checklist/source.py:90-96 | elements of one key keep the order they came in |
| `Ordering.Group` | backend/app/eval/sampling.py:50-54 | grouping keeps each key's items in order, and the keys in the order first seen |

## Left out

- Foreign services: git, DNS, Kafka, Redis, Qdrant, SMTP, SQLAlchemy and the language models are represented by the state their callers rely on, or by inputs that may be anything; isolation and commit ambiguity of the database are not modelled.
- Clocks are integers, and all workers read one clock; the memory limits and sizes of real values are not modelled.
- `GenerationSwap.Next`: a delete is its read of the row, the mark that locks it, the store call and the commit; two deletes at once, and a delete that fails after its store call took effect, are not among the steps. One collection is modelled: switching the embedding provider is not. The status column, the reindex flag, the conversations and other rows that go with a project, and the notification of a finished index are not part of the state.
- `GenerationSwap.ActiveGenerationIsTheIndex`: a sufficient condition on what the runs saw; `GenerationSwap.ActiveGenerationIsTheCloneIff` has the exact one, on what they wrote.
- `GenerationSwap.DropSuperseded`: a failing delete after the flip leaves the old generation behind, and nothing later removes it; no eventual deletion is claimed.
- `PipelineRun.Worker.Await`: a release whose commit outcome is unknown to the worker is not among the faults; an upsert or a delete that took effect and then raised is.
- `PipelineRun.Worker.CloneRepository`: decrypting the token, validating the address, cloning, walking and chunking are one call with one result.
- `PipelineRun.Worker.Index`: the skipping of unreadable files and the file count are in `Indexing.IngestionPipeline.Index`.
- `RetryLadder.RouteFailure`: the new id is an input that no row or message has yet, as random UUIDs are taken to be; clocks of different machines are not modelled; the recorded error text is left out.
- `PausingConsumer.Processed`: other members' progress is an input, limited to what `PausingConsumer.EveryRunCommitsOnlyWhatWasAttempted` proves of each member; when a keep-alive poll raises, the job task that runs on beside the loop is not part of the client's state.
- `LiveHub.Next`: one partition of the live topic; producers' failures to publish are covered by nothing but the client's own polling.
- `EventStream.LiveEventStream`: the semaphore that bounds concurrent re-checks only delays them, so it appears as time passing.
- `Staging.Session.Do`: a commit that fails half-way through its savepoints is not modelled; an exception in the publisher only loses the submission.
- `GrantCache.LoadReflectsQuietEviction`: a sufficient condition; `GrantCache.EvictionHoldsIff` has the exact one.
- `GrantCache.Next`: the time-to-live only removes entries, so it is covered by entries vanishing; an entry that does not parse appears as an unusable one; Redis is taken never to lose the epoch counter.
- `RateLimit.RateLimiter.Hit`: one subject with one window length; trimming and lower-casing an address and resolving the caller's address are left out.
- `Outbox.SendPendingOnce`: the claim's SELECT is a stated contract (claimable, unlocked, oldest first, limited); the pass has the table to itself, which `Outbox.ExclusiveIffTheBatchFitsTheLease` justifies for its rows.
- `VectorStore.PointId`: the UUIDv5 hash of section 5.5 of RFC 9562 is taken as free of collisions, so an id is the project and the name.
- `VectorStore.InMemoryVectorStore.Scroll`: similarity search, cosine distance and listing file paths are left out.
- `SourceRebuild.FittingWindowsRoundTrip`: one way for the whole file alone, where the converse is false by `SourceRebuild.FaultsCanCancel`; the equivalence is over every chunk.
- `Chunker.Split`: the splitter's output and the symbol pattern are inputs; the embedding text is left out.
- `Sampling.SampleChunks`: the shuffle is an input, any permutation of the file names; assigning question types is left out.
- `EvalRunner.EvalRun.Run`: answering and judging are inputs; the missing run, the missing index and the other embedding model, which end a job before it starts, are left out, as is announcing the run.
- `EvalWorkers.ResultsCarryOneStamp`: a sufficient condition; `EvalWorkers.StampIsKeptIff` has the exact one.
- `EvalWorkers.Next`: the seven provenance fields are one value, and a worker runs one job at a time.
- The checklist and mock-data generators repeat the lease protocol through other code and are not part of this model; neither are access rules beyond live events, permissions, languages, repository addresses, mail wording, migrations and the frontend.
