/** Answering an eval run in batches, over any sequence of attempts one after the other
    (`eval/runner.py`). A model's answers are inputs: `Answer` is what a pair's answer and verdict came to. */
module EvalRunner {
  import opened Prelude

  type PairId = nat

  const RESULT_BATCH: nat := 10

  datatype Verdict = Correct | Partial | Wrong | Error

  datatype Answer = Answer(hit: bool, verdict: Verdict)

  /** The values of the provenance fields, and a row's own, each absent until it is stamped. */
  type Stamp = seq<string>
  type Stamped = seq<Option<string>>

  /** `made` is the provenance the answer was really made under; the row stores it on the run alone. */
  datatype Result = Result(pair: PairId, answer: Answer, made: Stamp)

  datatype Summary = Summary(answered: nat, hits: nat, correct: nat, partial: nat, wrong: nat, errors: nat)

  /** `summary` is written by the release that finishes the run. */
  datatype RunRow = RunRow(stamped: Stamped, results: seq<Result>, summary: Option<Summary>)

  // ----- Provenance -----

  predicate Compatible(stamped: Stamped, stamp: Stamp) {
    |stamped| == |stamp| && forall i :: 0 <= i < |stamp| ==> stamped[i] == None || stamped[i] == Some(stamp[i])
  }

  function Full(stamp: Stamp): Stamped {
    seq(|stamp|, i requires 0 <= i < |stamp| => Some(stamp[i]))
  }

  /** `_stamp_provenance`: what is stamped is compared, what is missing is filled in, and a
      mismatch writes nothing. */
  method StampProvenance(stamped: Stamped, stamp: Stamp) returns (ok: bool, written: Stamped)
    requires |stamped| == |stamp|
    ensures ok <==> Compatible(stamped, stamp)
    ensures written == if ok then Full(stamp) else stamped
    // field by field: refused for one that was stamped otherwise; else all are as given
    ensures ok <==> forall i :: 0 <= i < |stamp| && stamped[i].Some? ==> stamped[i].value == stamp[i]
    ensures ok ==> |written| == |stamp| && forall i :: 0 <= i < |stamp| ==> written[i] == Some(stamp[i])
  {
    ok, written := true, stamped;
    for i := 0 to |stamp|
      invariant ok <==> forall k :: 0 <= k < i ==> stamped[k] == None || stamped[k] == Some(stamp[k])
    {
      if stamped[i] != None && stamped[i] != Some(stamp[i]) {
        ok := false;
      }
    }
    if !ok {
      return;
    }
    for i := 0 to |stamp|
      invariant |written| == |stamp|
      invariant forall k :: 0 <= k < i ==> written[k] == Some(stamp[k])
      invariant forall k :: i <= k < |stamp| ==> written[k] == stamped[k]
    {
      if written[i] == None {
        written := written[i := Some(stamp[i])];
      }
    }
  }

  // ----- One attempt -----

  /** How one chunk of pairs came out: all answered, with what the lease check would find; or one of them
      raised - or the process died - with `completed` answers lost on the way. */
  datatype Fate = Finished(renewalDone: bool, held: bool) | Broke(completed: nat)

  datatype Attempt = Attempt(stamp: Stamp, included: seq<PairId>, width: nat, fates: nat -> Fate,
                             answers: PairId -> Answer, renewalDone: bool, released: bool)

  ghost predicate AttemptOk(a: Attempt) {
    a.width >= 1 && Distinct(a.included)
  }

  predicate Answered(results: seq<Result>, p: PairId) {
    exists i :: 0 <= i < |results| && results[i].pair == p
  }

  /** The included pairs without a committed result, in order. */
  function Pending(included: seq<PairId>, results: seq<Result>): seq<PairId> {
    if included == [] then []
    else
      var last := included[|included| - 1];
      Pending(included[..|included| - 1], results) + (if Answered(results, last) then [] else [last])
  }

  function ResultOf(p: PairId, a: Attempt): Result {
    Result(p, a.answers(p), a.stamp)
  }

  function Results(pairs: seq<PairId>, a: Attempt): (r: seq<Result>)
    ensures |r| == |pairs|
  {
    if pairs == [] then [] else Results(pairs[..|pairs| - 1], a) + [ResultOf(pairs[|pairs| - 1], a)]
  }

  /** How far an attempt gets: the answers it committed, those it produced, and whether it came to the
      end of the loop. `start` answers are behind it and the last `unsaved` of them not committed. */
  datatype Progress = Progress(kept: int, produced: int, finished: bool)

  function Loop(n: nat, a: Attempt, k: nat, start: nat, unsaved: nat): Progress
    requires a.width >= 1
    decreases n - start
  {
    if start >= n then Progress(start - unsaved, start, true)
    else
      var chunk := Min(a.width, n - start);
      match a.fates(k)
      case Broke(completed) => Progress(start - unsaved, start + Min(completed, chunk), false)
      case Finished(done, held) =>
        if unsaved + chunk < RESULT_BATCH then Loop(n, a, k + 1, start + chunk, unsaved + chunk)
        else if done || !held then Progress(start - unsaved, start + chunk, false)
        else Loop(n, a, k + 1, start + chunk, 0)
  }

  predicate Finishes(p: Progress, a: Attempt) {
    p.finished && !a.renewalDone && a.released
  }

  function Count(rows: seq<Result>, v: Verdict): nat {
    if rows == [] then 0 else Count(rows[..|rows| - 1], v) + (if rows[|rows| - 1].answer.verdict == v then 1 else 0)
  }

  function Hits(rows: seq<Result>): nat {
    if rows == [] then 0 else Hits(rows[..|rows| - 1]) + (if rows[|rows| - 1].answer.hit then 1 else 0)
  }

  function Tally(rows: seq<Result>): Summary {
    Summary(|rows|, Hits(rows), Count(rows, Correct), Count(rows, Partial), Count(rows, Wrong), Count(rows, Error))
  }

  lemma {:induction false} TalliesAddUp(rows: seq<Result>)
    ensures var t := Tally(rows);
            t.correct + t.partial + t.wrong + t.errors == t.answered == |rows|
            && t.hits <= t.answered
    decreases |rows|
  {
    if rows != [] {
      TalliesAddUp(rows[..|rows| - 1]);
    }
  }

  function WithVerdict(rows: seq<Result>, v: Verdict): set<nat> {
    set i: nat | i < |rows| && rows[i].answer.verdict == v
  }

  function WithHit(rows: seq<Result>): set<nat> {
    set i: nat | i < |rows| && rows[i].answer.hit
  }

  /** The summary counts the results: in all, those whose retrieval hit, and each verdict's own. */
  predicate Summarises(s: Summary, rows: seq<Result>) {
    && s.answered == |rows| && s.hits == |WithHit(rows)|
    && s.correct == |WithVerdict(rows, Correct)| && s.partial == |WithVerdict(rows, Partial)|
    && s.wrong == |WithVerdict(rows, Wrong)| && s.errors == |WithVerdict(rows, Error)|
  }

  lemma {:induction false} CountIsTheSet(rows: seq<Result>, v: Verdict)
    ensures Count(rows, v) == |WithVerdict(rows, v)|
    decreases |rows|
  {
    if rows != [] {
      var n := |rows| - 1;
      CountIsTheSet(rows[..n], v);
      assert WithVerdict(rows, v) == WithVerdict(rows[..n], v) + (if rows[n].answer.verdict == v then {n} else {});
    }
  }

  lemma {:induction false} HitsAreTheSet(rows: seq<Result>)
    ensures Hits(rows) == |WithHit(rows)|
    decreases |rows|
  {
    if rows != [] {
      var n := |rows| - 1;
      HitsAreTheSet(rows[..n]);
      assert WithHit(rows) == WithHit(rows[..n]) + (if rows[n].answer.hit then {n} else {});
    }
  }

  lemma TallySummarises(rows: seq<Result>)
    ensures Summarises(Tally(rows), rows)
  {
    HitsAreTheSet(rows);
    CountIsTheSet(rows, Correct);
    CountIsTheSet(rows, Partial);
    CountIsTheSet(rows, Wrong);
    CountIsTheSet(rows, Error);
  }

  /** Every lease check of the attempt would find the lease lost. */
  ghost predicate NeverHeld(a: Attempt) {
    forall k :: a.fates(k).Finished? ==> a.fates(k).renewalDone || !a.fates(k).held
  }

  /** Nothing goes wrong: every pair is answered and the lease is there at every check. */
  ghost predicate Smooth(a: Attempt) {
    && (forall k :: a.fates(k) == Finished(false, true)) && !a.renewalDone && a.released
  }

  lemma {:induction false} LoopWithoutTheLease(n: nat, a: Attempt, k: nat, start: nat, unsaved: nat)
    requires a.width >= 1 && NeverHeld(a) && unsaved <= start <= n
    ensures Loop(n, a, k, start, unsaved).kept == start - unsaved
    decreases n - start
  {
    if start < n && a.fates(k).Finished? {
      var chunk := Min(a.width, n - start);
      if unsaved + chunk < RESULT_BATCH {
        LoopWithoutTheLease(n, a, k + 1, start + chunk, unsaved + chunk);
      }
    }
  }

  lemma {:induction false} SmoothLoop(n: nat, a: Attempt, k: nat, start: nat, unsaved: nat)
    requires a.width >= 1 && Smooth(a) && start <= n
    ensures Loop(n, a, k, start, unsaved).finished
    decreases n - start
  {
    if start < n {
      var chunk := Min(a.width, n - start);
      SmoothLoop(n, a, k + 1, start + chunk, if unsaved + chunk < RESULT_BATCH then unsaved + chunk else 0);
    }
  }

  /** An attempt that never finds the lease commits nothing, and one that loses it at the end does not finish
      the run; one that nothing disturbs finishes it. */
  lemma LeaseDecides(row: RunRow, a: Attempt)
    requires a.width >= 1 && row.summary.None? && Compatible(row.stamped, a.stamp)
    ensures NeverHeld(a) && (a.renewalDone || !a.released) ==>
            After(row, a).results == row.results && After(row, a).summary == None
    ensures a.renewalDone || !a.released ==> After(row, a).summary == None
    ensures Smooth(a) ==> After(row, a).summary.Some?
  {
    var pending := Pending(a.included, row.results);
    if NeverHeld(a) {
      LoopWithoutTheLease(|pending|, a, 0, 0, 0);
      assert pending[..0] == [];
    }
    if Smooth(a) {
      SmoothLoop(|pending|, a, 0, 0, 0);
    }
  }

  function Kept(row: RunRow, a: Attempt): Progress
    requires a.width >= 1
  {
    Loop(|Pending(a.included, row.results)|, a, 0, 0, 0)
  }

  /** What one interruption costs: the batch not yet full and the chunk in hand. */
  lemma {:induction false} InterruptionLosesLittle(n: nat, a: Attempt, k: nat, start: nat, unsaved: nat)
    requires a.width >= 1 && unsaved <= start <= n && unsaved < RESULT_BATCH
    ensures var p := Loop(n, a, k, start, unsaved);
            && start - unsaved <= p.kept <= p.produced <= n
            && (p.finished ==> p.produced == n && p.produced - p.kept < 10)
            && p.produced - p.kept <= 9 + a.width
    decreases n - start
  {
    if start < n {
      var chunk := Min(a.width, n - start);
      if a.fates(k).Finished? {
        if unsaved + chunk < RESULT_BATCH {
          InterruptionLosesLittle(n, a, k + 1, start + chunk, unsaved + chunk);
        } else if !a.fates(k).renewalDone && a.fates(k).held {
          InterruptionLosesLittle(n, a, k + 1, start + chunk, 0);
        }
      }
    }
  }

  /** The row after the attempt; a run that is done, or was stamped otherwise, is left as it is. */
  function After(row: RunRow, a: Attempt): RunRow
    requires a.width >= 1
  {
    if row.summary.Some? || !Compatible(row.stamped, a.stamp) then row
    else
      var pending := Pending(a.included, row.results);
      InterruptionLosesLittle(|pending|, a, 0, 0, 0);
      var p := Kept(row, a);
      if Finishes(p, a) then
        var rows := row.results + Results(pending, a);
        RunRow(Full(a.stamp), rows, Some(Tally(rows)))
      else
        RunRow(Full(a.stamp), row.results + Results(pending[..p.kept], a), None)
  }

  // ----- What every attempt keeps -----

  ghost predicate OnePerPair(results: seq<Result>) {
    forall i, j :: 0 <= i < j < |results| ==> results[i].pair != results[j].pair
  }

  ghost predicate OneStamp(row: RunRow) {
    forall i :: 0 <= i < |row.results| ==> row.stamped == Full(row.results[i].made)
  }

  ghost predicate Inv(row: RunRow) {
    && OnePerPair(row.results)
    && OneStamp(row)
    && (row.summary.Some? ==> row.summary.value == Tally(row.results))
  }

  lemma {:induction false} PendingIsTheRest(included: seq<PairId>, results: seq<Result>)
    requires Distinct(included)
    ensures Distinct(Pending(included, results))
    ensures forall p :: p in Pending(included, results) <==> p in included && !Answered(results, p)
    decreases |included|
  {
    if included != [] {
      var b, last := included[..|included| - 1], included[|included| - 1];
      PendingIsTheRest(b, results);
      assert included == b + [last];
      assert last !in b;
    }
  }

  lemma {:induction false} ResultsAre(pairs: seq<PairId>, a: Attempt)
    ensures forall i :: 0 <= i < |pairs| ==> Results(pairs, a)[i] == ResultOf(pairs[i], a)
    decreases |pairs|
  {
    if pairs != [] {
      ResultsAre(pairs[..|pairs| - 1], a);
    }
  }

  lemma SavingKeepsOnePerPair(results: seq<Result>, included: seq<PairId>, n: nat, a: Attempt)
    requires OnePerPair(results) && Distinct(included) && n <= |Pending(included, results)|
    ensures OnePerPair(results + Results(Pending(included, results)[..n], a))
  {
    var saved := Pending(included, results)[..n];
    PendingIsTheRest(included, results);
    ResultsAre(saved, a);
    forall i, j | 0 <= i < |results| && 0 <= j < n ensures results[i].pair != saved[j] {
      assert saved[j] in Pending(included, results);
    }
  }

  lemma CompatibleWithFull(stamp: Stamp, other: Stamp)
    requires Compatible(Full(stamp), other)
    ensures other == stamp
  {
    forall i | 0 <= i < |other| ensures other[i] == stamp[i] {
      assert Full(stamp)[i] == Some(stamp[i]);
    }
  }

  lemma SavingKeepsOneStamp(row: RunRow, saved: seq<PairId>, a: Attempt, summary: Option<Summary>)
    requires OneStamp(row) && Compatible(row.stamped, a.stamp)
    ensures OneStamp(RunRow(Full(a.stamp), row.results + Results(saved, a), summary))
  {
    ResultsAre(saved, a);
    forall i | 0 <= i < |row.results| ensures row.results[i].made == a.stamp {
      CompatibleWithFull(row.results[i].made, a.stamp);
    }
  }

  lemma AttemptKeepsInv(row: RunRow, a: Attempt)
    requires Inv(row) && AttemptOk(a)
    ensures Inv(After(row, a)) && row.results <= After(row, a).results
  {
    if row.summary.None? && Compatible(row.stamped, a.stamp) {
      var pending := Pending(a.included, row.results);
      InterruptionLosesLittle(|pending|, a, 0, 0, 0);
      var n := if Finishes(Kept(row, a), a) then |pending| else Kept(row, a).kept;
      assert pending[..|pending|] == pending;
      SavingKeepsOnePerPair(row.results, a.included, n, a);
      SavingKeepsOneStamp(row, pending[..n], a, After(row, a).summary);
    }
  }

  predicate AnsweredOnce(results: seq<Result>, p: PairId) {
    exists i :: 0 <= i < |results| && results[i].pair == p
        && forall j :: 0 <= j < |results| && j != i ==> results[j].pair != p
  }

  /** An attempt that finishes the run leaves exactly one result for each pair included when it began,
      and a summary that adds up. */
  lemma DoneAnswersEveryPairOnce(row: RunRow, a: Attempt, p: PairId)
    requires Inv(row) && AttemptOk(a) && row.summary.None? && After(row, a).summary.Some? && p in a.included
    ensures AnsweredOnce(After(row, a).results, p)
    ensures var s := After(row, a).summary.value;
            s.correct + s.partial + s.wrong + s.errors == s.answered == |After(row, a).results|
  {
    var rows := After(row, a).results;
    var pending := Pending(a.included, row.results);
    AttemptKeepsInv(row, a);
    TalliesAddUp(rows);
    PendingIsTheRest(a.included, row.results);
    ResultsAre(pending, a);
    var i: nat;
    if Answered(row.results, p) {
      i :| 0 <= i < |row.results| && row.results[i].pair == p;
    } else {
      var k :| 0 <= k < |pending| && pending[k] == p;
      i := |row.results| + k;
    }
    assert rows[i].pair == p;
  }

  /** Answered in this attempt, and made under its provenance. */
  predicate IsNew(r: Result, a: Attempt) {
    r.pair in a.included && r.answer == a.answers(r.pair) && r.made == a.stamp
  }

  /** The results of `before` are still there, those after them are the attempt's own, and a summary counts
      them all. */
  ghost predicate AddsItsOwn(before: RunRow, after: RunRow, a: Attempt) {
    && before.results <= after.results
    && (forall i :: |before.results| <= i < |after.results| ==> IsNew(after.results[i], a))
    && (after.summary.Some? ==> Summarises(after.summary.value, after.results))
  }

  lemma SavedAreNew(row: RunRow, a: Attempt, n: nat)
    requires AttemptOk(a) && n <= |Pending(a.included, row.results)|
    ensures forall i :: 0 <= i < n ==> IsNew(Results(Pending(a.included, row.results)[..n], a)[i], a)
  {
    var saved := Pending(a.included, row.results)[..n];
    PendingIsTheRest(a.included, row.results);
    ResultsAre(saved, a);
    forall i | 0 <= i < n ensures IsNew(Results(saved, a)[i], a) {
      assert saved[i] in Pending(a.included, row.results);
    }
  }

  lemma AttemptAddsItsOwn(row: RunRow, a: Attempt)
    requires AttemptOk(a) && row.summary.None?
    ensures AddsItsOwn(row, After(row, a), a)
  {
    if Compatible(row.stamped, a.stamp) {
      var pending := Pending(a.included, row.results);
      InterruptionLosesLittle(|pending|, a, 0, 0, 0);
      var n := if Finishes(Kept(row, a), a) then |pending| else Kept(row, a).kept;
      assert pending[..|pending|] == pending;
      SavedAreNew(row, a, n);
      assert After(row, a).results == row.results + Results(pending[..n], a);
      TallySummarises(After(row, a).results);
    }
  }

  // ----- Any number of attempts -----

  const NEW_RUN: RunRow := RunRow([None, None, None, None, None, None, None], [], None)

  ghost predicate AllOk(attempts: seq<Attempt>) {
    forall i :: 0 <= i < |attempts| ==> AttemptOk(attempts[i])
  }

  function AfterAll(attempts: seq<Attempt>): RunRow
    requires forall i :: 0 <= i < |attempts| ==> attempts[i].width >= 1
  {
    if attempts == [] then NEW_RUN
    else After(AfterAll(attempts[..|attempts| - 1]), attempts[|attempts| - 1])
  }

  /** The answers one attempt asked the models for. */
  function Produced(row: RunRow, a: Attempt): int
    requires a.width >= 1
  {
    if row.summary.Some? || !Compatible(row.stamped, a.stamp) then 0 else Kept(row, a).produced
  }

  function TotalProduced(attempts: seq<Attempt>): int
    requires forall i :: 0 <= i < |attempts| ==> attempts[i].width >= 1
  {
    if attempts == [] then 0
    else
      var b := attempts[..|attempts| - 1];
      TotalProduced(b) + Produced(AfterAll(b), attempts[|attempts| - 1])
  }

  function WorstLoss(attempts: seq<Attempt>): nat
    requires forall i :: 0 <= i < |attempts| ==> attempts[i].width >= 1
  {
    if attempts == [] then 0
    else WorstLoss(attempts[..|attempts| - 1]) + RESULT_BATCH - 1 + attempts[|attempts| - 1].width
  }

  /** Over any sequence of attempts, each cut off anywhere: one result a pair, all made under the one
      provenance the row carries, a summary that counts them, and nothing asked for twice beyond what each
      interruption may lose. */
  lemma {:induction false} EverySequenceOfAttemptsIsSound(attempts: seq<Attempt>)
    requires AllOk(attempts)
    ensures Inv(AfterAll(attempts))
    ensures |AfterAll(attempts).results| <= TotalProduced(attempts)
            <= |AfterAll(attempts).results| + WorstLoss(attempts)
    decreases |attempts|
  {
    if attempts != [] {
      var b, a := attempts[..|attempts| - 1], attempts[|attempts| - 1];
      EverySequenceOfAttemptsIsSound(b);
      var row := AfterAll(b);
      assert AttemptOk(a);
      AttemptKeepsInv(row, a);
      InterruptionLosesLittle(|Pending(a.included, row.results)|, a, 0, 0, 0);
    }
  }

  // ----- The loop itself -----

  lemma {:induction false} ResultsAppend(pairs: seq<PairId>, start: nat, end: nat, a: Attempt)
    requires start <= end <= |pairs|
    ensures Results(pairs[..end], a) == Results(pairs[..start], a) + Results(pairs[start..end], a)
    decreases end
  {
    if start < end {
      ResultsAppend(pairs, start, end - 1, a);
      assert pairs[..end][..end - 1] == pairs[..end - 1];
      assert pairs[start..end][..end - start - 1] == pairs[start..end - 1];
    }
  }

  /** In the loop: `saved` of the pending pairs are committed and those up to `start` are in the session. */
  ghost predicate Midway(before: seq<Result>, results: seq<Result>, session: seq<Result>,
                         pending: seq<PairId>, saved: nat, start: nat, a: Attempt) {
    && saved <= start <= |pending| && start - saved == |session|
    && results == before + Results(pending[..saved], a)
    && session == Results(pending[saved..start], a)
  }

  ghost predicate Committed(before: seq<Result>, results: seq<Result>, pending: seq<PairId>, saved: int, a: Attempt) {
    0 <= saved <= |pending| && results == before + Results(pending[..saved], a)
  }

  lemma ChunkIsAnswered(before: seq<Result>, results: seq<Result>, session: seq<Result>,
                        pending: seq<PairId>, saved: nat, start: nat, end: nat, a: Attempt)
    requires Midway(before, results, session, pending, saved, start, a) && start <= end <= |pending|
    ensures Midway(before, results, session + Results(pending[start..end], a), pending, saved, end, a)
  {
    var rest := pending[saved..];
    ResultsAppend(rest, start - saved, end - saved, a);
    assert rest[..end - saved] == pending[saved..end] && rest[..start - saved] == pending[saved..start];
    assert rest[start - saved..end - saved] == pending[start..end];
  }

  lemma BatchIsCommitted(before: seq<Result>, results: seq<Result>, session: seq<Result>,
                         pending: seq<PairId>, saved: nat, start: nat, a: Attempt)
    requires Midway(before, results, session, pending, saved, start, a)
    ensures Midway(before, results + session, [], pending, start, start, a)
  {
    ResultsAppend(pending, saved, start, a);
  }

  /** What is in the store when an attempt does not finish the run. */
  lemma CutOffIsAfter(row: RunRow, a: Attempt)
    requires a.width >= 1 && row.summary.None? && Compatible(row.stamped, a.stamp) && !Finishes(Kept(row, a), a)
    ensures var p := Kept(row, a);
            0 <= p.kept <= |Pending(a.included, row.results)|
            && After(row, a) ==
               RunRow(Full(a.stamp), row.results + Results(Pending(a.included, row.results)[..p.kept], a),
                                       None)
  {
    InterruptionLosesLittle(|Pending(a.included, row.results)|, a, 0, 0, 0);
  }

  /** And what is when it does: the committed part and the session's. */
  lemma FinishedIsAfter(row: RunRow, a: Attempt, session: seq<Result>)
    requires a.width >= 1 && row.summary.None? && Compatible(row.stamped, a.stamp) && Finishes(Kept(row, a), a)
    requires 0 <= Kept(row, a).kept <= |Pending(a.included, row.results)|
    requires session == Results(Pending(a.included, row.results)[Kept(row, a).kept..], a)
    ensures var rows := row.results + Results(Pending(a.included, row.results)[..Kept(row, a).kept], a) + session;
            After(row, a) == RunRow(Full(a.stamp), rows, Some(Tally(rows)))
  {
    var pending, kept := Pending(a.included, row.results), Kept(row, a).kept;
    ResultsAppend(pending, kept, |pending|, a);
    assert pending[..|pending|] == pending && pending[kept..|pending|] == pending[kept..];
    assert row.results + Results(pending[..kept], a) + session == row.results + Results(pending, a);
  }

  datatype Outcome = Done | Terminal | Retryable

  class EvalRun {
    var stamped: Stamped
    var results: seq<Result>
    var summary: Option<Summary>

    constructor ()
      ensures View() == NEW_RUN
    {
      stamped, results, summary := [None, None, None, None, None, None, None], [], None;
    }

    ghost function View(): RunRow
      reads this
    {
      RunRow(stamped, results, summary)
    }

    /** `hold_for_commit` and the heartbeat, then the commit of the session's results. */
    method CommitBatch(session: seq<Result>, renewalDone: bool, held: bool) returns (ok: bool)
      modifies this`results
      ensures ok == (!renewalDone && held)
      ensures results == if ok then old(results) + session else old(results)
    {
      ok := !renewalDone && held;
      if ok {
        results := results + session;
      }
    }

    /** One chunk: answer its pairs, and commit the session's results once they fill a batch. `ok` is
        false when a pair or the lease check raises: uncommitted results are then dropped, and a
        redelivery answers them again. */
    method OneChunk(chunk: seq<PairId>, fate: Fate, session: seq<Result>, a: Attempt)
      returns (ok: bool, produced: nat, left: seq<Result>)
      modifies this`results
      ensures ok <==> fate.Finished? && (|session| + |chunk| < 10 || (!fate.renewalDone && fate.held))
      ensures produced == if fate.Broke? then Min(fate.completed, |chunk|) else |chunk|
      ensures if ok && |session| + |chunk| >= 10
              then left == [] && results == old(results) + (session + Results(chunk, a))
              else results == old(results) && (ok ==> left == session + Results(chunk, a))
    {
      left := [];
      if fate.Broke? {
        return false, Min(fate.completed, |chunk|), left;
      }
      var answered := AnswerChunk(chunk, a);
      left := session + answered;
      ok, produced := true, |chunk|;
      if |left| >= RESULT_BATCH {
        ok := CommitBatch(left, fate.renewalDone, fate.held);
        left := [];
      }
    }

    /** The loop over the chunks: how far it comes, and the session's results still to be committed. */
    method AnswerInBatches(pending: seq<PairId>, a: Attempt)
        returns (finished: bool, produced: nat, session: seq<Result>)
      requires a.width >= 1
      modifies this`results
      ensures var p := Loop(|pending|, a, 0, 0, 0);
              && finished == p.finished && produced == p.produced
              && Committed(old(results), results, pending, p.kept, a)
              && (finished ==> session == Results(pending[p.kept..], a))
    {
      ghost var before := results;
      session := [];
      var start, k := 0, 0;
      ghost var saved: nat := 0;
      while start < |pending|
        invariant Midway(before, results, session, pending, saved, start, a) && |session| < RESULT_BATCH
        invariant Loop(|pending|, a, k, start, |session|) == Loop(|pending|, a, 0, 0, 0)
        decreases |pending| - start
      {
        var end := start + Min(a.width, |pending| - start);
        ChunkIsAnswered(before, results, session, pending, saved, start, end, a);
        if |session| + (end - start) >= RESULT_BATCH {
          BatchIsCommitted(before, results, session + Results(pending[start..end], a), pending, saved, end, a);
        }
        var ok, n, left := OneChunk(pending[start..end], a.fates(k), session, a);
        if !ok {
          return false, start + n, [];
        }
        saved := if |session| + n < RESULT_BATCH then saved else end;
        session, start, k := left, end, k + 1;
      }
      assert pending[saved..start] == pending[saved..];
      return true, start, session;
    }

    /** `run`, once the run is claimed. */
    method Run(a: Attempt) returns (outcome: Outcome, produced: nat)
      requires AttemptOk(a) && |a.stamp| == |stamped| && summary.None?
      modifies this
      ensures View() == After(old(View()), a)
      ensures produced == Produced(old(View()), a)
      ensures outcome == Done <==> summary.Some?
      ensures outcome == Terminal <==> !Compatible(old(stamped), a.stamp)
      // what was there stays, what is new is this attempt's own, and the summary counts them all
      ensures AddsItsOwn(old(View()), View(), a)
    {
      ghost var row := View();
      AttemptAddsItsOwn(row, a);
      var ok, written := StampProvenance(stamped, a.stamp);
      if !ok {
        return Terminal, 0;
      }
      stamped := written;
      var pending := ListPending(a.included);
      var finished, session;
      finished, produced, session := AnswerInBatches(pending, a);
      if !finished || a.renewalDone || !a.released {
        CutOffIsAfter(row, a);
        return Retryable, produced;
      }
      FinishedIsAfter(row, a, session);
      results := results + session;
      summary := Some(Tally(results));
      outcome := Done;
    }

    method ListPending(included: seq<PairId>) returns (pending: seq<PairId>)
      ensures pending == Pending(included, results)
    {
      var done := set i | 0 <= i < |results| :: results[i].pair;
      pending := [];
      for i := 0 to |included|
        invariant pending == Pending(included[..i], results)
      {
        assert included[..i + 1][..i] == included[..i];
        if included[i] !in done {
          pending := pending + [included[i]];
        }
      }
      assert included[..|included|] == included;
    }

    /** `_gather` of the chunk's answers. */
    method AnswerChunk(chunk: seq<PairId>, a: Attempt) returns (finished: seq<Result>)
      ensures finished == Results(chunk, a)
    {
      finished := [];
      for i := 0 to |chunk|
        invariant finished == Results(chunk[..i], a)
      {
        assert chunk[..i + 1][..i] == chunk[..i];
        finished := finished + [ResultOf(chunk[i], a)];
      }
      assert chunk[..|chunk|] == chunk;
    }
  }
}
