/** Several workers at one eval run: leases that lapse under a worker still running, and what its later
    writes can still do (`eval/runner.py`, `repositories/eval_run.py`). The seven provenance fields are one
    value here, and a worker runs one job at a time. */
module EvalWorkers {
  import opened Prelude

  type WorkerId = nat
  type PairId = nat
  type Stamp = nat

  datatype Result = Result(pair: PairId, made: Stamp)

  /** A worker between two steps of `run`: `seen` is the stamp on the row when it loaded it. */
  datatype Phase =
    | Idle
    | Claimed
    | Loaded(seen: Option<Stamp>, mine: Stamp)
    | Stamping(mine: Stamp)
    | Working(mine: Stamp, pending: seq<PairId>, unsaved: seq<PairId>)

  datatype State = State(owner: Option<WorkerId>, closed: bool, stamp: Option<Stamp>, results: seq<Result>,
                         phases: map<WorkerId, Phase>)

  datatype Step =
    | Claim(w: WorkerId)                       // the lease is free, or has lapsed
    | Load(w: WorkerId, mine: Stamp)
    | WriteStamp(w: WorkerId)                  // committed with no look at the lease
    | List(w: WorkerId, included: seq<PairId>)
    | Answer(w: WorkerId, n: nat)
    | CommitBatch(w: WorkerId)
    | Finish(w: WorkerId)                      // the release and the last results, in one transaction
    | Stop(w: WorkerId)                        // a failure, a crash, a refused check
    | Close(w: WorkerId)                       // the release of a failed run

  const INITIAL := State(None, false, None, [], map[])

  function At(s: State, w: WorkerId): Phase {
    if w in s.phases then s.phases[w] else Idle
  }

  function With(s: State, w: WorkerId, p: Phase): State {
    s.(phases := s.phases[w := p])
  }

  function Pairs(results: seq<Result>): set<PairId> {
    set i | 0 <= i < |results| :: results[i].pair
  }

  function Unanswered(included: seq<PairId>, done: set<PairId>): seq<PairId> {
    if included == [] then []
    else Unanswered(included[..|included| - 1], done)
         + (if included[|included| - 1] in done then [] else [included[|included| - 1]])
  }

  function Made(pairs: seq<PairId>, stamp: Stamp): (r: seq<Result>)
    ensures |r| == |pairs|
  {
    seq(|pairs|, i requires 0 <= i < |pairs| => Result(pairs[i], stamp))
  }

  ghost predicate Enabled(s: State, step: Step) {
    match step
    case Claim(w) => !s.closed && At(s, w).Idle?
    case Load(w, _) => At(s, w).Claimed?
    case WriteStamp(w) => At(s, w).Loaded?
    case List(w, included) => At(s, w).Stamping? && Distinct(included)
    case Answer(w, n) => At(s, w).Working? && n <= |At(s, w).pending|
    case CommitBatch(w) => At(s, w).Working? && s.owner == Some(w)
    case Finish(w) => At(s, w).Working? && At(s, w).pending == [] && s.owner == Some(w)
    case Stop(w) => true
    case Close(w) => s.owner == Some(w)
  }

  function Next(s: State, step: Step): State {
    match step
    case Claim(w) => With(s, w, Claimed).(owner := Some(w))
    case Load(w, mine) => With(s, w, Loaded(s.stamp, mine))
    case WriteStamp(w) =>
      if !At(s, w).Loaded? then s
      else
        var p := At(s, w);
        if p.seen == None then With(s, w, Stamping(p.mine)).(stamp := Some(p.mine))
        else if p.seen == Some(p.mine) then With(s, w, Stamping(p.mine))
        else With(s, w, Idle)
    case List(w, included) =>
      if !At(s, w).Stamping? then s
      else With(s, w, Working(At(s, w).mine, Unanswered(included, Pairs(s.results)), []))
    case Answer(w, n) =>
      if !At(s, w).Working? || n > |At(s, w).pending| then s
      else
        var p := At(s, w);
        With(s, w, Working(p.mine, p.pending[n..], p.unsaved + p.pending[..n]))
    case CommitBatch(w) =>
      if !At(s, w).Working? then s
      else
        var p := At(s, w);
        With(s, w, Working(p.mine, p.pending, [])).(results := s.results + Made(p.unsaved, p.mine))
    case Finish(w) =>
      if !At(s, w).Working? then s
      else
        var p := At(s, w);
        With(s, w, Idle).(results := s.results + Made(p.unsaved, p.mine), owner := None, closed := true)
    case Stop(w) => With(s, w, Idle)
    case Close(w) => With(s, w, Idle).(owner := None, closed := true)
  }

  ghost predicate Legal(steps: seq<Step>) {
    steps == [] || (Legal(steps[..|steps| - 1]) && Enabled(After(steps[..|steps| - 1]), steps[|steps| - 1]))
  }

  function After(steps: seq<Step>): State {
    if steps == [] then INITIAL else Next(After(steps[..|steps| - 1]), steps[|steps| - 1])
  }

  // ----- One result a pair, whoever commits -----

  predicate OnePerPair(results: seq<Result>) {
    forall i, j :: 0 <= i < j < |results| ==> results[i].pair != results[j].pair
  }

  /** What the holder is answering: each pair once, none answered already. */
  ghost predicate FreshWork(results: seq<Result>, work: seq<PairId>) {
    Distinct(work) && forall p :: p in work ==> p !in Pairs(results)
  }

  ghost predicate HolderIsFresh(s: State) {
    s.owner.Some? && At(s, s.owner.value).Working? ==>
      FreshWork(s.results, At(s, s.owner.value).unsaved + At(s, s.owner.value).pending)
  }

  lemma {:induction false} UnansweredIsFresh(included: seq<PairId>, done: set<PairId>)
    requires Distinct(included)
    ensures Distinct(Unanswered(included, done))
    ensures forall p :: p in Unanswered(included, done) <==> p in included && p !in done
    decreases |included|
  {
    if included != [] {
      var b, last := included[..|included| - 1], included[|included| - 1];
      UnansweredIsFresh(b, done);
      assert included == b + [last] && last !in b;
    }
  }

  lemma CommitKeepsFresh(results: seq<Result>, saved: seq<PairId>, rest: seq<PairId>, stamp: Stamp)
    requires OnePerPair(results) && FreshWork(results, saved + rest)
    ensures OnePerPair(results + Made(saved, stamp)) && FreshWork(results + Made(saved, stamp), rest)
  {
    var work, after := saved + rest, results + Made(saved, stamp);
    forall i, j | 0 <= i < |results| && 0 <= j < |saved| ensures results[i].pair != saved[j] {
      assert work[j] == saved[j] && work[j] in work;
    }
    forall i, j | 0 <= i < j < |saved| ensures saved[i] != saved[j] {
      assert work[i] == saved[i] && work[j] == saved[j];
    }
    forall k | 0 <= k < |rest| ensures rest[k] !in Pairs(after) {
      assert work[|saved| + k] == rest[k] && rest[k] in work;
      forall i | 0 <= i < |after| ensures after[i].pair != rest[k] {
        if i < |results| {
          assert results[i].pair in Pairs(results);
        } else {
          assert work[i - |results|] == after[i].pair;
        }
      }
    }
    forall i, j | 0 <= i < j < |rest| ensures rest[i] != rest[j] {
      assert work[|saved| + i] == rest[i] && work[|saved| + j] == rest[j];
    }
  }

  lemma StepKeepsFresh(s: State, step: Step)
    requires Enabled(s, step) && OnePerPair(s.results) && HolderIsFresh(s)
    ensures OnePerPair(Next(s, step).results) && HolderIsFresh(Next(s, step))
  {
    match step
    case List(w, included) => UnansweredIsFresh(included, Pairs(s.results));
      assert [] + Unanswered(included, Pairs(s.results)) == Unanswered(included, Pairs(s.results));
    case Answer(w, n) =>
      var p := At(s, w);
      assert (p.unsaved + p.pending[..n]) + p.pending[n..] == p.unsaved + p.pending;
    case CommitBatch(w) =>
      var p := At(s, w);
      CommitKeepsFresh(s.results, p.unsaved, p.pending, p.mine);
      assert [] + p.pending == p.pending;
    case Finish(w) =>
      var p := At(s, w);
      CommitKeepsFresh(s.results, p.unsaved, p.pending, p.mine);
    case _ =>
  }

  lemma {:induction false} FreshAlways(steps: seq<Step>)
    requires Legal(steps)
    ensures OnePerPair(After(steps).results) && HolderIsFresh(After(steps))
    decreases |steps|
  {
    if steps != [] {
      FreshAlways(steps[..|steps| - 1]);
      StepKeepsFresh(After(steps[..|steps| - 1]), steps[|steps| - 1]);
    }
  }

  /** Whatever workers stall, lose the lease and come back, no pair is ever answered twice: without the
      unique index the lease check before each commit is enough. */
  lemma NoPairIsAnsweredTwice(steps: seq<Step>)
    requires Legal(steps)
    ensures OnePerPair(After(steps).results)
  {
    FreshAlways(steps);
  }

  // ----- One provenance -----

  predicate OneStamp(s: State) {
    forall i :: 0 <= i < |s.results| ==> s.stamp == Some(s.results[i].made)
  }

  predicate HolderAgrees(s: State) {
    s.owner.Some? ==>
      match At(s, s.owner.value)
      case Loaded(seen, _) => seen == s.stamp
      case Stamping(mine) => s.stamp == Some(mine)
      case Working(mine, _, _) => s.stamp == Some(mine)
      case _ => true
  }

  /** A worker that no longer holds the lease writes its stamp. */
  predicate StaleStamp(s: State, step: Step) {
    step.WriteStamp? && s.owner != Some(step.w)
  }

  predicate StaleAt(steps: seq<Step>, i: nat) {
    i < |steps| && StaleStamp(After(steps[..i]), steps[i])
  }

  lemma StepKeepsOneStamp(s: State, step: Step)
    requires Enabled(s, step) && OneStamp(s) && HolderAgrees(s) && !StaleStamp(s, step)
    ensures OneStamp(Next(s, step)) && HolderAgrees(Next(s, step))
  {
  }

  /** As long as no stale worker writes its stamp, every result was made under the one the run carries. */
  lemma {:induction false} ResultsCarryOneStamp(steps: seq<Step>)
    requires Legal(steps) && forall i: nat :: !StaleAt(steps, i)
    ensures OneStamp(After(steps)) && HolderAgrees(After(steps))
    decreases |steps|
  {
    if steps != [] {
      var b := steps[..|steps| - 1];
      forall i: nat ensures !StaleAt(b, i) {
        assert !StaleAt(steps, i);
        assert i < |b| ==> b[..i] == steps[..i];
      }
      ResultsCarryOneStamp(b);
      assert !StaleAt(steps, |b|);
      StepKeepsOneStamp(After(b), steps[|b|]);
    }
  }

  /** The step that breaks it, exactly: a stamp loaded as absent is written over results made under another,
      or results are committed under a stamp that has been replaced. */
  predicate Breaks(s: State, step: Step) {
    match step
    case WriteStamp(w) =>
      At(s, w).Loaded? && At(s, w).seen == None && s.results != [] && s.stamp != Some(At(s, w).mine)
    case CommitBatch(w) => At(s, w).Working? && At(s, w).unsaved != [] && s.stamp != Some(At(s, w).mine)
    case Finish(w) => At(s, w).Working? && At(s, w).unsaved != [] && s.stamp != Some(At(s, w).mine)
    case _ => false
  }

  lemma StampBreaksIff(s: State, step: Step)
    requires Enabled(s, step) && OneStamp(s)
    ensures OneStamp(Next(s, step)) <==> !Breaks(s, step)
  {
    var t := Next(s, step);
    if s.results != [] {
      assert s.stamp == Some(s.results[0].made);
    }
    if Breaks(s, step) && !step.WriteStamp? {
      assert t.results[|s.results|].made == At(s, step.w).mine;
    } else if Breaks(s, step) {
      assert t.results[0].made == s.results[0].made;
    }
  }

  /** The first `n` steps kept it. */
  predicate KeptAfter(steps: seq<Step>, n: nat)
    requires n <= |steps|
  {
    OneStamp(After(steps[..n]))
  }

  predicate BreaksAt(steps: seq<Step>, i: nat)
    requires i < |steps|
  {
    Breaks(After(steps[..i]), steps[i])
  }

  /** Every committed result was made under the stamp the run then carried, all along, if and only if there
      was no such step. */
  lemma {:induction false} StampIsKeptIff(steps: seq<Step>)
    requires Legal(steps)
    ensures (forall n :: 0 <= n <= |steps| ==> KeptAfter(steps, n))
       <==> (forall i :: 0 <= i < |steps| ==> !BreaksAt(steps, i))
    decreases |steps|
  {
    if steps != [] {
      var last := |steps| - 1;
      var b := steps[..last];
      StampIsKeptIff(b);
      assert forall n {:trigger b[..n]} {:trigger steps[..n]} :: 0 <= n <= last ==> b[..n] == steps[..n];
      assert forall n :: 0 <= n <= last ==> KeptAfter(b, n) == KeptAfter(steps, n);
      assert forall i :: 0 <= i < last ==> BreaksAt(b, i) == BreaksAt(steps, i);
      assert steps[..|steps|] == steps;
      if KeptAfter(steps, last) {
        StampBreaksIff(After(b), steps[last]);
        assert KeptAfter(steps, |steps|) <==> !BreaksAt(steps, last);
      }
    }
  }

  // ----- Whether it can still break -----

  /** The worker is yet to write a stamp other than the run's, having loaded none. */
  predicate IsLate(s: State, w: WorkerId) {
    At(s, w).Loaded? && At(s, w).seen == None && s.stamp != Some(At(s, w).mine)
  }

  ghost predicate SomeoneIsLate(s: State) {
    exists w :: IsLate(s, w)
  }

  /** The holder works under a stamp that has been replaced, and can still commit something. */
  predicate HolderIsOutdated(s: State) {
    s.owner.Some? &&
      match At(s, s.owner.value)
      case Loaded(seen, mine) => seen == Some(mine) && s.stamp != Some(mine)
      case Stamping(mine) => s.stamp != Some(mine)
      case Working(mine, pending, unsaved) => s.stamp != Some(mine) && (pending != [] || unsaved != [])
      case _ => false
  }

  ghost predicate AtRisk(s: State) {
    if s.closed then s.results != [] && SomeoneIsLate(s)
    else s.stamp == None || SomeoneIsLate(s) || HolderIsOutdated(s)
  }

  /** Some continuation ends with a result made under another stamp than the run's. */
  ghost predicate CanBreak(steps: seq<Step>) {
    exists more :: Legal(steps + more) && !OneStamp(After(steps + more))
  }

  lemma ClosedStepIsFree(s: State, step: Step)
    requires Enabled(s, step) && (s.closed ==> s.owner == None)
    ensures Next(s, step).closed ==> Next(s, step).owner == None
  {
  }

  lemma {:induction false} ClosedIsFree(steps: seq<Step>)
    requires Legal(steps)
    ensures After(steps).closed ==> After(steps).owner == None
    decreases |steps|
  {
    if steps != [] {
      ClosedIsFree(steps[..|steps| - 1]);
      ClosedStepIsFree(After(steps[..|steps| - 1]), steps[|steps| - 1]);
    }
  }

  lemma OutOfRiskDoesNotBreak(s: State, step: Step)
    requires Enabled(s, step) && OneStamp(s) && !AtRisk(s) && (s.closed ==> s.owner == None)
    ensures !Breaks(s, step)
  {
    if step.WriteStamp? {
      assert s.results == [] || !IsLate(s, step.w);
    }
  }

  lemma NobodyTurnsLate(s: State, step: Step, w: WorkerId)
    requires Enabled(s, step) && OneStamp(s) && !AtRisk(s) && (s.closed ==> s.owner == None)
    ensures IsLate(Next(s, step), w) ==> s.closed && s.results == [] && Next(s, step).results == []
  {
    assert s.results != [] ==> s.stamp == Some(s.results[0].made);
    assert !IsLate(s, w) || (s.closed && s.results == []);
    if step.WriteStamp? {
      assert !IsLate(s, step.w) || (s.closed && s.results == []);
    }
  }

  lemma StepKeepsOutOfRisk(s: State, step: Step)
    requires Enabled(s, step) && OneStamp(s) && !AtRisk(s) && (s.closed ==> s.owner == None)
    ensures OneStamp(Next(s, step)) && !AtRisk(Next(s, step))
  {
    OutOfRiskDoesNotBreak(s, step);
    StampBreaksIff(s, step);
    if w :| IsLate(Next(s, step), w) {
      NobodyTurnsLate(s, step, w);
    }
    if step.WriteStamp? {
      assert s.closed || !IsLate(s, step.w);
    }
  }

  lemma {:induction false} NothingBreaks(steps: seq<Step>, more: seq<Step>)
    requires Legal(steps + more) && Legal(steps) && OneStamp(After(steps)) && !AtRisk(After(steps))
    ensures OneStamp(After(steps + more)) && !AtRisk(After(steps + more))
    decreases |more|
  {
    var all := steps + more;
    if more == [] {
      assert all == steps;
    } else {
      var b := more[..|more| - 1];
      assert all[..|all| - 1] == steps + b;
      NothingBreaks(steps, b);
      ClosedIsFree(steps + b);
      StepKeepsOutOfRisk(After(steps + b), all[|all| - 1]);
    }
  }

  lemma Then(steps: seq<Step>, step: Step) returns (more: seq<Step>)
    requires Legal(steps) && Enabled(After(steps), step)
    ensures more == steps + [step] && Legal(more) && After(more) == Next(After(steps), step)
    ensures !OneStamp(After(more)) || CanBreak(more) ==> CanBreak(steps)
  {
    more := steps + [step];
    assert more[..|steps|] == steps;
    if !OneStamp(After(more)) {
      assert Legal(steps + [step]);
    } else if CanBreak(more) {
      var rest :| Legal(more + rest) && !OneStamp(After(more + rest));
      assert more + rest == steps + ([step] + rest);
    }
  }

  /** The holder has answers to commit under a stamp that has been replaced. */
  lemma UnsavedBreaks(steps: seq<Step>, w: WorkerId)
    requires Legal(steps) && After(steps).owner == Some(w) && At(After(steps), w).Working?
    requires At(After(steps), w).unsaved != [] && After(steps).stamp != Some(At(After(steps), w).mine)
    ensures CanBreak(steps)
  {
    var s := After(steps);
    var more := Then(steps, CommitBatch(w));
    assert After(more).results[|s.results|].made == At(s, w).mine;
  }

  lemma PendingBreaks(steps: seq<Step>, w: WorkerId)
    requires Legal(steps) && After(steps).owner == Some(w) && At(After(steps), w).Working?
    requires At(After(steps), w).pending != [] && After(steps).stamp != Some(At(After(steps), w).mine)
    ensures CanBreak(steps)
  {
    var more := Then(steps, Answer(w, 1));
    UnsavedBreaks(more, w);
  }

  lemma {:induction false} OneNotIn(done: set<PairId>) returns (p: PairId)
    ensures forall q :: q in done ==> q < p
    decreases |done|
  {
    p := 0;
    if q :| q in done {
      var rest := OneNotIn(done - {q});
      p := if rest > q then rest else q + 1;
      forall d | d in done ensures d < p {
        assert d == q || d in done - {q};
      }
    }
  }

  lemma OneUnanswered(p: PairId, done: set<PairId>)
    requires p !in done
    ensures Unanswered([p], done) == [p] && Distinct([p])
  {
    assert [p][..0] == [];
  }

  lemma ListOne(steps: seq<Step>, w: WorkerId) returns (more: seq<Step>, p: PairId)
    requires Legal(steps) && At(After(steps), w).Stamping?
    ensures Legal(more) && p !in Pairs(After(steps).results) && (CanBreak(more) ==> CanBreak(steps))
    ensures After(more) == With(After(steps), w, Working(At(After(steps), w).mine, [p], []))
  {
    p := OneNotIn(Pairs(After(steps).results));
    OneUnanswered(p, Pairs(After(steps).results));
    more := Then(steps, List(w, [p]));
  }

  lemma StampingBreaks(steps: seq<Step>, w: WorkerId)
    requires Legal(steps) && After(steps).owner == Some(w) && At(After(steps), w).Stamping?
    requires After(steps).stamp != Some(At(After(steps), w).mine)
    ensures CanBreak(steps)
  {
    var more, _ := ListOne(steps, w);
    PendingBreaks(more, w);
  }

  lemma OutdatedBreaks(steps: seq<Step>)
    requires Legal(steps) && HolderIsOutdated(After(steps))
    ensures CanBreak(steps)
  {
    var w := After(steps).owner.value;
    match At(After(steps), w)
    case Loaded(_, _) =>
      var more := Then(steps, WriteStamp(w));
      StampingBreaks(more, w);
    case Stamping(_) => StampingBreaks(steps, w);
    case Working(_, pending, _) =>
      if pending != [] { PendingBreaks(steps, w); } else { UnsavedBreaks(steps, w); }
  }

  lemma LateWriteBreaks(steps: seq<Step>, w: WorkerId)
    requires Legal(steps) && IsLate(After(steps), w) && OneStamp(After(steps)) && After(steps).results != []
    ensures CanBreak(steps)
  {
    var s := After(steps);
    StampBreaksIff(s, WriteStamp(w));
    var _ := Then(steps, WriteStamp(w));
  }

  /** A worker nobody has seen takes over and loads the run. */
  lemma FreshLoads(steps: seq<Step>, mine: Stamp) returns (more: seq<Step>, w: WorkerId)
    requires Legal(steps) && !After(steps).closed
    ensures var s := After(steps);
            && Legal(more) && w !in s.phases && (CanBreak(more) ==> CanBreak(steps))
            && After(more) == With(s, w, Loaded(s.stamp, mine)).(owner := Some(w))
  {
    w := OneNotIn(After(steps).phases.Keys);
    var claimed := Then(steps, Claim(w));
    more := Then(claimed, Load(w, mine));
    assert After(more).phases == With(After(steps), w, Loaded(After(steps).stamp, mine)).phases;
  }

  /** The holder, with the run's stamp on it, makes a first result. */
  lemma FirstResult(steps: seq<Step>, w: WorkerId, stamp: Stamp) returns (more: seq<Step>)
    requires Legal(steps) && After(steps).owner == Some(w) && After(steps).results == []
    requires At(After(steps), w) == Loaded(Some(stamp), stamp) && After(steps).stamp == Some(stamp)
    ensures Legal(more) && (CanBreak(more) ==> CanBreak(steps)) && OneStamp(After(more)) && After(more).results != []
    ensures After(more).stamp == Some(stamp) && forall x :: x != w ==> At(After(more), x) == At(After(steps), x)
  {
    var stamped := Then(steps, WriteStamp(w));
    var listed, p := ListOne(stamped, w);
    var answered := Then(listed, Answer(w, 1));
    more := Then(answered, CommitBatch(w));
    assert After(more).results == [Result(p, stamp)];
  }

  /** Before there is any result, another worker makes one under the run's stamp first. */
  lemma LateLoadBreaks(steps: seq<Step>, w: WorkerId, stamp: Stamp)
    requires Legal(steps) && IsLate(After(steps), w) && OneStamp(After(steps))
    requires !After(steps).closed && After(steps).stamp == Some(stamp)
    ensures CanBreak(steps)
  {
    if After(steps).results != [] {
      LateWriteBreaks(steps, w);
    } else {
      var loaded, x := FreshLoads(steps, stamp);
      var committed := FirstResult(loaded, x, stamp);
      LateWriteBreaks(committed, w);
    }
  }

  lemma UnstampedBreaks(steps: seq<Step>)
    requires Legal(steps) && OneStamp(After(steps)) && !After(steps).closed && After(steps).stamp == None
    ensures CanBreak(steps)
  {
    var one, w := FreshLoads(steps, 0);
    var two, x := FreshLoads(one, 1);
    var stamped := Then(two, WriteStamp(x));
    LateLoadBreaks(stamped, w, 1);
  }

  /** It can still break if and only if the run is open without a stamp, or a worker is late with its own
      (and there is a result, or can be one), or the holder works under a replaced one. */
  lemma StampCanBreakIff(steps: seq<Step>)
    requires Legal(steps) && OneStamp(After(steps))
    ensures CanBreak(steps) <==> AtRisk(After(steps))
  {
    var s := After(steps);
    if !AtRisk(s) {
      forall more | Legal(steps + more) ensures OneStamp(After(steps + more)) {
        NothingBreaks(steps, more);
      }
    } else if !s.closed && s.stamp == None {
      UnstampedBreaks(steps);
    } else if SomeoneIsLate(s) {
      var w :| IsLate(s, w);
      if s.closed { LateWriteBreaks(steps, w); } else { LateLoadBreaks(steps, w, s.stamp.value); }
    } else {
      OutdatedBreaks(steps);
    }
  }

  // ----- Two runs that break it -----

  lemma Go(steps: seq<Step>, step: Step, t: State) returns (more: seq<Step>)
    requires Legal(steps) && Enabled(After(steps), step) && Next(After(steps), step) == t
    ensures Legal(more) && After(more) == t
  {
    more := steps + [step];
    assert more[..|steps|] == steps;
  }

  /** Worker 0 loads the run and stalls past its lease; worker 1 takes over. */
  lemma BothLoaded(a: Stamp, b: Stamp) returns (steps: seq<Step>)
    ensures Legal(steps)
    ensures After(steps) == State(Some(1), false, None, [], map[0 := Loaded(None, a), 1 := Loaded(None, b)])
  {
    steps := Go([], Claim(0), State(Some(0), false, None, [], map[0 := Claimed]));
    steps := Go(steps, Load(0, a), State(Some(0), false, None, [], map[0 := Loaded(None, a)]));
    steps := Go(steps, Claim(1), State(Some(1), false, None, [], map[0 := Loaded(None, a), 1 := Claimed]));
    steps := Go(steps, Load(1, b), State(Some(1), false, None, [], map[0 := Loaded(None, a), 1 := Loaded(None, b)]));
  }

  /** It stamps the run and lists its one pair. */
  lemma TakeOver(a: Stamp, b: Stamp, p: PairId) returns (steps: seq<Step>)
    ensures Legal(steps)
    ensures After(steps) == State(Some(1), false, Some(b), [], map[0 := Loaded(None, a), 1 := Working(b, [p], [])])
  {
    steps := BothLoaded(a, b);
    steps := Then(steps, WriteStamp(1));
    assert Pairs([]) == {};
    OneUnanswered(p, {});
    steps := Then(steps, List(1, [p]));
  }

  /** It answers the pair and commits the result. */
  lemma TakeOverCommits(a: Stamp, b: Stamp, p: PairId) returns (steps: seq<Step>)
    ensures Legal(steps)
    ensures After(steps) == State(Some(1), false, Some(b), [Result(p, b)],
            map[0 := Loaded(None, a), 1 := Working(b, [], [])])
  {
    steps := TakeOver(a, b, p);
    var s := After(steps);
    assert [p][1..] == [] && [] + [p][..1] == [p];
    steps := Go(steps, Answer(1, 1), s.(phases := map[0 := Loaded(None, a), 1 := Working(b, [], [p])]));
    s := After(steps);
    assert [] + Made([p], b) == [Result(p, b)];
    steps := Go(steps, CommitBatch(1),
        s.(results := [Result(p, b)], phases := map[0 := Loaded(None, a), 1 := Working(b, [], [])]));
  }

  /** For any two provenances there is such a run: the late write renames results already committed. */
  lemma LateStampRenamesResults(a: Stamp, b: Stamp, p: PairId) returns (steps: seq<Step>)
    requires a != b
    ensures Legal(steps) && After(steps).results == [Result(p, b)] && After(steps).stamp == Some(a)
    ensures !OneStamp(After(steps))
  {
    steps := TakeOverCommits(a, b, p);
    steps := Go(steps, WriteStamp(0), Next(After(steps), WriteStamp(0)));
    assert After(steps).results[0].made == b;
  }

  /** It need not find a result: written before there is one, the late stamp renames the holder's next. */
  lemma EarlyStampRenamesResults(a: Stamp, b: Stamp, p: PairId) returns (steps: seq<Step>)
    requires a != b
    ensures Legal(steps) && After(steps).results == [Result(p, b)] && After(steps).stamp == Some(a)
    ensures !OneStamp(After(steps))
  {
    steps := TakeOver(a, b, p);
    steps := Then(steps, WriteStamp(0));
    assert OneStamp(After(steps));
    steps := Then(steps, Answer(1, 1));
    steps := Then(steps, CommitBatch(1));
    assert After(steps).results[0].made == b;
  }
}
