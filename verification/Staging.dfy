/** Stage on the session, publish on commit (`live/staging.py`), over any history of one session.

    The session's own rules are SQLAlchemy's: `commit`, `rollback` and `close` end the outermost
    transaction; a savepoint ends inside it. Whether releasing a savepoint also fires `after_commit`, as it
    does in SQLAlchemy 2, is the parameter `fires`; everything below is for both. */
module Staging {
  import opened Prelude

  datatype Op<E> = Stage(event: E) | Savepoint | ReleaseSavepoint | RollbackSavepoint | Commit | Rollback | CloseSession

  predicate EndsOutermost<E>(op: Op<E>) {
    op.Commit? || op.Rollback? || op.CloseSession?
  }

  /** How deep the session is before and after each step: 0 outside any transaction, 1 in the outermost, more
      in savepoints. */
  function Depths<E>(h: seq<Op<E>>): (depths: seq<nat>)
    ensures |depths| == |h| + 1
  {
    if h == [] then [0]
    else
      var depths := Depths(h[..|h| - 1]);
      depths + [DepthAfter(depths[|h| - 1], h[|h| - 1])]
  }

  function DepthAfter<E>(d: nat, op: Op<E>): nat {
    match op
    case Stage(_) => if d == 0 then 1 else d
    case Savepoint => if d == 0 then 2 else d + 1
    case ReleaseSavepoint => if d == 0 then 0 else d - 1
    case RollbackSavepoint => if d == 0 then 0 else d - 1
    case _ => 0
  }

  function Depth<E>(h: seq<Op<E>>): nat {
    Depths(h)[|h|]
  }

  lemma DepthsSnoc<E(!new)>(h: seq<Op<E>>, op: Op<E>)
    ensures Depths(h + [op]) == Depths(h) + [DepthAfter(Depth(h), op)] && (h + [op])[..|h|] == h
  {
    assert (h + [op])[..|h|] == h;
  }

  lemma {:induction false} DepthsOfPrefix<E(!new)>(h: seq<Op<E>>, n: nat)
    requires n <= |h|
    ensures Depths(h[..n]) == Depths(h)[..n + 1]
    decreases |h|
  {
    if n == |h| {
      assert h[..n] == h;
    } else {
      DepthsOfPrefix(h[..|h| - 1], n);
      assert h[..|h| - 1][..n] == h[..n];
    }
  }

  predicate Fits<E>(depth: nat, op: Op<E>) {
    op.ReleaseSavepoint? || op.RollbackSavepoint? ==> depth >= 2
  }

  predicate FitsAt<E>(h: seq<Op<E>>, i: nat)
    requires i < |h|
  {
    Fits(Depths(h)[i], h[i])
  }

  ghost predicate Legal<E(!new)>(h: seq<Op<E>>) {
    forall i :: 0 <= i < |h| ==> FitsAt(h, i)
  }

  lemma LegalPrefix<E(!new)>(h: seq<Op<E>>)
    requires h != [] && Legal(h)
    ensures Legal(h[..|h| - 1]) && Fits(Depth(h[..|h| - 1]), h[|h| - 1])
  {
    var b := h[..|h| - 1];
    assert FitsAt(h, |h| - 1);
    forall i | 0 <= i < |b| ensures FitsAt(b, i) {
      assert FitsAt(h, i);
    }
  }

  lemma LegalSnoc<E(!new)>(h: seq<Op<E>>, op: Op<E>)
    requires Legal(h) && Fits(Depth(h), op)
    ensures Legal(h + [op]) && (h + [op])[..|h|] == h && Depth(h + [op]) == DepthAfter(Depth(h), op)
  {
    DepthsSnoc(h, op);
    forall i | 0 <= i < |h| + 1 ensures FitsAt(h + [op], i) {
      assert i < |h| ==> FitsAt(h, i);
    }
  }

  // ----- What the design promises -----

  /** Everything staged in the outermost transaction now open, in order. */
  function StagedIn<E>(h: seq<Op<E>>): seq<E> {
    if h == [] then []
    else
      match h[|h| - 1]
      case Stage(e) => StagedIn(h[..|h| - 1]) + [e]
      case Savepoint => StagedIn(h[..|h| - 1])
      case ReleaseSavepoint => StagedIn(h[..|h| - 1])
      case RollbackSavepoint => StagedIn(h[..|h| - 1])
      case _ => []
  }

  /** Each value once, where it first occurs. */
  function Once<E(==)>(s: seq<E>): seq<E> {
    if s == [] then []
    else
      var before := Once(s[..|s| - 1]);
      if s[|s| - 1] in before then before else before + [s[|s| - 1]]
  }

  /** One submission for each outermost transaction that commits something staged: the step of the
      commit, and the transaction's events, each once, in the order they were first staged. */
  function Expected<E(==)>(h: seq<Op<E>>): seq<(nat, seq<E>)> {
    if h == [] then []
    else
      var b := h[..|h| - 1];
      if h[|h| - 1].Commit? && StagedIn(b) != [] then Expected(b) + [(|b|, Once(StagedIn(b)))] else Expected(b)
  }

  lemma {:induction false} OnceKeepsEach<E>(s: seq<E>, e: E)
    ensures e in Once(s) <==> e in s
    decreases |s|
  {
    if s != [] {
      OnceKeepsEach(s[..|s| - 1], e);
      assert s == s[..|s| - 1] + [s[|s| - 1]];
      OnceKeepsEach(s[..|s| - 1], s[|s| - 1]);
    }
  }

  /** The place a value first occurs at. */
  function FirstAt<E(==)>(s: seq<E>, e: E): (i: nat)
    requires e in s
    ensures i < |s| && s[i] == e && e !in s[..i]
  {
    if e in s[..|s| - 1] then
      var i := FirstAt(s[..|s| - 1], e);
      assert s[..|s| - 1][..i] == s[..i];
      i
    else
      assert s == s[..|s| - 1] + [s[|s| - 1]];
      |s| - 1
  }

  predicate FirstBefore<E(==)>(s: seq<E>, d: E, e: E) {
    d in s && e in s && FirstAt(s, d) < FirstAt(s, e)
  }

  /** First-staged order, no repeats: of two values the one before the other was also staged before it. */
  lemma {:induction false} OnceKeepsFirstOrder<E>(s: seq<E>, i: nat, j: nat)
    requires i < j < |Once(s)|
    ensures FirstBefore(s, Once(s)[i], Once(s)[j])
    decreases |s|
  {
    var b, last := s[..|s| - 1], s[|s| - 1];
    assert s == b + [last];
    OnceKeepsEach(b, Once(s)[i]);
    OnceKeepsEach(b, last);
    assert Once(s)[i] == Once(b)[i];
    if j < |Once(b)| {
      OnceKeepsFirstOrder(b, i, j);
      OnceKeepsEach(b, Once(s)[j]);
    }
  }

  predicate OpenSince<E>(h: seq<Op<E>>, i: nat) {
    forall k :: i < k < |h| ==> !EndsOutermost(h[k])
  }

  predicate StagedAt<E(==)>(h: seq<Op<E>>, i: nat, e: E) {
    i < |h| && h[i] == Stage(e) && OpenSince(h, i)
  }

  /** Nothing staged before an end reaches past it. */
  lemma {:induction false} StagedInIsSinceTheLastEnd<E(!new)>(h: seq<Op<E>>, e: E)
    ensures e in StagedIn(h) <==> exists i :: StagedAt(h, i, e)
    decreases |h|
  {
    if h != [] {
      var b, last := h[..|h| - 1], |h| - 1;
      StagedInIsSinceTheLastEnd(b, e);
      if h[last] == Stage(e) {
        assert StagedAt(h, last, e);
      } else if !EndsOutermost(h[last]) {
        forall i ensures StagedAt(h, i, e) <==> StagedAt(b, i, e) {
        }
      } else {
        assert forall i :: StagedAt(h, i, e) ==> i == last;
      }
    }
  }

  /** Submissions are the commits of something staged, one each, in order. */
  lemma {:induction false} ExpectedIsTheCommits<E(!new)>(h: seq<Op<E>>, n: nat, events: seq<E>)
    ensures (n, events) in Expected(h)
       <==> n < |h| && h[n].Commit? && StagedIn(h[..n]) != [] && events == Once(StagedIn(h[..n]))
    ensures forall i, j :: 0 <= i < j < |Expected(h)| ==> Expected(h)[i].0 < Expected(h)[j].0 < |h|
    ensures forall i :: 0 <= i < |Expected(h)| ==> Expected(h)[i].0 < |h|
    decreases |h|
  {
    if h != [] {
      var b := h[..|h| - 1];
      ExpectedIsTheCommits(b, n, events);
      assert n < |b| ==> b[..n] == h[..n];
    }
  }

  // ----- What the hooks do -----

  /** `session.info[_STAGED_KEY]`, absent and empty alike. */
  function Held<E(==)>(h: seq<Op<E>>, fires: bool): seq<E> {
    if h == [] then []
    else
      var held := Held(h[..|h| - 1], fires);
      match h[|h| - 1]
      case Stage(e) => if e in held then held else held + [e]
      case ReleaseSavepoint => if fires then [] else held
      case Savepoint => held
      case RollbackSavepoint => held
      case _ => []
  }

  function Submitted<E(==)>(h: seq<Op<E>>, fires: bool): seq<(nat, seq<E>)> {
    if h == [] then []
    else
      var b := h[..|h| - 1];
      if (h[|h| - 1].Commit? || (fires && h[|h| - 1].ReleaseSavepoint?)) && Held(b, fires) != []
      then Submitted(b, fires) + [(|b|, Held(b, fires))] else Submitted(b, fires)
  }

  /** A savepoint is released while something is staged. */
  predicate EarlyAt<E(==)>(h: seq<Op<E>>, i: nat) {
    i < |h| && h[i].ReleaseSavepoint? && StagedIn(h[..i]) != []
  }

  ghost predicate ReleasesEarly<E(!new)>(h: seq<Op<E>>) {
    exists i: nat :: EarlyAt(h, i)
  }

  lemma {:induction false} HeldIsStaged<E(!new)>(h: seq<Op<E>>, fires: bool)
    requires !fires || !ReleasesEarly(h)
    ensures Held(h, fires) == Once(StagedIn(h)) && Submitted(h, fires) == Expected(h)
    decreases |h|
  {
    if h != [] {
      var b := h[..|h| - 1];
      if fires {
        NoEarlierEarly(h);
      }
      HeldIsStaged(b, fires);
      OnceOfNone(StagedIn(b));
      if h[|h| - 1].Stage? {
        assert (StagedIn(b) + [h[|h| - 1].event])[..|StagedIn(b)|] == StagedIn(b);
      } else if h[|h| - 1].ReleaseSavepoint? && fires {
        assert !EarlyAt(h, |h| - 1);
      }
    }
  }

  lemma NoEarlierEarly<E(!new)>(h: seq<Op<E>>)
    requires h != [] && !ReleasesEarly(h)
    ensures !ReleasesEarly(h[..|h| - 1])
  {
    var b := h[..|h| - 1];
    forall i: nat ensures !EarlyAt(b, i) {
      assert !EarlyAt(h, i);
      assert i < |b| ==> b[..i] == h[..i];
    }
  }

  lemma OnceOfNone<E>(s: seq<E>)
    ensures Once(s) == [] <==> s == []
  {
    if s != [] {
      OnceKeepsEach(s, s[0]);
    }
  }

  lemma {:induction false} SubmissionsStay<E(!new)>(h: seq<Op<E>>, fires: bool, n: nat, s: (nat, seq<E>))
    requires n <= |h| && s in Submitted(h[..n], fires)
    ensures s in Submitted(h, fires)
    decreases |h|
  {
    if n == |h| {
      assert h[..n] == h;
    } else {
      assert h[..|h| - 1][..n] == h[..n];
      SubmissionsStay(h[..|h| - 1], fires, n, s);
    }
  }

  lemma {:induction false} FirstEarly<E(!new)>(h: seq<Op<E>>, i: nat) returns (first: nat)
    requires EarlyAt(h, i)
    ensures EarlyAt(h, first) && forall k: nat :: k < first ==> !EarlyAt(h, k)
    decreases i
  {
    if k: nat :| k < i && EarlyAt(h, k) {
      first := FirstEarly(h, k);
    } else {
      first := i;
    }
  }

  /** The promise is kept by every history if a release does not fire `after_commit`, and otherwise by
      exactly those in which no savepoint is released with something staged. */
  lemma SubmitsWhatCommitsIffNothingIsReleasedEarly<E(!new)>(h: seq<Op<E>>, fires: bool)
    ensures Submitted(h, fires) == Expected(h) <==> !fires || !ReleasesEarly(h)
  {
    if fires && ReleasesEarly(h) {
      var i: nat :| EarlyAt(h, i);
      var first := FirstEarly(h, i);
      var b := h[..first];
      forall k: nat ensures !EarlyAt(b, k) {
        if k < first {
          assert b[..k] == h[..k] && !EarlyAt(h, k);
        }
      }
      HeldIsStaged(b, fires);
      OnceOfNone(StagedIn(b));
      var early := (first, Held(b, fires));
      assert h[..first + 1][..first] == b;
      assert Submitted(h[..first + 1], fires) == Submitted(b, fires) + [early];
      SubmissionsStay(h, fires, first + 1, early);
      ExpectedIsTheCommits(h, first, Held(b, fires));
    } else {
      HeldIsStaged(h, fires);
    }
  }

  // ----- Changes that are rolled back -----

  /** What has become of a staged change: it stands at an open level, or is committed, or undone. */
  datatype Fate = Standing(level: int) | Kept | Lost

  function Moved<E>(f: Fate, op: Op<E>, depth: nat): Fate {
    if !f.Standing? then f
    else
      match op
      case ReleaseSavepoint => if f.level == depth then Standing(depth - 1) else f
      case RollbackSavepoint => if f.level == depth then Lost else f
      case Commit => Kept
      case Rollback => Lost
      case CloseSession => Lost
      case _ => f
  }

  /** The fate, by the end of `h`, of the change staged at step `i`. */
  function FateOf<E>(h: seq<Op<E>>, i: nat): Fate
    requires i < |h|
  {
    if i == |h| - 1 then Standing(Depth(h)) else Moved(FateOf(h[..|h| - 1], i), h[|h| - 1], Depth(h[..|h| - 1]))
  }

  lemma FateSnoc<E(!new)>(h: seq<Op<E>>, op: Op<E>, i: nat)
    requires i < |h|
    ensures FateOf(h + [op], i) == Moved(FateOf(h, i), op, Depth(h))
  {
    assert (h + [op])[..|h|] == h;
  }

  /** Staged as `e` at `i`, in the outermost transaction that is open after `n` steps. */
  predicate StagedBy<E(==)>(h: seq<Op<E>>, n: nat, i: nat, e: E) {
    n <= |h| && StagedAt(h[..n], i, e)
  }

  /** A change that had been staged as `e` by then is not undone. */
  ghost predicate Stands<E(!new)>(h: seq<Op<E>>, n: nat, e: E) {
    exists i: nat :: StagedBy(h, n, i, e) && !FateOf(h, i).Lost?
  }

  predicate HandedOver<E(==)>(h: seq<Op<E>>, fires: bool, n: nat, events: seq<E>) {
    (n, events) in Submitted(h, fires)
  }

  /** What the design promises: nothing is announced, when it commits or early, that is rolled back. */
  ghost predicate OnlySurvivors<E(!new)>(h: seq<Op<E>>, fires: bool) {
    forall n, events, e :: HandedOver(h, fires, n, events) && e in events ==> Stands(h, n, e)
  }

  /** The operation at `k` undoes what was staged at `i`: it ends the outermost transaction, or a savepoint
      beneath which the session has not been since. */
  predicate RollsBack<E>(h: seq<Op<E>>, k: nat, i: nat) {
    && i < k < |h|
    && match h[k]
       case RollbackSavepoint => NeverBelow(h, i, k)
       case Rollback => OpenSince(h[..k], i)
       case CloseSession => OpenSince(h[..k], i)
       case _ => false
  }

  predicate NeverBelow<E>(h: seq<Op<E>>, i: nat, k: nat)
    requires k <= |h|
  {
    forall j :: i < j <= k ==> Depths(h)[j] >= Depths(h)[k]
  }

  ghost predicate RolledBack<E>(h: seq<Op<E>>, i: nat) {
    exists k: nat :: RollsBack(h, k, i)
  }

  predicate HandsOver<E>(op: Op<E>, fires: bool) {
    op.Commit? || (fires && op.ReleaseSavepoint?)
  }

  /** Staged at `i`, with no hand-over and no end of the outermost transaction up to `n`. */
  predicate Waits<E(==)>(h: seq<Op<E>>, fires: bool, n: nat, i: nat, e: E) {
    i < n <= |h| && h[i] == Stage(e) && forall k :: i < k < n ==> !EndsOutermost(h[k]) && !HandsOver(h[k], fires)
  }

  /** An event waits at a hand-over, and every change staged as that event in the transaction so far is rolled
      back, before the hand-over or after it. */
  ghost predicate AnnouncesUndone<E(!new)>(h: seq<Op<E>>, fires: bool, n: nat, e: E) {
    && n < |h| && HandsOver(h[n], fires)
    && (exists i: nat :: Waits(h, fires, n, i, e))
    && forall i: nat :: StagedBy(h, n, i, e) ==> RolledBack(h, i)
  }

  lemma {:induction false} HeldWaits<E(!new)>(h: seq<Op<E>>, fires: bool, e: E)
    ensures e in Held(h, fires) <==> exists i: nat :: Waits(h, fires, |h|, i, e)
    decreases |h|
  {
    if h != [] {
      var b, last := h[..|h| - 1], |h| - 1;
      HeldWaits(b, fires, e);
      if h[last] == Stage(e) {
        assert Waits(h, fires, |h|, last, e);
      } else if EndsOutermost(h[last]) || HandsOver(h[last], fires) {
        assert forall i: nat :: Waits(h, fires, |h|, i, e) ==> i == last;
      } else {
        forall i: nat ensures Waits(h, fires, |h|, i, e) <==> Waits(b, fires, |b|, i, e) {
        }
      }
    }
  }

  lemma WaitsInPrefix<E(!new)>(h: seq<Op<E>>, fires: bool, n: nat, e: E)
    requires n <= |h|
    ensures (exists i: nat :: Waits(h, fires, n, i, e)) <==> exists i: nat :: Waits(h[..n], fires, n, i, e)
  {
    forall i: nat ensures Waits(h, fires, n, i, e) <==> Waits(h[..n], fires, n, i, e) {
    }
  }

  /** Submissions are the hand-overs of something held, one each. */
  lemma {:induction false} SubmittedIsTheHandOvers<E(!new)>(h: seq<Op<E>>, fires: bool, n: nat, events: seq<E>)
    ensures HandedOver(h, fires, n, events)
       <==> n < |h| && HandsOver(h[n], fires) && Held(h[..n], fires) != [] && events == Held(h[..n], fires)
    decreases |h|
  {
    if h != [] {
      var b := h[..|h| - 1];
      SubmittedIsTheHandOvers(b, fires, n, events);
      assert n < |b| ==> b[..n] == h[..n];
    }
  }

  /** The least depth since `i`. */
  ghost predicate LeastSince(depths: seq<nat>, i: nat, level: int) {
    && (forall j :: i < j < |depths| ==> depths[j] >= level)
    && exists j :: i < j < |depths| && depths[j] == level
  }

  lemma LeastSinceSnoc(depths: seq<nat>, d: nat, i: nat, level: int)
    requires LeastSince(depths, i, level)
    ensures LeastSince(depths + [d], i, if d < level then d else level)
  {
    var at :| i < at < |depths| && depths[at] == level;
    assert (depths + [d])[at] == level && (depths + [d])[|depths|] == d;
  }

  /** Where a standing change is: the least depth the session has been at since. */
  ghost predicate StandsAt<E>(h: seq<Op<E>>, i: nat, level: int) {
    1 <= level <= Depth(h) && OpenSince(h, i) && LeastSince(Depths(h), i, level)
  }

  lemma RolledBackSnoc<E(!new)>(h: seq<Op<E>>, op: Op<E>, i: nat)
    requires i < |h|
    ensures RolledBack(h + [op], i) <==> RolledBack(h, i) || RollsBack(h + [op], |h|, i)
  {
    DepthsSnoc(h, op);
    forall k: nat | k < |h| ensures RollsBack(h + [op], k, i) <==> RollsBack(h, k, i) {
      assert (h + [op])[..k] == h[..k] && (h + [op])[k] == h[k];
      assert forall j :: 0 <= j <= k ==> Depths(h + [op])[j] == Depths(h)[j];
    }
  }

  lemma SavepointUndoesIff<E(!new)>(h: seq<Op<E>>, i: nat, level: int)
    requires i < |h| && StandsAt(h, i, level)
    ensures RollsBack(h + [RollbackSavepoint], |h|, i) <==> level == Depth(h)
  {
    DepthsSnoc(h, RollbackSavepoint);
    var at :| i < at <= |h| && Depths(h)[at] == level;
    assert Depths(h + [RollbackSavepoint])[at] == level;
  }

  lemma MovedStandsAt<E(!new)>(h: seq<Op<E>>, op: Op<E>, i: nat, level: int)
    requires i < |h| && Fits(Depth(h), op) && StandsAt(h, i, level)
    ensures var f := Moved(Standing(level), op, Depth(h));
            && (f.Lost? <==> RollsBack(h + [op], |h|, i))
            && (f.Standing? ==> StandsAt(h + [op], i, f.level))
  {
    DepthsSnoc(h, op);
    if op.RollbackSavepoint? {
      SavepointUndoesIff(h, i, level);
    }
    if !EndsOutermost(op) {
      LeastSinceSnoc(Depths(h), DepthAfter(Depth(h), op), i, level);
    }
  }

  /** A change is undone if and only if some operation rolls it back. */
  lemma {:induction false} LostIffRolledBack<E(!new)>(h: seq<Op<E>>, i: nat)
    requires Legal(h) && i < |h| && h[i].Stage?
    ensures FateOf(h, i).Lost? <==> RolledBack(h, i)
    ensures FateOf(h, i).Standing? ==> StandsAt(h, i, FateOf(h, i).level)
    ensures FateOf(h, i).Kept? ==> exists k :: i < k < |h| && h[k].Commit?
    decreases |h|
  {
    if i < |h| - 1 {
      var b, op := h[..|h| - 1], h[|h| - 1];
      assert h == b + [op];
      LegalPrefix(h);
      LostIffRolledBack(b, i);
      RolledBackSnoc(b, op, i);
      FateSnoc(b, op, i);
      if FateOf(b, i).Standing? {
        MovedStandsAt(b, op, i, FateOf(b, i).level);
        assert op.Commit? ==> h[|b|].Commit?;
      } else if FateOf(b, i).Kept? {
        var k :| i < k < |b| && b[k].Commit?;
        CommittedStays(b, op, i, k);
        assert h[k].Commit?;
      }
    } else {
      assert StandsAt(h, i, Depth(h));
    }
  }

  lemma EndsAtZero<E(!new)>(h: seq<Op<E>>, k: nat)
    requires k < |h| && EndsOutermost(h[k])
    ensures Depths(h)[k + 1] == 0
  {
    DepthsOfPrefix(h, k + 1);
    assert h[..k + 1][k] == h[k];
  }

  lemma CommittedStays<E(!new)>(h: seq<Op<E>>, op: Op<E>, i: nat, k: nat)
    requires i < k < |h| && h[k].Commit? && Fits(Depth(h), op)
    ensures !RollsBack(h + [op], |h|, i)
  {
    DepthsSnoc(h, op);
    EndsAtZero(h, k);
    assert Depths(h + [op])[k + 1] == 0 && EndsOutermost(h[k]);
    assert op.RollbackSavepoint? ==> Depths(h + [op])[|h|] >= 2;
  }

  /** A change that is rolled back is announced - when it commits, or early at the release of a savepoint - in
      exactly this case: the event waits at a hand-over, and no other change staged as that event by then
      escapes being rolled back. */
  lemma AnnouncesOnlySurvivorsIff<E(!new)>(h: seq<Op<E>>, fires: bool)
    requires Legal(h)
    ensures OnlySurvivors(h, fires) <==> forall n: nat, e :: !AnnouncesUndone(h, fires, n, e)
  {
    forall n: nat, e ensures Stands(h, n, e) <==> exists i: nat :: StagedBy(h, n, i, e) && !RolledBack(h, i) {
      forall i: nat | StagedBy(h, n, i, e) ensures FateOf(h, i).Lost? <==> RolledBack(h, i) {
        LostIffRolledBack(h, i);
      }
    }
    if n: nat, e :| AnnouncesUndone(h, fires, n, e) {
      WaitsInPrefix(h, fires, n, e);
      HeldWaits(h[..n], fires, e);
      SubmittedIsTheHandOvers(h, fires, n, Held(h[..n], fires));
      assert !Stands(h, n, e);
    } else {
      forall n: nat, events, e | HandedOver(h, fires, n, events) && e in events ensures Stands(h, n, e) {
        SubmittedIsTheHandOvers(h, fires, n, events);
        HeldWaits(h[..n], fires, e);
        WaitsInPrefix(h, fires, n, e);
        assert !AnnouncesUndone(h, fires, n, e);
      }
    }
  }

  /** At a commit only savepoints rolled back before it matter; what undoes a change after its hand-over does
      so after an early one. */
  lemma CommitIsFinal<E(!new)>(h: seq<Op<E>>, n: nat, i: nat, k: nat, e: E)
    requires Legal(h) && n < |h| && h[n].Commit? && StagedBy(h, n, i, e) && RollsBack(h, k, i)
    ensures k < n && h[k].RollbackSavepoint?
  {
    assert FitsAt(h, k);
    EndsAtZero(h, n);
    assert k < n ==> h[..n][k] == h[k];
  }

  // ----- Two ways it happens -----

  /** A savepoint opened and rolled back leaves every earlier change where it stood. */
  lemma OuterFateStays<E(!new)>(h: seq<Op<E>>, e: E, i: nat)
    requires Legal(h) && i < |h| && h[i].Stage?
    ensures FateOf(h + [Savepoint] + [Stage(e)] + [RollbackSavepoint], i) == FateOf(h, i)
  {
    LostIffRolledBack(h, i);
    LegalSnoc(h, Savepoint);
    LegalSnoc(h + [Savepoint], Stage(e));
    FateSnoc(h, Savepoint, i);
    FateSnoc(h + [Savepoint], Stage(e), i);
    FateSnoc(h + [Savepoint] + [Stage(e)], RollbackSavepoint, i);
  }

  /** Stage in a savepoint, roll it back, commit: the event goes out, whatever came before and whether a
      release publishes or not; the change is undone and no other one is. */
  lemma RolledBackSavepointStillAnnounces<E(!new)>(h: seq<Op<E>>, e: E, fires: bool) returns (undone: seq<Op<E>>)
    requires Legal(h)
    ensures undone == h + [Savepoint] + [Stage(e)] + [RollbackSavepoint] && Legal(undone + [Commit])
    ensures HandedOver(undone + [Commit], fires, |undone|, Held(undone, fires)) && e in Held(undone, fires)
    ensures FateOf(undone, |h| + 1).Lost?
    ensures forall i :: 0 <= i < |h| && h[i].Stage? ==> FateOf(undone, i) == FateOf(h, i)
    ensures (forall i: nat :: StagedAt(h, i, e) ==> FateOf(h, i).Lost?) ==> !OnlySurvivors(undone + [Commit], fires)
  {
    var inside := h + [Savepoint];
    var staged := inside + [Stage(e)];
    undone := staged + [RollbackSavepoint];
    var all := undone + [Commit];
    LegalSnoc(h, Savepoint);
    LegalSnoc(inside, Stage(e));
    LegalSnoc(staged, RollbackSavepoint);
    LegalSnoc(undone, Commit);
    FateSnoc(staged, RollbackSavepoint, |h| + 1);
    forall i: nat | i < |h| && h[i].Stage? ensures FateOf(undone, i) == FateOf(h, i) {
      OuterFateStays(h, e, i);
    }
    assert HandsOver(all[|undone|], fires);
    SubmittedIsTheHandOvers(all, fires, |undone|, Held(undone, fires));
    if forall i: nat :: StagedAt(h, i, e) ==> FateOf(h, i).Lost? {
      forall i: nat | StagedBy(all, |undone|, i, e) ensures FateOf(all, i).Lost? {
        assert i < |h| ==> StagedAt(h, i, e);
        FateSnoc(undone, Commit, i);
      }
      assert !Stands(all, |undone|, e);
    }
  }

  /** An event is published at the release of a savepoint, and the transaction is rolled back: if a release
      publishes, the event has gone out and nothing of it is kept; if not, nothing goes out. */
  lemma ReleasedThenRolledBackAnnounces<E(!new)>(h: seq<Op<E>>, e: E) returns (doomed: seq<Op<E>>, held: seq<E>)
    requires Legal(h)
    ensures doomed == h + [Stage(e)] + [Savepoint] + [ReleaseSavepoint] + [Rollback] && Legal(doomed)
    ensures HandedOver(doomed, true, |h| + 2, held) && e in held && !OnlySurvivors(doomed, true)
    ensures Submitted(doomed, false) == Submitted(h, false)
  {
    var staged := h + [Stage(e)];
    var inside := staged + [Savepoint];
    var released := inside + [ReleaseSavepoint];
    doomed := released + [Rollback];
    held := Held(inside, true);
    LegalSnoc(h, Stage(e));
    LegalSnoc(staged, Savepoint);
    LegalSnoc(inside, ReleaseSavepoint);
    LegalSnoc(released, Rollback);
    assert Submitted(staged, false) == Submitted(h, false) && Submitted(inside, false) == Submitted(h, false);
    assert Submitted(released, false) == Submitted(h, false);
    assert doomed[..|h| + 2] == inside;
    SubmittedIsTheHandOvers(doomed, true, |h| + 2, held);
    forall i: nat | StagedBy(doomed, |h| + 2, i, e) ensures RolledBack(doomed, i) {
      assert OpenSince(released, i);
      assert RollsBack(doomed, |released|, i);
    }
    forall i: nat | StagedBy(doomed, |h| + 2, i, e) ensures FateOf(doomed, i).Lost? {
      LostIffRolledBack(doomed, i);
    }
    assert !Stands(doomed, |h| + 2, e);
  }

  // ----- The session -----

  class Session<E(==)> {
    const releaseFires: bool
    var depth: nat
    var staged: seq<E>
    var operations: nat
    /** The publisher's log. */
    var submissions: seq<(nat, seq<E>)>
    ghost var history: seq<Op<E>>

    ghost predicate Valid()
      reads this
    {
      && depth == Depth(history) && operations == |history|
      && staged == Held(history, releaseFires)
      && submissions == Submitted(history, releaseFires)
      && (depth == 0 ==> staged == [])
    }

    constructor (fires: bool)
      ensures Valid() && history == [] && releaseFires == fires
    {
      releaseFires := fires;
      depth, staged, operations, submissions, history := 0, [], 0, [], [];
    }

    /** The `after_commit` hook. */
    method PublishStaged()
      modifies this
      ensures staged == [] && depth == old(depth) && operations == old(operations) && history == old(history)
      ensures submissions == if old(staged) == [] then old(submissions)
              else old(submissions) + [(operations, old(staged))]
    {
      var popped := staged;
      staged := [];
      if popped == [] {
        return;
      }
      submissions := submissions + [(operations, popped)];
    }

    /** The `after_transaction_end` hook. */
    method DiscardStaged(outermost: bool)
      modifies this`staged
      ensures staged == if outermost then [] else old(staged)
    {
      if outermost {
        staged := [];
      }
    }

    /** `stage_live_event`. */
    method StageLiveEvent(e: E)
      modifies this`depth, this`staged
      ensures depth == (if old(depth) == 0 then 1 else old(depth))
      ensures staged == if e in old(staged) then old(staged) else old(staged) + [e]
    {
      if depth == 0 {
        depth := 1;
      }
      if e !in staged {
        staged := staged + [e];
      }
    }

    /** Commit every level from the innermost out, the hooks firing at each. */
    method CommitToRoot()
      modifies this
      ensures depth == 0 && staged == [] && operations == old(operations) && history == old(history)
      ensures submissions == if old(staged) == [] then old(submissions)
              else old(submissions) + [(operations, old(staged))]
    {
      while depth > 1
        invariant operations == old(operations) && history == old(history)
        invariant || (staged == old(staged) && submissions == old(submissions))
                  || (staged == [] && old(staged) != []
                      && submissions == old(submissions) + [(operations, old(staged))])
      {
        if releaseFires {
          PublishStaged();
        }
        depth := depth - 1;
        DiscardStaged(false);
      }
      PublishStaged();
      depth := 0;
      DiscardStaged(true);
    }

    method Do(op: Op<E>)
      requires Valid() && Fits(depth, op)
      modifies this
      ensures Valid() && history == old(history) + [op]
    {
      assert (history + [op])[..|history|] == history;
      match op {
        case Stage(e) => StageLiveEvent(e);
        case Savepoint => depth := if depth == 0 then 2 else depth + 1;
        case ReleaseSavepoint =>
          if releaseFires {
            PublishStaged();
          }
          depth := depth - 1;
          DiscardStaged(false);
        case RollbackSavepoint =>
          depth := depth - 1;
          DiscardStaged(false);
        case Commit => CommitToRoot();
        case Rollback =>
          if depth > 0 {
            depth := 0;
            DiscardStaged(true);
          }
        case CloseSession =>
          if depth > 0 {
            depth := 0;
            DiscardStaged(true);
          }
      }
      operations := operations + 1;
      history := history + [op];
    }
  }

  /** Any history on a new session submits what the design promises, under the condition above. */
  method RunHistory<E(!new, ==)>(ops: seq<Op<E>>, fires: bool) returns (submissions: seq<(nat, seq<E>)>)
    requires Legal(ops)
    ensures submissions == Submitted(ops, fires)
    ensures submissions == Expected(ops) <==> !fires || !ReleasesEarly(ops)
  {
    var session := new Session<E>(fires);
    for i := 0 to |ops|
      invariant session.Valid() && session.history == ops[..i] && session.releaseFires == fires
    {
      assert FitsAt(ops, i);
      DepthsOfPrefix(ops, i);
      session.Do(ops[i]);
      assert ops[..i + 1] == ops[..i] + [ops[i]];
    }
    assert ops[..|ops|] == ops;
    SubmitsWhatCommitsIffNothingIsReleasedEarly(ops, fires);
    submissions := session.submissions;
  }
}
