/** Fixed-window counters in Redis (`core/rate_limit.py`), for one subject and its window length. The
    clock is in milliseconds; Redis expires a key on the same clock. */
module RateLimit {
  import opened Prelude

  /** Redis answered the call; or carried it out without the answer arriving; or was not reached. */
  datatype Reply = Answered | Lost | Unreached

  datatype Event = Hit(at: nat, reply: Reply) | Reset(at: nat, reply: Reply)

  function Window(at: nat, seconds: nat): nat
    requires seconds > 0
  {
    at / 1000 / seconds
  }

  function Start(w: nat, seconds: nat): nat {
    if w == 0 then 0 else Start(w - 1, seconds) + 1000 * seconds
  }

  lemma {:induction false} StartIs(w: nat, seconds: nat)
    ensures Start(w, seconds) == 1000 * (seconds * w)
    decreases w
  {
    if w > 0 {
      StartIs(w - 1, seconds);
      assert seconds * w == seconds * (w - 1) + seconds;
    }
  }

  lemma {:induction false} StartsAscend(v: nat, w: nat, seconds: nat)
    requires v <= w
    ensures Start(v, seconds) <= Start(w, seconds)
    decreases w
  {
    if v < w {
      StartsAscend(v, w - 1, seconds);
    }
  }

  lemma DivBounds(n: nat, d: nat)
    requires d > 0
    ensures d * (n / d) <= n < d * (n / d) + d
  {
    assert n == d * (n / d) + n % d;
  }

  lemma WindowHolds(at: nat, seconds: nat)
    requires seconds > 0
    ensures Start(Window(at, seconds), seconds) <= at < Start(Window(at, seconds) + 1, seconds)
  {
    var s := at / 1000;
    var q := s / seconds;
    DivBounds(s, seconds);
    StartIs(q, seconds);
    assert Start(q + 1, seconds) == Start(q, seconds) + 1000 * seconds;
  }

  lemma OutlivesItsWindow(at: nat, seconds: nat)
    requires seconds > 0
    ensures at + seconds * 1000 >= Start(Window(at, seconds) + 1, seconds)
  {
    WindowHolds(at, seconds);
  }

  /** A window is the milliseconds from its start up to the next one's. */
  lemma WindowIsAnInterval(at: nat, seconds: nat, w: nat)
    requires seconds > 0
    ensures Window(at, seconds) == w <==> Start(w, seconds) <= at < Start(w + 1, seconds)
  {
    var q := Window(at, seconds);
    WindowHolds(at, seconds);
    if q < w {
      StartsAscend(q + 1, w, seconds);
    } else if w < q {
      StartsAscend(w + 1, q, seconds);
    }
  }

  /** The hits counted in window `w` since it was last reset. */
  function CountIn(h: seq<Event>, w: nat, seconds: nat): nat
    requires seconds > 0
  {
    if h == [] then 0
    else
      var before, last := CountIn(h[..|h| - 1], w, seconds), h[|h| - 1];
      if last.reply.Unreached? || Window(last.at, seconds) != w then before
      else if last.Hit? then before + 1
      else 0
  }

  /** A hit is refused once the window holds `limit` of them; an outage, or a lost answer, admits it. */
  predicate Admits(before: seq<Event>, e: Event, limit: int, seconds: nat)
    requires seconds > 0
  {
    e.Hit? && (e.reply.Answered? ==> CountIn(before, Window(e.at, seconds), seconds) < limit)
  }

  predicate InOrder(h: seq<Event>) {
    forall i, j :: 0 <= i < j < |h| ==> h[i].at <= h[j].at
  }

  function LastAt(h: seq<Event>): nat {
    if h == [] then 0 else h[|h| - 1].at
  }

  // ----- How many hits get through -----

  /** The hits admitted from `from` up to `to`. */
  function AdmittedBetween(h: seq<Event>, lo: nat, hi: nat, limit: int, seconds: nat): nat
    requires seconds > 0
  {
    if h == [] then 0
    else
      AdmittedBetween(h[..|h| - 1], lo, hi, limit, seconds)
      + (if lo <= h[|h| - 1].at < hi && Admits(h[..|h| - 1], h[|h| - 1], limit, seconds) then 1 else 0)
  }

  /** Redis answered every call and nothing was reset. */
  predicate Counted(h: seq<Event>) {
    forall i :: 0 <= i < |h| ==> h[i].Hit? && h[i].reply.Answered?
  }

  lemma {:induction false} SplitAt(h: seq<Event>, lo: nat, mid: nat, hi: nat, limit: int, seconds: nat)
    requires seconds > 0 && lo <= mid <= hi
    ensures AdmittedBetween(h, lo, hi, limit, seconds)
         == AdmittedBetween(h, lo, mid, limit, seconds) + AdmittedBetween(h, mid, hi, limit, seconds)
    decreases |h|
  {
    if h != [] {
      SplitAt(h[..|h| - 1], lo, mid, hi, limit, seconds);
    }
  }

  /** A whole window admits exactly the lesser of its hits and the limit. */
  lemma {:induction false} WindowAdmitsUpToTheLimit(h: seq<Event>, w: nat, limit: nat, seconds: nat)
    requires seconds > 0 && Counted(h)
    ensures AdmittedBetween(h, Start(w, seconds), Start(w + 1, seconds), limit, seconds)
         == Min(CountIn(h, w, seconds), limit)
    decreases |h|
  {
    if h != [] {
      WindowAdmitsUpToTheLimit(h[..|h| - 1], w, limit, seconds);
      WindowIsAnInterval(h[|h| - 1].at, seconds, w);
    }
  }

  lemma {:induction false} WiderAdmitsMore(h: seq<Event>, lo: nat, hi: nat, wideFrom: nat, wideTo: nat, limit: int,
      seconds: nat)
    requires seconds > 0 && wideFrom <= lo && hi <= wideTo
    ensures AdmittedBetween(h, lo, hi, limit, seconds) <= AdmittedBetween(h, wideFrom, wideTo, limit, seconds)
    decreases |h|
  {
    if h != [] {
      WiderAdmitsMore(h[..|h| - 1], lo, hi, wideFrom, wideTo, limit, seconds);
    }
  }

  /** How many windows the milliseconds from `from` up to `to` touch. */
  function Touched(lo: nat, hi: nat, seconds: nat): int
    requires seconds > 0 && lo < hi
  {
    Window(hi - 1, seconds) as int - Window(lo, seconds) as int + 1
  }

  /** An interval lets through at most the limit for each window it touches. */
  lemma {:induction false} AtMostTheLimitPerWindow(h: seq<Event>, lo: nat, hi: nat, limit: nat, seconds: nat)
    requires seconds > 0 && Counted(h) && lo < hi
    ensures AdmittedBetween(h, lo, hi, limit, seconds) <= Touched(lo, hi, seconds) * limit
    decreases hi - lo
  {
    var w := Window(lo, seconds);
    var next := Start(w + 1, seconds);
    WindowHolds(lo, seconds);
    WindowAdmitsUpToTheLimit(h, w, limit, seconds);
    if hi <= next {
      WiderAdmitsMore(h, lo, hi, Start(w, seconds), next, limit, seconds);
      WindowIsAnInterval(hi - 1, seconds, w);
      assert Touched(lo, hi, seconds) == 1;
    } else {
      WiderAdmitsMore(h, lo, next, Start(w, seconds), next, limit, seconds);
      SplitAt(h, lo, next, hi, limit, seconds);
      AtMostTheLimitPerWindow(h, next, hi, limit, seconds);
      StartsAscend(w + 1, w + 2, seconds);
      WindowIsAnInterval(next, seconds, w + 1);
      OneMore(Touched(next, hi, seconds), limit);
      assert Touched(lo, hi, seconds) == Touched(next, hi, seconds) + 1;
    }
  }

  lemma Times(a: int, b: int, unit: int)
    requires a <= b && unit >= 0
    ensures a * unit <= b * unit
  {
  }

  lemma OneMore(n: int, limit: int)
    ensures (n + 1) * limit == n * limit + limit
  {
  }

  function CeilDiv(a: nat, b: nat): nat
    requires b > 0
  {
    (a + b - 1) / b
  }

  lemma CeilDivCovers(a: nat, b: nat)
    requires b > 0
    ensures a <= b * CeilDiv(a, b)
    ensures 0 < a <= b ==> CeilDiv(a, b) == 1
  {
    var q := CeilDiv(a, b);
    DivBounds(a + b - 1, b);
    if 0 < a <= b {
      assert q != 0;
      assert b * q >= b * 2 || q < 2;
    }
  }

  lemma {:induction false} StartOfSum(v: nat, n: nat, seconds: nat)
    ensures Start(v + n, seconds) == Start(v, seconds) + Start(n, seconds)
    decreases n
  {
    if n > 0 {
      StartOfSum(v, n - 1, seconds);
      assert Start(v + n, seconds) == Start(v + n - 1, seconds) + 1000 * seconds;
    }
  }

  lemma WindowsTouched(lo: nat, length: nat, seconds: nat)
    requires seconds > 0 && length > 0
    ensures Touched(lo, lo + length, seconds) <= CeilDiv(length, 1000 * seconds) + 1
  {
    var c := CeilDiv(length, 1000 * seconds);
    var a, b := Window(lo, seconds), Window(lo + length - 1, seconds);
    WindowHolds(lo, seconds);
    WindowHolds(lo + length - 1, seconds);
    LengthFits(length, seconds);
    StartOfSum(a + 1, c, seconds);
    if a + 1 + c <= b {
      StartsAscend(a + 1 + c, b, seconds);
    }
  }

  lemma LengthFits(length: nat, seconds: nat)
    requires seconds > 0
    ensures length <= Start(CeilDiv(length, 1000 * seconds), seconds)
  {
    var c := CeilDiv(length, 1000 * seconds);
    CeilDivCovers(length, 1000 * seconds);
    StartIs(c, seconds);
    assert 1000 * (seconds * c) == (1000 * seconds) * c;
  }

  /** In any stretch of `length` milliseconds at most `limit` for each window length begun, and one more;
      so at most twice the limit in any stretch no longer than a window. */
  lemma AdmissionsAreBounded(h: seq<Event>, lo: nat, length: nat, limit: nat, seconds: nat)
    requires seconds > 0 && length > 0 && Counted(h)
    ensures AdmittedBetween(h, lo, lo + length, limit, seconds) <= (CeilDiv(length, 1000 * seconds) + 1) * limit
    ensures length <= 1000 * seconds ==> AdmittedBetween(h, lo, lo + length, limit, seconds) <= 2 * limit
  {
    AtMostTheLimitPerWindow(h, lo, lo + length, limit, seconds);
    WindowsTouched(lo, length, seconds);
    Times(Touched(lo, lo + length, seconds), CeilDiv(length, 1000 * seconds) + 1, limit);
    CeilDivCovers(length, 1000 * seconds);
  }

  // ----- The bound is met -----

  function Burst(at: nat, n: nat): seq<Event> {
    if n == 0 then [] else Burst(at, n - 1) + [Hit(at, Answered)]
  }

  lemma {:induction false} BurstIsCounted(h: seq<Event>, at: nat, n: nat, seconds: nat)
    requires seconds > 0 && Counted(h)
    ensures Counted(h + Burst(at, n))
    ensures forall w: nat :: CountIn(h + Burst(at, n), w, seconds)
                          == CountIn(h, w, seconds) + (if w == Window(at, seconds) then n else 0)
    decreases n
  {
    if n == 0 {
      assert h + Burst(at, n) == h;
    } else {
      BurstIsCounted(h, at, n - 1, seconds);
      var g := h + Burst(at, n - 1);
      assert h + Burst(at, n) == g + [Hit(at, Answered)];
      forall w: nat
        ensures CountIn(h + Burst(at, n), w, seconds)
             == CountIn(h, w, seconds) + (if w == Window(at, seconds) then n else 0)
      {
        CountAfter(g, Hit(at, Answered), w, seconds);
      }
    }
  }

  lemma BoundaryWindows(seconds: nat)
    requires seconds > 0
    ensures Window(1000 * seconds - 1, seconds) == 0 && Window(1000 * seconds, seconds) == 1
  {
    assert Start(1, seconds) == 1000 * seconds && Start(2, seconds) == 1000 * seconds + 1000 * seconds;
    WindowIsAnInterval(1000 * seconds - 1, seconds, 0);
    WindowIsAnInterval(1000 * seconds, seconds, 1);
  }

  /** Twice the limit gets through across a boundary, inside two milliseconds, whatever the limit. */
  lemma BoundaryBurstAdmitsTwiceTheLimit(limit: nat, seconds: nat) returns (h: seq<Event>, lo: nat)
    requires seconds > 0
    ensures Counted(h) && lo > 0
    ensures AdmittedBetween(h, lo, lo + 2, limit, seconds) == 2 * limit
  {
    lo := 1000 * seconds - 1;
    BoundaryWindows(seconds);
    h := TwoBursts(lo, limit, seconds);
  }

  lemma TwoBursts(lo: nat, limit: nat, seconds: nat) returns (h: seq<Event>)
    requires seconds > 0 && Window(lo, seconds) != Window(lo + 1, seconds)
    ensures Counted(h) && AdmittedBetween(h, lo, lo + 2, limit, seconds) == 2 * limit
  {
    var before := Burst(lo, limit);
    h := before + Burst(lo + 1, limit);
    assert [] + before == before;
    BurstIsCounted([], lo, limit, seconds);
    BurstIsCounted(before, lo + 1, limit, seconds);
    BurstsAreAdmitted([], lo, limit, lo, lo + 2, limit, seconds);
    BurstsAreAdmitted(before, lo + 1, limit, lo, lo + 2, limit, seconds);
  }

  lemma {:induction false} BurstsAreAdmitted(h: seq<Event>, at: nat, n: nat, lo: nat, hi: nat, limit: nat, seconds: nat)
    requires seconds > 0 && Counted(h) && lo <= at < hi
    requires CountIn(h, Window(at, seconds), seconds) + n <= limit
    ensures AdmittedBetween(h + Burst(at, n), lo, hi, limit, seconds) == AdmittedBetween(h, lo, hi, limit, seconds) + n
    decreases n
  {
    if n == 0 {
      assert h + Burst(at, n) == h;
    } else {
      BurstsAreAdmitted(h, at, n - 1, lo, hi, limit, seconds);
      BurstIsCounted(h, at, n - 1, seconds);
      assert h + Burst(at, n) == (h + Burst(at, n - 1)) + [Hit(at, Answered)];
      assert (h + Burst(at, n))[..|h + Burst(at, n)| - 1] == h + Burst(at, n - 1);
    }
  }

  // ----- The counters -----

  datatype Counter = Counter(count: nat, expiresAt: nat)

  lemma CountAfter(h: seq<Event>, e: Event, w: nat, seconds: nat)
    requires seconds > 0
    ensures CountIn(h + [e], w, seconds)
         == if e.reply.Unreached? || Window(e.at, seconds) != w then CountIn(h, w, seconds)
            else if e.Hit? then CountIn(h, w, seconds) + 1
            else 0
  {
    assert (h + [e])[..|h|] == h;
  }

  /** A counter is right, and outlives its own window. */
  predicate Agrees(counters: map<nat, Counter>, h: seq<Event>, w: nat, seconds: nat)
    requires seconds > 0
  {
    if w in counters then
      counters[w].count == CountIn(h, w, seconds) && counters[w].expiresAt >= Start(w + 1, seconds)
    else
      CountIn(h, w, seconds) == 0
  }

  /** What Redis does with a call that reaches it. */
  function Applied(counters: map<nat, Counter>, e: Event, stored: nat, seconds: nat): map<nat, Counter>
    requires seconds > 0
  {
    if e.reply.Unreached? then counters
    else if e.Hit? then counters[Window(e.at, seconds) := Counter(stored + 1, e.at + seconds * 1000)]
    else counters - {Window(e.at, seconds)}
  }

  lemma StillAgrees(counters: map<nat, Counter>, h: seq<Event>, e: Event, w: nat, seconds: nat)
    requires seconds > 0 && Agrees(counters, h, w, seconds)
    ensures Agrees(Applied(counters, e, CountIn(h, Window(e.at, seconds), seconds), seconds), h + [e], w, seconds)
  {
    CountAfter(h, e, w, seconds);
    OutlivesItsWindow(e.at, seconds);
  }

  class RateLimiter {
    const seconds: nat
    /** The keys of this subject by window; an expired one reads as absent. */
    var counters: map<nat, Counter>
    ghost var history: seq<Event>

    ghost predicate Valid()
      reads this
    {
      && seconds > 0 && InOrder(history)
      && forall w: nat :: Agrees(counters, history, w, seconds)
    }

    constructor (seconds: nat)
      requires seconds > 0
      ensures Valid() && history == [] && this.seconds == seconds
    {
      this.seconds := seconds;
      counters := map[];
      history := [];
    }

    /** What a read at `at` finds under the current window's key. */
    function Stored(at: nat): nat
      reads this
      requires seconds > 0
    {
      var w := Window(at, seconds);
      if w in counters && at < counters[w].expiresAt then counters[w].count else 0
    }

    lemma StoredIsTheCount(at: nat)
      requires Valid()
      ensures Stored(at) == CountIn(history, Window(at, seconds), seconds)
    {
      WindowIsAnInterval(at, seconds, Window(at, seconds));
      assert Agrees(counters, history, Window(at, seconds), seconds);
    }

    /** `hit`: INCR and EXPIRE in one transaction, then compare. */
    method Hit(at: nat, reply: Reply, limit: int) returns (admitted: bool)
      requires Valid() && LastAt(history) <= at
      modifies this
      ensures Valid() && history == old(history) + [Event.Hit(at, reply)]
      ensures admitted == Admits(old(history), Event.Hit(at, reply), limit, seconds)
      // one more in its window if Redis carried it out, and no other window moves
      ensures admitted <==> (reply.Answered? ==> CountIn(old(history), Window(at, seconds), seconds) < limit)
      ensures forall w: nat :: CountIn(history, w, seconds) == CountIn(old(history), w, seconds)
                + (if !reply.Unreached? && w == Window(at, seconds) then 1 else 0)
    {
      StoredIsTheCount(at);
      var w := Window(at, seconds);
      admitted := true;
      if !reply.Unreached? {
        var count := Stored(at) + 1;
        counters := counters[w := Counter(count, at + seconds * 1000)];
        admitted := reply.Lost? || count <= limit;
      }
      history := history + [Event.Hit(at, reply)];
      forall v: nat ensures Agrees(counters, history, v, seconds) {
        StillAgrees(old(counters), old(history), Event.Hit(at, reply), v, seconds);
      }
      forall v: nat ensures CountIn(history, v, seconds) == CountIn(old(history), v, seconds)
          + (if !reply.Unreached? && v == Window(at, seconds) then 1 else 0)
      {
        CountAfter(old(history), Event.Hit(at, reply), v, seconds);
      }
    }

    method GetCount(at: nat, reachable: bool) returns (count: nat)
      requires Valid()
      ensures count == if reachable then CountIn(history, Window(at, seconds), seconds) else 0
    {
      StoredIsTheCount(at);
      count := if reachable then Stored(at) else 0;
    }

    method Reset(at: nat, reply: Reply)
      requires Valid() && LastAt(history) <= at
      modifies this
      ensures Valid() && history == old(history) + [Event.Reset(at, reply)]
      // none in its window any more if Redis carried it out, and no other window moves
      ensures forall w: nat :: CountIn(history, w, seconds) ==
                if !reply.Unreached? && w == Window(at, seconds) then 0 else CountIn(old(history), w, seconds)
    {
      history := history + [Event.Reset(at, reply)];
      if !reply.Unreached? {
        counters := counters - {Window(at, seconds)};
      }
      forall v: nat ensures Agrees(counters, history, v, seconds) {
        StillAgrees(old(counters), old(history), Event.Reset(at, reply), v, seconds);
      }
      forall v: nat ensures CountIn(history, v, seconds) ==
          if !reply.Unreached? && v == Window(at, seconds) then 0 else CountIn(old(history), v, seconds)
      {
        CountAfter(old(history), Event.Reset(at, reply), v, seconds);
      }
    }
  }

  // ----- Failed logins -----

  datatype Attempt = Attempt(checkedAt: nat, checkReachable: bool, correct: bool, recordedAt: nat,
      recordReply: Reply)

  datatype Login = TooManyFailures | WrongPassword | SignedIn

  /** The failure counter of every window is within the limit. */
  ghost predicate WithinLimit(h: seq<Event>, limit: nat, seconds: nat)
    requires seconds > 0
  {
    forall w: nat :: CountIn(h, w, seconds) <= limit
  }

  /** What `get_count` answers: 0 in an outage. */
  function Read(h: seq<Event>, at: nat, reachable: bool, seconds: nat): nat
    requires seconds > 0
  {
    if reachable then CountIn(h, Window(at, seconds), seconds) else 0
  }

  predicate Refused(h: seq<Event>, a: Attempt, limit: nat, seconds: nat)
    requires seconds > 0
  {
    Read(h, a.checkedAt, a.checkReachable, seconds) >= limit
  }

  /** What one sequential attempt writes: nothing when it is refused, a reset when it succeeds. */
  function Recorded(h: seq<Event>, a: Attempt, limit: nat, seconds: nat): seq<Event>
    requires seconds > 0
  {
    if Refused(h, a, limit, seconds) then h
    else if a.correct then h + [Reset(a.recordedAt, a.recordReply)]
    else h + [Hit(a.recordedAt, a.recordReply)]
  }

  predicate Before(h: seq<Event>, at: nat) {
    forall i :: 0 <= i < |h| ==> h[i].at <= at
  }

  lemma {:induction false} LaterWindowIsEmpty(h: seq<Event>, at: nat, w: nat, seconds: nat)
    requires seconds > 0 && Before(h, at) && Window(at, seconds) < w
    ensures CountIn(h, w, seconds) == 0
    decreases |h|
  {
    if h != [] {
      LaterWindowIsEmpty(h[..|h| - 1], at, w, seconds);
      WindowHolds(h[|h| - 1].at, seconds);
      WindowHolds(at, seconds);
      if Window(h[|h| - 1].at, seconds) == w {
        StartsAscend(Window(at, seconds) + 1, w, seconds);
      }
    }
  }

  /** The check failed open on a spent budget and the record did not: the one way past the limit. */
  predicate FailsOpen(h: seq<Event>, a: Attempt, limit: nat, seconds: nat)
    requires seconds > 0
  {
    limit > 0 && !a.checkReachable && !a.recordReply.Unreached? && !a.correct
        && CountIn(h, Window(a.recordedAt, seconds), seconds) == limit
  }

  /** A sequential attempt keeps the counter within its limit - over a window boundary too - unless it
      fails open. */
  lemma SequentialAttemptsStayWithinTheLimit(h: seq<Event>, a: Attempt, limit: nat, seconds: nat)
    requires seconds > 0 && WithinLimit(h, limit, seconds)
    requires Before(h, a.checkedAt) && a.checkedAt <= a.recordedAt
    ensures WithinLimit(Recorded(h, a, limit, seconds), limit, seconds) <==> !FailsOpen(h, a, limit, seconds)
  {
    var g := Recorded(h, a, limit, seconds);
    var w, checked := Window(a.recordedAt, seconds), Window(a.checkedAt, seconds);
    WindowsAscend(a.checkedAt, a.recordedAt, seconds);
    if checked < w {
      LaterWindowIsEmpty(h, a.checkedAt, w, seconds);
    }
    assert CountIn(h, w, seconds) <= limit && CountIn(h, checked, seconds) <= limit;
    if |g| > |h| {
      var e := g[|h|];
      assert g == h + [e];
      CountAfter(h, e, w, seconds);
      OnlyItsWindowMoves(h, e, limit, seconds);
    }
  }

  lemma WindowsAscend(a: nat, b: nat, seconds: nat)
    requires seconds > 0 && a <= b
    ensures Window(a, seconds) <= Window(b, seconds)
  {
    WindowHolds(a, seconds);
    WindowHolds(b, seconds);
    if Window(b, seconds) < Window(a, seconds) {
      StartsAscend(Window(b, seconds) + 1, Window(a, seconds), seconds);
    }
  }

  lemma OnlyItsWindowMoves(h: seq<Event>, e: Event, limit: nat, seconds: nat)
    requires seconds > 0 && WithinLimit(h, limit, seconds)
    ensures WithinLimit(h + [e], limit, seconds) <==> CountIn(h + [e], Window(e.at, seconds), seconds) <= limit
  {
    forall v: nat ensures v != Window(e.at, seconds) ==> CountIn(h + [e], v, seconds) <= limit {
      CountAfter(h, e, v, seconds);
      assert CountIn(h, v, seconds) <= limit;
    }
  }

  // ----- Logins that overlap -----

  /** What happens to the budget of one address: an attempt passes its check, or is turned away; an attempt
      that passed fails, or signs in. Redis answers. */
  datatype Op = Pass(at: nat) | TurnAway(at: nat) | Fail(at: nat) | Enter(at: nat)

  /** `open` attempts have passed the check and have not been recorded. */
  datatype Traffic = Traffic(h: seq<Event>, open: nat, now: nat)

  /** At most `most` attempts overlap. */
  predicate Can(t: Traffic, op: Op, limit: nat, most: nat, seconds: nat)
    requires seconds > 0
  {
    && t.now <= op.at
    && match op
       case Pass(at) => CountIn(t.h, Window(at, seconds), seconds) < limit && t.open < most
       case TurnAway(at) => CountIn(t.h, Window(at, seconds), seconds) >= limit
       case Fail(_) => t.open > 0
       case Enter(_) => t.open > 0
  }

  function Done(t: Traffic, op: Op): Traffic {
    match op
    case Pass(at) => Traffic(t.h, t.open + 1, at)
    case TurnAway(at) => Traffic(t.h, t.open, at)
    case Fail(at) => Traffic(t.h + [Hit(at, Answered)], if t.open > 0 then t.open - 1 else 0, at)
    case Enter(at) => Traffic(t.h + [Reset(at, Answered)], if t.open > 0 then t.open - 1 else 0, at)
  }

  function AllDone(ops: seq<Op>): Traffic {
    if ops == [] then Traffic([], 0, 0) else Done(AllDone(ops[..|ops| - 1]), ops[|ops| - 1])
  }

  predicate CanAll(ops: seq<Op>, limit: nat, most: nat, seconds: nat)
    requires seconds > 0
  {
    ops == [] || (CanAll(ops[..|ops| - 1], limit, most, seconds)
        && Can(AllDone(ops[..|ops| - 1]), ops[|ops| - 1], limit, most, seconds))
  }

  /** A window that can still grow has room for the attempts that are open. */
  ghost predicate HasRoom(t: Traffic, limit: nat, most: nat, seconds: nat)
    requires seconds > 0
  {
    && Before(t.h, t.now)
    && forall w: nat ::
       CountIn(t.h, w, seconds) + (if w >= Window(t.now, seconds) then t.open else 0)
       <= limit + most - 1
  }

  lemma OpKeepsRoom(t: Traffic, op: Op, limit: nat, most: nat, seconds: nat)
    requires seconds > 0 && most > 0 && HasRoom(t, limit, most, seconds) && t.open <= most
             && Can(t, op, limit, most, seconds)
    ensures HasRoom(Done(t, op), limit, most, seconds) && Done(t, op).open <= most
  {
    var d := Done(t, op);
    WindowsAscend(t.now, op.at, seconds);
    forall w: nat
      ensures CountIn(d.h, w, seconds) + (if w >= Window(d.now, seconds) then d.open else 0) <= limit + most - 1
    {
      assert CountIn(t.h, w, seconds) + (if w >= Window(t.now, seconds) then t.open else 0) <= limit + most - 1;
      if op.Pass? && w > Window(op.at, seconds) {
        LaterWindowIsEmpty(t.h, op.at, w, seconds);
      }
      if op.Fail? || op.Enter? {
        CountAfter(t.h, d.h[|t.h|], w, seconds);
      }
    }
  }

  /** However logins overlap, no more than `most` at once take the counter of a window past its limit by
      fewer than that many. */
  lemma {:induction false} OverlapIsBounded(ops: seq<Op>, limit: nat, most: nat, seconds: nat)
    requires seconds > 0 && most > 0 && CanAll(ops, limit, most, seconds)
    ensures HasRoom(AllDone(ops), limit, most, seconds) && AllDone(ops).open <= most
    ensures forall w: nat :: CountIn(AllDone(ops).h, w, seconds) <= limit + most - 1
    decreases |ops|
  {
    if ops != [] {
      OverlapIsBounded(ops[..|ops| - 1], limit, most, seconds);
      OpKeepsRoom(AllDone(ops[..|ops| - 1]), ops[|ops| - 1], limit, most, seconds);
    }
  }

  lemma Then(ops: seq<Op>, op: Op, limit: nat, most: nat, seconds: nat) returns (more: seq<Op>)
    requires seconds > 0 && CanAll(ops, limit, most, seconds) && Can(AllDone(ops), op, limit, most, seconds)
    ensures CanAll(more, limit, most, seconds) && AllDone(more) == Done(AllDone(ops), op)
  {
    more := ops + [op];
    assert more[..|ops|] == ops;
  }

  lemma CountOfBurst(n: nat, seconds: nat)
    requires seconds > 0
    ensures Window(0, seconds) == 0 && CountIn(Burst(0, n), 0, seconds) == n
            && Burst(0, n) + [Hit(0, Answered)] == Burst(0, n + 1)
  {
    WindowIsAnInterval(0, seconds, 0);
    assert [] + Burst(0, n) == Burst(0, n);
    BurstIsCounted([], 0, n, seconds);
  }

  lemma PassNext(ops: seq<Op>, n: nat, open: nat, limit: nat, most: nat, seconds: nat) returns (more: seq<Op>)
    requires seconds > 0 && n < limit && open < most
    requires CanAll(ops, limit, most, seconds) && AllDone(ops) == Traffic(Burst(0, n), open, 0)
    ensures CanAll(more, limit, most, seconds) && AllDone(more) == Traffic(Burst(0, n), open + 1, 0)
  {
    CountOfBurst(n, seconds);
    more := Then(ops, Pass(0), limit, most, seconds);
  }

  lemma FailNext(ops: seq<Op>, n: nat, open: nat, limit: nat, most: nat, seconds: nat) returns (more: seq<Op>)
    requires seconds > 0 && 0 < open
    requires CanAll(ops, limit, most, seconds) && AllDone(ops) == Traffic(Burst(0, n), open, 0)
    ensures CanAll(more, limit, most, seconds) && AllDone(more) == Traffic(Burst(0, n + 1), open - 1, 0)
  {
    CountOfBurst(n, seconds);
    more := Then(ops, Fail(0), limit, most, seconds);
  }

  lemma {:induction false} FailInTurn(n: nat, limit: nat, most: nat, seconds: nat) returns (ops: seq<Op>)
    requires seconds > 0 && most > 0 && n < limit
    ensures CanAll(ops, limit, most, seconds) && AllDone(ops) == Traffic(Burst(0, n), 0, 0)
    decreases n
  {
    if n == 0 {
      ops := [];
    } else {
      ops := FailInTurn(n - 1, limit, most, seconds);
      ops := PassNext(ops, n - 1, 0, limit, most, seconds);
      ops := FailNext(ops, n - 1, 1, limit, most, seconds);
    }
  }

  lemma {:induction false} PassTogether(n: nat, limit: nat, most: nat, seconds: nat) returns (ops: seq<Op>)
    requires seconds > 0 && 0 < limit && n <= most && most > 0
    ensures CanAll(ops, limit, most, seconds) && AllDone(ops) == Traffic(Burst(0, limit - 1), n, 0)
    decreases n
  {
    if n == 0 {
      ops := FailInTurn(limit - 1, limit, most, seconds);
    } else {
      ops := PassTogether(n - 1, limit, most, seconds);
      ops := PassNext(ops, limit - 1, n - 1, limit, most, seconds);
    }
  }

  lemma {:induction false} FailTogether(n: nat, limit: nat, most: nat, seconds: nat) returns (ops: seq<Op>)
    requires seconds > 0 && 0 < limit && n <= most && most > 0
    ensures CanAll(ops, limit, most, seconds) && AllDone(ops) == Traffic(Burst(0, limit - 1 + n), most - n, 0)
    decreases n
  {
    if n == 0 {
      ops := PassTogether(most, limit, most, seconds);
    } else {
      ops := FailTogether(n - 1, limit, most, seconds);
      ops := FailNext(ops, limit - 1 + n - 1, most - n + 1, limit, most, seconds);
    }
  }

  /** And that bound is met, for every limit and every overlap: all pass the check of the last place. */
  lemma OverlapReachesTheBound(limit: nat, most: nat, seconds: nat) returns (ops: seq<Op>)
    requires seconds > 0 && limit > 0 && most > 0
    ensures CanAll(ops, limit, most, seconds) && CountIn(AllDone(ops).h, 0, seconds) == limit + most - 1
  {
    ops := FailTogether(most, limit, most, seconds);
    CountOfBurst(limit - 1 + most, seconds);
  }

  class LoginAttemptLimiter {
    const limiter: RateLimiter
    const limit: nat

    constructor (limiter: RateLimiter, limit: nat)
      ensures this.limiter == limiter && this.limit == limit
    {
      this.limiter := limiter;
      this.limit := limit;
    }

    /** `check_email`; false is the 429. */
    method CheckEmail(at: nat, reachable: bool) returns (allowed: bool)
      requires limiter.Valid()
      ensures allowed <==> Read(limiter.history, at, reachable, limiter.seconds) < limit
    {
      var count := limiter.GetCount(at, reachable);
      allowed := count < limit;
    }

    /** `record_failure`: the answer of the limiter is dropped. */
    method RecordFailure(at: nat, reply: Reply)
      requires limiter.Valid() && LastAt(limiter.history) <= at
      modifies limiter
      ensures limiter.Valid() && limiter.history == old(limiter.history) + [Event.Hit(at, reply)]
    {
      var _ := limiter.Hit(at, reply, limit);
    }

    method Clear(at: nat, reply: Reply)
      requires limiter.Valid() && LastAt(limiter.history) <= at
      modifies limiter
      ensures limiter.Valid() && limiter.history == old(limiter.history) + [Event.Reset(at, reply)]
    {
      limiter.Reset(at, reply);
    }

    /** One login: check, verify the password, then record or clear. */
    method SignIn(a: Attempt) returns (login: Login)
      requires limiter.Valid() && LastAt(limiter.history) <= a.checkedAt <= a.recordedAt
      modifies limiter
      ensures limiter.Valid() && limiter.history == Recorded(old(limiter.history), a, limit, limiter.seconds)
      ensures login == if Refused(old(limiter.history), a, limit, limiter.seconds) then TooManyFailures
                       else if a.correct then SignedIn else WrongPassword
      // refused by the failures of the window of the check, or not at all; then what is recorded
      ensures login.TooManyFailures? <==>
                (if a.checkReachable
                 then CountIn(old(limiter.history), Window(a.checkedAt, limiter.seconds), limiter.seconds)
                 else 0) >= limit
      ensures limiter.history == match login
                case TooManyFailures => old(limiter.history)
                case WrongPassword => old(limiter.history) + [Hit(a.recordedAt, a.recordReply)]
                case SignedIn => old(limiter.history) + [Reset(a.recordedAt, a.recordReply)]
    {
      var allowed := CheckEmail(a.checkedAt, a.checkReachable);
      if !allowed {
        return TooManyFailures;
      }
      if a.correct {
        Clear(a.recordedAt, a.recordReply);
        return SignedIn;
      }
      RecordFailure(a.recordedAt, a.recordReply);
      login := WrongPassword;
    }
  }

  predicate Follows(attempts: seq<Attempt>, since: nat, i: nat)
    requires i < |attempts|
  {
    (if i == 0 then since else attempts[i - 1].recordedAt) <= attempts[i].checkedAt <= attempts[i].recordedAt
  }

  /** Each attempt begins after the one before it has ended. */
  predicate Sequential(attempts: seq<Attempt>, since: nat) {
    forall i :: 0 <= i < |attempts| ==> Follows(attempts, since, i)
  }

  function AllRecorded(h: seq<Event>, attempts: seq<Attempt>, limit: nat, seconds: nat): seq<Event>
    requires seconds > 0
  {
    if attempts == [] then h
    else Recorded(AllRecorded(h, attempts[..|attempts| - 1], limit, seconds), attempts[|attempts| - 1], limit, seconds)
  }

  function DoneAt(attempts: seq<Attempt>, since: nat): nat {
    if attempts == [] then since else attempts[|attempts| - 1].recordedAt
  }

  lemma RecordedBefore(h: seq<Event>, a: Attempt, limit: nat, seconds: nat)
    requires seconds > 0 && Before(h, a.checkedAt) && a.checkedAt <= a.recordedAt
    ensures Before(Recorded(h, a, limit, seconds), a.recordedAt)
  {
  }

  lemma SequentialPrefix(attempts: seq<Attempt>, since: nat)
    requires attempts != [] && Sequential(attempts, since)
    ensures var rest, a := attempts[..|attempts| - 1], attempts[|attempts| - 1];
            Sequential(rest, since) && DoneAt(rest, since) <= a.checkedAt <= a.recordedAt
  {
    var rest := attempts[..|attempts| - 1];
    forall i | 0 <= i < |rest| ensures Follows(rest, since, i) {
      assert Follows(attempts, since, i);
    }
    assert Follows(attempts, since, |rest|);
  }

  predicate AllChecked(attempts: seq<Attempt>) {
    forall i :: 0 <= i < |attempts| ==> attempts[i].checkReachable
  }

  /** Logins one after the other never take the counter of any window past its limit, as long as no
      check fails open. */
  lemma {:induction false} SequentialLoginsNeverPassTheLimit(h: seq<Event>, attempts: seq<Attempt>, since: nat,
      limit: nat, seconds: nat)
    requires seconds > 0 && WithinLimit(h, limit, seconds) && Before(h, since)
    requires Sequential(attempts, since) && AllChecked(attempts)
    ensures WithinLimit(AllRecorded(h, attempts, limit, seconds), limit, seconds)
    ensures Before(AllRecorded(h, attempts, limit, seconds), DoneAt(attempts, since))
    decreases |attempts|
  {
    if attempts != [] {
      var rest, a := attempts[..|attempts| - 1], attempts[|attempts| - 1];
      SequentialPrefix(attempts, since);
      SequentialLoginsNeverPassTheLimit(h, rest, since, limit, seconds);
      var before := AllRecorded(h, rest, limit, seconds);
      SequentialAttemptsStayWithinTheLimit(before, a, limit, seconds);
      RecordedBefore(before, a, limit, seconds);
    }
  }
}
