/** The body of `GET /events` (`live/stream.py`), on an integer clock in milliseconds.

    The method below keeps the three variables the generator keeps. Its proof is against a log of what
    it saw and did: `Ok` judges each entry by the entries before it alone, without those variables. */
module EventStream {
  import opened Prelude
  import opened Fanout

  const REUSE: nat := 2000

  datatype Kind = Notification | Scoped(name: string)

  datatype LiveEvent = LiveEvent(kind: Kind, id: nat, project: Option<nat>, recipients: seq<nat>)

  type Item = QueueItem<LiveEvent>

  datatype User = User(id: nat, session: Option<nat>, admin: bool, projects: set<nat>)

  datatype Frame = ReadyFrame | PingFrame | ResyncFrame | InvalidateFrame(kind: Kind, id: nat, project: Option<nat>)

  /** `live_event_visible_to` in `core/access.py`. */
  predicate VisibleTo(user: User, e: LiveEvent) {
    if e.kind.Notification? then user.id in e.recipients
    else e.project.Some? && (user.admin || e.project.value in user.projects)
  }

  function FrameOf(e: LiveEvent): Frame {
    InvalidateFrame(e.kind, e.id, e.project)
  }

  /** What a re-check reads: an exception, no row, or the row with whether its session is still live. */
  datatype Reload = Raised | Gone | Row(admin: bool, projects: set<nat>, mustChangePassword: bool, familyIsLive: bool)

  /** `_recheck`: anything but a live, unencumbered account ends the stream. */
  function Recheck(current: User, reload: Reload): Option<User> {
    match reload
    case Raised => None
    case Gone => None
    case Row(admin, projects, mustChange, live) =>
      if mustChange || (current.session.Some? && !live) then None
      else Some(User(current.id, current.session, admin, projects))
  }

  // ----- The outside world -----

  /** One turn of the loop as the outside world decides it: the clock at each of its readings, what the
      queue gave before the timeout, what each re-check would find, and how long the item's would take,
      waiting for its turn included. */
  datatype Turn = Turn(top: nat, item: Option<Item>, woken: nat,
                       beatAt: nat, beatFinds: Reload, beatDone: nat, pingAt: nat,
                       itemAt: nat, itemFinds: Reload, itemTakes: nat)

  predicate InOrder(t: Turn, since: nat) {
    since <= t.top <= t.woken <= t.beatAt <= t.beatDone <= t.pingAt <= t.itemAt
  }

  /** The clock does not run backwards. */
  ghost predicate Steady(script: seq<Turn>, since: nat) {
    forall i :: 0 <= i < |script| ==> InOrder(script[i], Before(script, since, i))
  }

  function Before(script: seq<Turn>, since: nat, i: nat): nat
    requires i <= |script|
  {
    if i == 0 then since else script[i - 1].itemAt
  }

  // ----- The log -----

  datatype Reason = DeadlinePassed(at: nat) | Refused | ClosedByHub

  datatype Entry =
    | Polled(from: nat, at: nat, item: Option<Item>)
    | Checked(begun: nat, found: Option<User>)   // a re-check was run
    | Consulted(at: nat)                         // the newest successful re-check was relied on
    | Rescheduled(at: nat)                       // a heartbeat was handled
    | Withheld(event: LiveEvent)
    | Sent(frame: Frame)
    | Ended(reason: Reason)

  datatype Setting = Setting(user: User, heartbeat: nat, deadline: nat, firstDue: nat, script: seq<Turn>)

  function Polls(log: seq<Entry>): seq<Option<Item>> {
    if log == [] then []
    else
      Polls(log[..|log| - 1]) + (if log[|log| - 1].Polled? then [log[|log| - 1].item] else [])
  }

  /** The newest successful re-check. */
  function LastGood(log: seq<Entry>): Option<(nat, User)> {
    if log == [] then None
    else
      match log[|log| - 1]
      case Checked(begun, Some(user)) => Some((begun, user))
      case _ => LastGood(log[..|log| - 1])
  }

  function Current(log: seq<Entry>, user: User): User {
    if LastGood(log).Some? then LastGood(log).value.1 else user
  }

  /** When the next heartbeat is due. */
  function Due(log: seq<Entry>, s: Setting): nat {
    if log == [] then s.firstDue
    else
      match log[|log| - 1]
      case Rescheduled(at) => at + s.heartbeat
      case _ => Due(log[..|log| - 1], s)
  }

  /** The last poll found a heartbeat due and it has not been handled. */
  predicate Pulse(log: seq<Entry>, s: Setting) {
    if log == [] then false
    else
      match log[|log| - 1]
      case Polled(_, at, _) => at >= Due(log[..|log| - 1], s)
      case Rescheduled(_) => false
      case _ => Pulse(log[..|log| - 1], s)
  }

  predicate IsAnswer(e: Entry) {
    e.Withheld? || (e.Sent? && (e.frame.ResyncFrame? || e.frame.InvalidateFrame?))
  }

  /** The item taken off the queue and not answered yet. */
  function Pending(log: seq<Entry>): Option<Item> {
    if log == [] then None
    else if log[|log| - 1].Polled? then log[|log| - 1].item
    else if IsAnswer(log[|log| - 1]) then None
    else Pending(log[..|log| - 1])
  }

  /** Access to a scoped event was decided just now, on the newest successful re-check. */
  predicate Authorised(before: seq<Entry>, e: LiveEvent) {
    e.kind.Notification? || (before != [] && before[|before| - 1].Consulted?)
  }

  predicate ScopedPending(log: seq<Entry>) {
    Pending(log).Some? && Pending(log).value.Event? && !Pending(log).value.value.kind.Notification?
  }

  /** The turn under way. */
  function Now(log: seq<Entry>, s: Setting): Turn
    requires 0 < |Polls(log)| <= |s.script|
  {
    s.script[|Polls(log)| - 1]
  }

  /** The last entry leaves the next one open. */
  predicate Free(log: seq<Entry>, s: Setting) {
    && log != []
    && match log[|log| - 1]
       case Ended(_) => false
       case Checked(_, _) => false
       case Consulted(_) => false
       case Rescheduled(_) => 0 < |Polls(log)| <= |s.script| && Now(log, s).pingAt >= s.deadline
       case _ => true
  }

  /** A decision is called for: a heartbeat is due, or else a project-scoped event is waiting. */
  predicate Wanted(log: seq<Entry>, s: Setting) {
    0 < |Polls(log)| <= |s.script| && Free(log, s) && (Pulse(log, s) || ScopedPending(log))
  }

  function DecidedAt(log: seq<Entry>, s: Setting): nat
    requires 0 < |Polls(log)| <= |s.script|
  {
    if Pulse(log, s) then Now(log, s).beatAt else Now(log, s).itemAt
  }

  function Finds(log: seq<Entry>, s: Setting): Reload
    requires 0 < |Polls(log)| <= |s.script|
  {
    if Pulse(log, s) then Now(log, s).beatFinds else Now(log, s).itemFinds
  }

  /** The newest successful re-check began less than the reuse window ago. */
  predicate StillGood(log: seq<Entry>, at: nat) {
    LastGood(log).Some? && LastGood(log).value.0 <= at < LastGood(log).value.0 + REUSE
  }

  /** A re-check is run only when none can be reused, and finds what the world holds. */
  predicate CheckOk(before: seq<Entry>, begun: nat, found: Option<User>, s: Setting) {
    && Wanted(before, s) && !StillGood(before, begun)
    && begun == DecidedAt(before, s) && found == Recheck(Current(before, s.user), Finds(before, s))
  }

  predicate ConsultOk(before: seq<Entry>, at: nat, s: Setting) {
    && 0 < |Polls(before)| <= |s.script|
    && (Wanted(before, s) || (before != [] && before[|before| - 1].Checked?))
    && at == DecidedAt(before, s) && StillGood(before, at)
  }

  predicate SentOk(before: seq<Entry>, frame: Frame, s: Setting) {
    match frame
    case ReadyFrame => before == []
    case PingFrame => before != [] && before[|before| - 1].Rescheduled?
    case ResyncFrame => Pending(before) == Some(Resync) && !Pulse(before, s)
    case InvalidateFrame(_, _, _) =>
      && !Pulse(before, s) && Pending(before).Some? && Pending(before).value.Event?
      && var x := Pending(before).value.value;
         frame == FrameOf(x) && Authorised(before, x) && VisibleTo(Current(before, s.user), x)
  }

  predicate EndedOk(before: seq<Entry>, reason: Reason, s: Setting) {
    match reason
    case DeadlinePassed(at) =>
      |Polls(before)| < |s.script| && at == s.script[|Polls(before)|].top && at >= s.deadline
      && Pending(before) == None && !Pulse(before, s)
    case Refused => before != [] && before[|before| - 1].Checked? && before[|before| - 1].found.None?
    case ClosedByHub => Pending(before) == Some(Close) && !Pulse(before, s)
  }

  /** What the last entry leaves no choice about. */
  predicate Forced(before: seq<Entry>, e: Entry, s: Setting) {
    if before == [] then e == Sent(ReadyFrame)
    else
      match before[|before| - 1]
      case Ended(_) => false
      case Checked(_, found) => if found.None? then e == Ended(Refused) else e.Consulted?
      case Rescheduled(_) =>
        0 < |Polls(before)| <= |s.script| && (Now(before, s).pingAt < s.deadline <==> e == Sent(PingFrame))
      case _ => true
  }

  predicate EntryOk(before: seq<Entry>, e: Entry, s: Setting) {
    && Forced(before, e, s)
    && match e {
         case Polled(from, at, item) =>
           && |Polls(before)| < |s.script| && !Pulse(before, s) && Pending(before) == None
           && var t := s.script[|Polls(before)|];
              from == t.top < s.deadline && at == t.woken && item == t.item
         case Checked(begun, found) => CheckOk(before, begun, found, s)
         case Consulted(at) => ConsultOk(before, at, s)
         case Rescheduled(at) =>
           before != [] && before[|before| - 1].Consulted? && Pulse(before, s)
           && 0 < |Polls(before)| <= |s.script| && at == Now(before, s).beatDone
         case Withheld(x) =>
           Pending(before) == Some(Event(x)) && !Pulse(before, s)
           && Authorised(before, x) && !VisibleTo(Current(before, s.user), x)
         case Sent(frame) => SentOk(before, frame, s)
         case Ended(reason) => EndedOk(before, reason, s)
       }
  }

  predicate OkAt(log: seq<Entry>, i: nat, s: Setting)
    requires i < |log|
  {
    EntryOk(log[..i], log[i], s)
  }

  ghost predicate Ok(log: seq<Entry>, s: Setting) {
    forall i :: 0 <= i < |log| ==> OkAt(log, i, s)
  }

  lemma OkPrefix(log: seq<Entry>, s: Setting, n: nat)
    requires Ok(log, s) && n <= |log|
    ensures Ok(log[..n], s)
  {
    forall i | 0 <= i < n ensures OkAt(log[..n], i, s) {
      assert OkAt(log, i, s) && log[..n][..i] == log[..i];
    }
  }

  lemma OkSnoc(log: seq<Entry>, e: Entry, s: Setting)
    requires Ok(log, s) && EntryOk(log, e, s)
    ensures Ok(log + [e], s)
  {
    forall i | 0 <= i < |log| + 1 ensures OkAt(log + [e], i, s) {
      assert i < |log| ==> OkAt(log, i, s);
      assert (log + [e])[..i] == log[..i];
      assert log[..|log|] == log;
    }
  }

  /** The entries before it settle an entry. */
  lemma EntryIsDetermined(before: seq<Entry>, e: Entry, f: Entry, s: Setting)
    requires EntryOk(before, e, s) && EntryOk(before, f, s)
    ensures e == f
  {
  }

  /** So the outside world settles the whole log, frames and all: of two logs one continues the other. */
  lemma {:induction false} LogIsDetermined(log: seq<Entry>, other: seq<Entry>, s: Setting)
    requires Ok(log, s) && Ok(other, s) && |log| <= |other|
    ensures log == other[..|log|]
    decreases |log|
  {
    if log != [] {
      var n := |log| - 1;
      OkPrefix(log, s, n);
      LogIsDetermined(log[..n], other, s);
      assert OkAt(log, n, s) && OkAt(other, n, s);
      EntryIsDetermined(log[..n], log[n], other[n], s);
      assert log == log[..n] + [log[n]] && other[..n + 1] == other[..n] + [other[n]];
    }
  }

  // ----- What a log that is `Ok` promises -----

  /** The newest successful re-check is in the log, of the same user, with no successful one after it. */
  lemma {:induction false} LastGoodStands(log: seq<Entry>, s: Setting) returns (i: nat)
    requires Ok(log, s) && LastGood(log).Some?
    ensures i < |log| && log[i] == Checked(LastGood(log).value.0, Some(LastGood(log).value.1))
    ensures forall j :: i < j < |log| && log[j].Checked? ==> log[j].found.None?
    ensures LastGood(log).value.1.id == s.user.id && LastGood(log).value.1.session == s.user.session
  {
    var last := |log| - 1;
    OkPrefix(log, s, last);
    if log[last].Checked? && log[last].found.Some? {
      i := last;
      assert OkAt(log, last, s);
      if LastGood(log[..last]).Some? {
        var _ := LastGoodStands(log[..last], s);
      }
    } else {
      i := LastGoodStands(log[..last], s);
    }
  }

  /** A refused re-check, and the end itself, are followed by no frame at all. */
  lemma NothingFollowsRefusal(log: seq<Entry>, s: Setting, i: nat, j: nat)
    requires Ok(log, s) && i < j < |log|
    ensures !log[i].Ended?
    ensures log[i].Checked? && log[i].found.None? ==> j == i + 1 && log[j] == Ended(Refused)
  {
    assert log[..i + 1][i] == log[i];
    assert OkAt(log, i + 1, s);
    if j > i + 1 {
      assert log[..i + 2][i + 1] == log[i + 1];
      assert OkAt(log, i + 2, s);
    }
  }

  /** What the re-check at entry `i` read: the reload of its turn, for the heartbeat or for the item. */
  predicate Read(log: seq<Entry>, s: Setting, i: nat, reload: Reload) {
    && i < |log| && 0 < |Polls(log[..i])| <= |s.script|
    && var turn := s.script[|Polls(log[..i])| - 1];
       && log[i].Checked?
       && if Pulse(log[..i], s) then log[i].begun == turn.beatAt && reload == turn.beatFinds
          else log[i].begun == turn.itemAt && reload == turn.itemFinds
  }

  /** A re-check refuses exactly when it raised, the account is gone, it must change its password, or the
      session it signed in with is over; and passes on exactly the rights it read. */
  lemma CheckRefusesIff(log: seq<Entry>, s: Setting, i: nat) returns (reload: Reload)
    requires Ok(log, s) && i < |log| && log[i].Checked?
    ensures Read(log, s, i, reload)
    ensures log[i].found.None? <==>
              || reload == Raised
              || reload == Gone
              || (reload.Row? && reload.mustChangePassword)
              || (reload.Row? && s.user.session.Some? && !reload.familyIsLive)
    ensures log[i].found.Some? ==>
              log[i].found.value == User(s.user.id, s.user.session, reload.admin, reload.projects)
    ensures i + 1 < |log| ==> if log[i].found.None? then log[i + 1] == Ended(Refused) else log[i + 1].Consulted?
  {
    assert OkAt(log, i, s);
    reload := Finds(log[..i], s);
    OkPrefix(log, s, i);
    if LastGood(log[..i]).Some? {
      var _ := LastGoodStands(log[..i], s);
    }
    if i + 1 < |log| {
      assert OkAt(log, i + 1, s) && log[..i + 1][i] == log[i];
    }
  }

  /** The entry answers a project-scoped event: it forwards it or withholds it. */
  predicate AnswersScoped(e: Entry) {
    (e.Withheld? && !e.event.kind.Notification?)
    || (e.Sent? && e.frame.InvalidateFrame? && !e.frame.kind.Notification?)
  }

  /** A project-scoped event is forwarded, as it is, if the newest re-check read an administrator or a member
      of the event's project; otherwise it is withheld. */
  lemma ScopedIsForwardedIff(log: seq<Entry>, s: Setting, m: nat) returns (e: LiveEvent, i: nat, reload: Reload)
    requires Ok(log, s) && m < |log| && AnswersScoped(log[m])
    ensures i < m && log[i].Checked? && Read(log, s, i, reload) && forall j :: i < j < m ==> !log[j].Checked?
    ensures reload.Row? && !reload.mustChangePassword && (s.user.session.Some? ==> reload.familyIsLive)
    ensures Pending(log[..m]) == Some(Event(e)) && !e.kind.Notification?
    ensures log[m] == if e.project.Some? && (reload.admin || e.project.value in reload.projects)
                      then Sent(InvalidateFrame(e.kind, e.id, e.project)) else Withheld(e)
  {
    assert OkAt(log, m, s);
    e := Pending(log[..m]).value.value;
    assert log[..m][..m - 1] == log[..m - 1];
    assert OkAt(log, m - 1, s);
    OkPrefix(log, s, m - 1);
    i := LastGoodStands(log[..m - 1], s);
    reload := CheckRefusesIff(log, s, i);
    forall j | i < j < m ensures !log[j].Checked? {
      if j < m - 1 && log[j].Checked? {
        assert log[..m - 1][j].found.None?;
        NothingFollowsRefusal(log, s, j, m);
      }
    }
    assert Current(log[..m], s.user) == log[i].found.value;
  }

  /** So a project-scoped event taken off the queue is forwarded, once the next poll shows that no re-check
      refused, if the newest one read an administrator or a member of its project; else it is withheld. */
  lemma MembersEventIsForwarded(log: seq<Entry>, s: Setting, k: nat, next: nat, e: LiveEvent)
      returns (m: nat, i: nat, reload: Reload)
    requires Ok(log, s) && k < next < |log| && log[k].Polled? && log[next].Polled?
    requires log[k].item == Some(Event(e)) && !e.kind.Notification?
    ensures k < m < next && i < m && Read(log, s, i, reload) && forall j :: i < j < m ==> !log[j].Checked?
    ensures reload.Row?
    ensures log[m] == if e.project.Some? && (reload.admin || e.project.value in reload.projects)
                      then Sent(InvalidateFrame(e.kind, e.id, e.project)) else Withheld(e)
  {
    m := EveryItemIsAnswered(log, s, k, next);
    var x;
    x, i, reload := ScopedIsForwardedIff(log, s, m);
  }

  /** A re-check was run for the item that the entry at `k` answers. */
  predicate CheckedFor(log: seq<Entry>, k: nat) {
    2 <= k < |log| && log[k - 1].Consulted? && log[k - 2].Checked?
  }

  /** When the item of the turn under way is answered: at once, or when the re-check run for it is done. */
  function AnsweredAt(log: seq<Entry>, s: Setting, k: nat): nat
    requires k < |log| && 0 < |Polls(log[..k])| <= |s.script|
  {
    Now(log[..k], s).itemAt + (if CheckedFor(log, k) then Now(log[..k], s).itemTakes else 0)
  }

  /** A decision on the item keeps the turn and its time. */
  lemma DecidedInTurn(log: seq<Entry>, s: Setting, k: nat)
    requires Ok(log, s) && 0 < k < |log| && log[k - 1].Consulted? && !Pulse(log[..k], s)
    ensures 0 < |Polls(log[..k])| <= |s.script| && log[k - 1].at == Now(log[..k], s).itemAt
    ensures CheckedFor(log, k) ==> log[k - 2].begun == log[k - 1].at
  {
    assert OkAt(log, k - 1, s) && log[..k][..k - 1] == log[..k - 1];
    if CheckedFor(log, k) {
      assert OkAt(log, k - 2, s) && log[..k - 1][..k - 2] == log[..k - 2];
    }
  }

  /** Every project-scoped event that is forwarded was visible under a re-check with no later one in between.
      When it goes out that re-check is less than the reuse window old, counted from its start; or it was run
      for this very event, and is as old as it took. */
  lemma ForwardedIsAuthorised(log: seq<Entry>, s: Setting, k: nat)
      returns (i: nat, decided: nat, reload: Reload)
    requires Ok(log, s) && k < |log| && log[k].Sent? && log[k].frame.InvalidateFrame?
             && !log[k].frame.kind.Notification?
    // whose rights: those the newest re-check read, of an administrator or a member of the event's project
    ensures log[k].frame.project.Some? && reload.Row? && !reload.mustChangePassword
    ensures reload.admin || log[k].frame.project.value in reload.projects
    ensures s.user.session.Some? ==> reload.familyIsLive
    ensures i < k - 1 && log[k - 1] == Consulted(decided) && Read(log, s, i, reload)
    ensures log[i].Checked? && log[i].begun <= decided < log[i].begun + 2000
    ensures forall j :: i < j < k ==> !log[j].Checked?
    ensures 0 < |Polls(log[..k])| <= |s.script| && decided <= AnsweredAt(log, s, k)
    ensures if CheckedFor(log, k) then AnsweredAt(log, s, k) == log[i].begun + Now(log[..k], s).itemTakes
            else AnsweredAt(log, s, k) < log[i].begun + 2000
  {
    assert OkAt(log, k, s) && OkAt(log, k - 1, s);
    decided := log[k - 1].at;
    var e;
    e, i, reload := ScopedIsForwardedIff(log, s, k);
    NothingFollowsRefusal(log, s, i, k);
    LastGoodIsNewest(log[..k - 1], i);
    DecidedInTurn(log, s, k);
  }

  /** A reused result never extends its own window: whatever relies on a re-check, however many
      reliances lie in between, does so within the window of its start. */
  lemma ReuseNeverExtends(log: seq<Entry>, s: Setting, i: nat, j: nat)
    requires Ok(log, s) && i < j < |log|
    requires log[i].Checked? && log[j].Consulted?
    requires forall m :: i < m < j ==> !log[m].Checked?
    ensures log[i].found.Some? && log[i].begun <= log[j].at < log[i].begun + 2000
  {
    NothingFollowsRefusal(log, s, i, j);
    assert OkAt(log, j, s);
    OkPrefix(log, s, j);
    var g := LastGoodStands(log[..j], s);
    assert log[..j][i] == log[i];
  }

  lemma DecisionMovesOn(before: seq<Entry>, e: Entry, s: Setting, since: nat)
    requires EntryOk(before, e, s) && Steady(s.script, since) && 0 < |Polls(before)| <= |s.script|
    ensures var after := before + [e];
            0 < |Polls(after)| <= |s.script| && DecidedAt(before, s) <= DecidedAt(after, s)
  {
    var turn := |Polls(before)| - 1;
    Snoc(before, e);
    assert InOrder(s.script[turn], Before(s.script, since, turn));
    if e.Polled? {
      assert InOrder(s.script[turn + 1], Before(s.script, since, turn + 1));
    }
  }

  /** The time of the decision the log has come to only moves on. */
  lemma {:induction false} DecisionsAreInOrder(log: seq<Entry>, s: Setting, since: nat, m: nat, n: nat)
    requires Ok(log, s) && Steady(s.script, since) && m <= n <= |log| && |Polls(log[..m])| > 0
    ensures 0 < |Polls(log[..m])| <= |s.script| && 0 < |Polls(log[..n])| <= |s.script|
    ensures DecidedAt(log[..m], s) <= DecidedAt(log[..n], s)
    decreases n
  {
    PollsFit(log, s, m);
    if m < n {
      DecisionsAreInOrder(log, s, since, m, n - 1);
      assert OkAt(log, n - 1, s) && log[..n] == log[..n - 1] + [log[n - 1]];
      DecisionMovesOn(log[..n - 1], log[n - 1], s, since);
    }
  }

  lemma {:induction false} PollsFit(log: seq<Entry>, s: Setting, n: nat)
    requires Ok(log, s) && n <= |log|
    ensures |Polls(log[..n])| <= |s.script|
    decreases n
  {
    if n > 0 {
      PollsFit(log, s, n - 1);
      assert OkAt(log, n - 1, s) && log[..n][..n - 1] == log[..n - 1];
    }
  }

  /** Nor is a re-check run while one can be reused: a busy queue costs one in two seconds. */
  lemma ChecksAreSpaced(log: seq<Entry>, s: Setting, since: nat, i: nat, j: nat)
    requires Ok(log, s) && Steady(s.script, since) && i < j < |log|
    requires log[i].Checked? && log[j].Checked?
    requires forall m :: i < m < j ==> !log[m].Checked?
    ensures log[i].found.Some? && log[i].begun + 2000 <= log[j].begun
  {
    NothingFollowsRefusal(log, s, i, j);
    assert OkAt(log, i, s) && OkAt(log, j, s);
    DecisionsAreInOrder(log, s, since, i, j);
    OkPrefix(log, s, j);
    LastGoodIsNewest(log[..j], i);
  }

  lemma {:induction false} LastGoodIsNewest(log: seq<Entry>, i: nat)
    requires i < |log| && log[i].Checked? && log[i].found.Some?
    requires forall m :: i < m < |log| ==> !log[m].Checked?
    ensures LastGood(log) == Some((log[i].begun, log[i].found.value))
    decreases |log|
  {
    if i < |log| - 1 {
      LastGoodIsNewest(log[..|log| - 1], i);
    }
  }

  /** A notification is forwarded, as it is, to the people it names and withheld from all others: under no
      administrator exception, with no re-check. */
  lemma NotificationReachesItsRecipients(log: seq<Entry>, s: Setting, k: nat) returns (e: LiveEvent)
    requires Ok(log, s) && k < |log|
    requires (log[k].Sent? && log[k].frame.InvalidateFrame? && log[k].frame.kind.Notification?)
             || (log[k].Withheld? && log[k].event.kind.Notification?)
    ensures Pending(log[..k]) == Some(Event(e)) && e.kind.Notification?
    ensures log[k] == if s.user.id in e.recipients then Sent(InvalidateFrame(e.kind, e.id, e.project)) else Withheld(e)
  {
    var before := log[..k];
    assert OkAt(log, k, s);
    e := Pending(before).value.value;
    if LastGood(before).Some? {
      OkPrefix(log, s, k);
      var _ := LastGoodStands(before, s);
    }
  }

  /** A heartbeat is due its interval after the last one handled, and the first when the stream says. */
  lemma {:induction false} DueIsAfterTheLastBeat(log: seq<Entry>, s: Setting) returns (r: Option<nat>)
    ensures r.None? ==> Due(log, s) == s.firstDue && forall j :: 0 <= j < |log| ==> !log[j].Rescheduled?
    ensures r.Some? ==> r.value < |log| && log[r.value].Rescheduled? && Due(log, s) == log[r.value].at + s.heartbeat
    ensures r.Some? ==> forall j :: r.value < j < |log| ==> !log[j].Rescheduled?
    decreases |log|
  {
    if log == [] {
      r := None;
    } else if log[|log| - 1].Rescheduled? {
      r := Some(|log| - 1);
    } else {
      r := DueIsAfterTheLastBeat(log[..|log| - 1], s);
    }
  }

  lemma {:induction false} PulseMeansDue(log: seq<Entry>, s: Setting) returns (i: nat)
    requires Pulse(log, s)
    ensures i < |log| && log[i].Polled? && log[i].at >= Due(log[..i], s)
    ensures forall j :: i < j < |log| ==> !log[j].Polled? && !log[j].Rescheduled?
    decreases |log|
  {
    var n := |log| - 1;
    if log[n].Polled? {
      i := n;
    } else {
      i := PulseMeansDue(log[..n], s);
      assert log[..n][..i] == log[..i];
    }
  }

  /** A heartbeat is handled only when the poll before it found it due, and the ping goes out exactly if the
      deadline has not passed by then. */
  lemma HeartbeatOnlyWhenDue(log: seq<Entry>, s: Setting, m: nat) returns (i: nat, r: Option<nat>)
    requires Ok(log, s) && m < |log| && log[m].Rescheduled?
    ensures i < m && log[i].Polled? && forall j :: i < j < m ==> !log[j].Polled? && !log[j].Rescheduled?
    ensures r.None? ==> log[i].at >= s.firstDue && forall j :: 0 <= j < i ==> !log[j].Rescheduled?
    ensures r.Some? ==> r.value < i && log[r.value].Rescheduled? && log[i].at >= log[r.value].at + s.heartbeat
    ensures m + 1 < |log| ==>
              0 < |Polls(log[..m + 1])| <= |s.script|
              && (log[m + 1] == Sent(PingFrame) <==> Now(log[..m + 1], s).pingAt < s.deadline)
  {
    assert OkAt(log, m, s);
    i := PulseMeansDue(log[..m], s);
    assert log[..m][..i] == log[..i];
    r := DueIsAfterTheLastBeat(log[..i], s);
    if m + 1 < |log| {
      assert OkAt(log, m + 1, s) && log[..m + 1][m] == log[m];
    }
  }

  /** The stream polls before its deadline and ends, for it, only after it. */
  lemma DeadlineIsKept(log: seq<Entry>, s: Setting, i: nat)
    requires Ok(log, s) && i < |log|
    ensures log[i].Polled? ==> log[i].from < s.deadline
    ensures log[i].Ended? && log[i].reason.DeadlinePassed? ==> log[i].reason.at >= s.deadline
    ensures log[i].Ended? && log[i].reason.ClosedByHub? ==> Pending(log[..i]) == Some(Close)
    ensures log[i].Ended? && log[i].reason.Refused? ==> i > 0 && log[i - 1].Checked? && log[i - 1].found.None?
  {
    assert OkAt(log, i, s);
  }

  lemma {:induction false} UnhandledPulseStays(log: seq<Entry>, s: Setting, i: nat, k: nat)
    requires i < k <= |log| && log[i].Polled? && log[i].at >= Due(log[..i], s)
    requires forall m :: i < m < k ==> !log[m].Rescheduled? && !log[m].Polled?
    ensures Pulse(log[..k], s)
    decreases k
  {
    assert log[..k][..k - 1] == log[..k - 1];
    if k > i + 1 {
      UnhandledPulseStays(log, s, i, k - 1);
    }
  }

  /** However busy the queue is: once a poll finds a heartbeat due, it is handled before anything is
      answered and before the next poll. */
  lemma {:induction false} HeartbeatComesFirst(log: seq<Entry>, s: Setting, i: nat, k: nat) returns (m: nat)
    requires Ok(log, s) && i < k < |log|
    requires log[i].Polled? && log[i].at >= Due(log[..i], s)
    requires IsAnswer(log[k]) || log[k].Polled?
    ensures i < m < k && log[m].Rescheduled? && log[m - 1].Consulted?
    decreases k
  {
    assert OkAt(log, k, s);
    if m' :| i < m' < k && log[m'].Rescheduled? {
      m := m';
      assert OkAt(log, m, s);
      assert log[..m][m - 1] == log[m - 1];
    } else if j :| i < j < k && log[j].Polled? {
      m := HeartbeatComesFirst(log, s, i, j);
    } else {
      UnhandledPulseStays(log, s, i, k);
      assert false;
    }
  }

  lemma {:induction false} UnansweredStaysPending(log: seq<Entry>, i: nat, k: nat)
    requires i < k <= |log| && log[i].Polled?
    requires forall m :: i < m < k ==> !IsAnswer(log[m]) && !log[m].Polled?
    ensures Pending(log[..k]) == log[i].item
    decreases k
  {
    assert log[..k][..k - 1] == log[..k - 1];
    if k > i + 1 {
      UnansweredStaysPending(log, i, k - 1);
    }
  }

  /** Nothing taken off the queue is dropped: before the next poll it is answered - by its own frame, or
      because the user may not see it; a resync by a resync frame - and a close is followed by no poll. */
  lemma {:induction false} EveryItemIsAnswered(log: seq<Entry>, s: Setting, i: nat, k: nat) returns (m: nat)
    requires Ok(log, s) && i < k < |log|
    requires log[i].Polled? && log[i].item.Some? && log[k].Polled?
    ensures i < m < k && Pending(log[..m]) == log[i].item && forall n :: i < n < m ==> !log[n].Polled?
    ensures match log[i].item.value
            case Event(x) => log[m] == Withheld(x) || log[m] == Sent(InvalidateFrame(x.kind, x.id, x.project))
            case Resync => log[m] == Sent(ResyncFrame)
            case Close => false
    decreases k
  {
    assert OkAt(log, k, s);
    if j :| i < j < k && log[j].Polled? {
      m := EveryItemIsAnswered(log, s, i, j);
    } else if m' :| i < m' < k && IsAnswer(log[m']) && forall n :: i < n < m' ==> !IsAnswer(log[n]) {
      m := m';
      UnansweredStaysPending(log, i, m);
      assert OkAt(log, m, s);
    } else {
      NoFirstMeansNone(log, i, k);
      UnansweredStaysPending(log, i, k);
      assert false;
    }
  }

  lemma {:induction false} NoFirstMeansNone(log: seq<Entry>, i: nat, k: nat)
    requires i < k <= |log|
    requires forall m :: i < m < k && IsAnswer(log[m]) ==> exists n :: i < n < m && IsAnswer(log[n])
    ensures forall m :: i < m < k ==> !IsAnswer(log[m])
  {
    if k > i + 1 {
      NoFirstMeansNone(log, i, k - 1);
    }
  }

  // ----- The generator -----

  function Frames(log: seq<Entry>): seq<Frame> {
    if log == [] then []
    else
      Frames(log[..|log| - 1]) + (if log[|log| - 1].Sent? then [log[|log| - 1].frame] else [])
  }

  /** The generator's variables are what the log says they are. */
  ghost predicate Tied(log: seq<Entry>, s: Setting, current: User, checkedAt: Option<nat>, upTo: nat) {
    && Ok(log, s)
    && current == Current(log, s.user)
    && checkedAt == (if LastGood(log).Some? then Some(LastGood(log).value.0) else None)
    && current.id == s.user.id
    && (checkedAt.Some? ==> checkedAt.value <= upTo)
    && !Halted(log)
  }

  /** The generator's variables at a point where nothing is owed. */
  ghost predicate Settled(log: seq<Entry>, s: Setting, current: User, checkedAt: Option<nat>, due: nat, upTo: nat) {
    Tied(log, s, current, checkedAt, upTo) && due == Due(log, s) && Pending(log) == None && !Pulse(log, s)
        && Free(log, s)
  }

  predicate During(log: seq<Entry>, s: Setting, turn: Turn) {
    0 < |Polls(log)| <= |s.script| && Now(log, s) == turn
  }

  /** Nothing was polled, answered, beaten or sent between the two. */
  predicate Same(log: seq<Entry>, later: seq<Entry>, s: Setting) {
    && Due(later, s) == Due(log, s) && Pending(later) == Pending(log) && Pulse(later, s) == Pulse(log, s)
    && Frames(later) == Frames(log) && Polls(later) == Polls(log)
  }

  predicate Halted(log: seq<Entry>) {
    log != [] && (log[|log| - 1].Ended? || (log[|log| - 1].Checked? && log[|log| - 1].found.None?))
  }

  lemma Snoc(log: seq<Entry>, e: Entry)
    ensures (log + [e])[..|log|] == log
    ensures Frames(log + [e]) == Frames(log) + (if e.Sent? then [e.frame] else [])
    ensures Polls(log + [e]) == Polls(log) + (if e.Polled? then [e.item] else [])
  {
    assert (log + [e])[..|log|] == log;
  }

  /** An entry that is no re-check leaves the variables alone. */
  lemma TiedSnoc(log: seq<Entry>, e: Entry, s: Setting, current: User, checkedAt: Option<nat>, upTo: nat)
    requires Tied(log, s, current, checkedAt, upTo) && EntryOk(log, e, s) && !e.Checked? && !e.Ended?
    ensures Tied(log + [e], s, current, checkedAt, upTo)
    ensures (log + [e])[..|log|] == log
    ensures Frames(log + [e]) == Frames(log) + (if e.Sent? then [e.frame] else [])
    ensures Polls(log + [e]) == Polls(log) + (if e.Polled? then [e.item] else [])
  {
    Snoc(log, e);
    OkSnoc(log, e, s);
    assert LastGood(log + [e]) == LastGood(log);
  }

  /** A successful re-check moves the variables to itself. */
  lemma TiedChecked(log: seq<Entry>, s: Setting, current: User, checkedAt: Option<nat>, now: nat, found: User)
    requires Tied(log, s, current, checkedAt, now) && CheckOk(log, now, Some(found), s)
    ensures Tied(log + [Checked(now, Some(found))], s, found, Some(now), now)
    ensures Same(log, log + [Checked(now, Some(found))], s) && ConsultOk(log + [Checked(now, Some(found))], now, s)
  {
    Snoc(log, Checked(now, Some(found)));
    OkSnoc(log, Checked(now, Some(found)), s);
  }

  lemma TiedConsulted(log: seq<Entry>, s: Setting, current: User, checkedAt: Option<nat>, now: nat)
    requires Tied(log, s, current, checkedAt, now) && ConsultOk(log, now, s)
    ensures Tied(log + [Consulted(now)], s, current, checkedAt, now)
    ensures Same(log, log + [Consulted(now)], s)
  {
    TiedSnoc(log, Consulted(now), s, current, checkedAt, now);
  }

  /** The stream's `ready` frame. */
  lemma Opening(s: Setting, begun: nat)
    ensures Settled([Sent(ReadyFrame)], s, s.user, None, s.firstDue, begun)
    ensures Frames([Sent(ReadyFrame)]) == [ReadyFrame] && Polls([Sent(ReadyFrame)]) == []
  {
    var ready := [Sent(ReadyFrame)];
    assert ready[..0] == [] && [] + [Sent(ReadyFrame)] == ready;
    assert EntryOk([], Sent(ReadyFrame), s);
    TiedSnoc([], Sent(ReadyFrame), s, s.user, None, begun);
  }

  lemma PollWhenSettled(log: seq<Entry>, s: Setting, current: User, checkedAt: Option<nat>, due: nat, turn: Turn)
    requires Settled(log, s, current, checkedAt, due, turn.top) && turn.top <= turn.woken && turn.top < s.deadline
    requires |Polls(log)| < |s.script| && s.script[|Polls(log)|] == turn
    ensures var polled := log + [Polled(turn.top, turn.woken, turn.item)];
            && Tied(polled, s, current, checkedAt, turn.woken)
            && due == Due(polled, s) && Pulse(polled, s) == (turn.woken >= due) && Pending(polled) == turn.item
            && Frames(polled) == Frames(log) && Polls(polled) == Polls(log) + [turn.item]
            && During(polled, s, turn) && polled[|polled| - 1].Polled?
  {
    TiedSnoc(log, Polled(turn.top, turn.woken, turn.item), s, current, checkedAt, turn.woken);
  }

  /** The log after a heartbeat, with its ping while the deadline allows one. */
  lemma HeartbeatHandled(log: seq<Entry>, s: Setting, current: User, checkedAt: Option<nat>, turn: Turn)
    requires Tied(log, s, current, checkedAt, turn.beatAt) && During(log, s, turn)
    requires Pulse(log, s) && log != [] && log[|log| - 1].Consulted?
    ensures var beat := log + [Rescheduled(turn.beatDone)];
            var after := if turn.pingAt < s.deadline then beat + [Sent(PingFrame)] else beat;
            && Tied(after, s, current, checkedAt, turn.beatAt)
            && Due(after, s) == turn.beatDone + s.heartbeat && !Pulse(after, s) && Pending(after) == Pending(log)
               && Free(after, s)
            && Frames(after) == Frames(log) + (if turn.pingAt < s.deadline then [PingFrame] else [])
               && Polls(after) == Polls(log)
  {
    TiedSnoc(log, Rescheduled(turn.beatDone), s, current, checkedAt, turn.beatAt);
    var beat := log + [Rescheduled(turn.beatDone)];
    if turn.pingAt < s.deadline {
      TiedSnoc(beat, Sent(PingFrame), s, current, checkedAt, turn.beatAt);
    }
  }

  lemma DeadlineEnds(log: seq<Entry>, s: Setting, current: User, checkedAt: Option<nat>, due: nat, upTo: nat)
    requires Settled(log, s, current, checkedAt, due, upTo) && |Polls(log)| < |s.script|
    requires s.script[|Polls(log)|].top >= s.deadline
    ensures var ended := log + [Ended(DeadlinePassed(s.script[|Polls(log)|].top))];
            Ok(ended, s) && Frames(ended) == Frames(log) && Polls(ended) == Polls(log)
  {
    Conclude(log, DeadlinePassed(s.script[|Polls(log)|].top), s);
  }

  lemma Conclude(log: seq<Entry>, why: Reason, s: Setting)
    requires Ok(log, s) && EntryOk(log, Ended(why), s)
    ensures Ok(log + [Ended(why)], s)
    ensures Frames(log + [Ended(why)]) == Frames(log) && Polls(log + [Ended(why)]) == Polls(log)
  {
    OkSnoc(log, Ended(why), s);
    Snoc(log, Ended(why));
  }

  function Items(script: seq<Turn>): (r: seq<Option<Item>>)
    ensures |r| == |script|
  {
    if script == [] then [] else Items(script[..|script| - 1]) + [script[|script| - 1].item]
  }

  /** The first `n` turns are in the log. */
  ghost predicate SoFar(frames: seq<Frame>, log: seq<Entry>, s: Setting, n: nat) {
    n <= |s.script| && Ok(log, s) && frames == Frames(log) && Polls(log) == Items(s.script[..n]) && |Polls(log)| == n
  }

  lemma NextItem(before: seq<Entry>, frames: seq<Frame>, log: seq<Entry>, s: Setting, n: nat)
    requires n < |s.script| && Polls(before) == Items(s.script[..n]) && |Polls(before)| == n
    requires Ok(log, s) && frames == Frames(log) && Polls(log) == Polls(before) + [s.script[n].item]
    ensures SoFar(frames, log, s, n + 1)
  {
    assert s.script[..n + 1][..n] == s.script[..n];
  }

  /** `_recheck_or_reuse`. */
  method RecheckOrReuse(current: User, checkedAt: Option<nat>, now: nat, reload: Reload, log: seq<Entry>,
      ghost s: Setting)
    returns (found: Option<User>, stamp: Option<nat>, log': seq<Entry>)
    requires Tied(log, s, current, checkedAt, now) && Wanted(log, s) && now == DecidedAt(log, s)
             && reload == Finds(log, s)
    ensures Ok(log', s) && Frames(log') == Frames(log) && Polls(log') == Polls(log)
    ensures log' != []
    ensures found.Some? ==>
              && Tied(log', s, found.value, stamp, now)
              && log'[|log'| - 1] == Consulted(now)
              && Same(log, log', s)
    ensures found.None? ==> log'[|log'| - 1] == Checked(now, None)
  {
    if checkedAt.Some? && now - checkedAt.value < REUSE {
      log' := log + [Consulted(now)];
      TiedConsulted(log, s, current, checkedAt, now);
      return Some(current), checkedAt, log';
    }
    var refreshed := Recheck(current, reload);
    var checked := log + [Checked(now, refreshed)];
    if refreshed.None? {
      Snoc(log, Checked(now, None));
      OkSnoc(log, Checked(now, None), s);
      return None, checkedAt, checked;
    }
    TiedChecked(log, s, current, checkedAt, now, refreshed.value);
    TiedConsulted(checked, s, refreshed.value, Some(now), now);
    return refreshed, Some(now), checked + [Consulted(now)];
  }

  /** The heartbeat of one turn, if it is due; `going` is false when the re-check was refused. */
  method Beat(turn: Turn, deadline: nat, heartbeat: nat, current: User, checkedAt: Option<nat>, due: nat,
              frames: seq<Frame>, log: seq<Entry>, ghost s: Setting)
    returns (going: bool, current': User, checkedAt': Option<nat>, due': nat, frames': seq<Frame>, log': seq<Entry>)
    requires During(log, s, turn) && log[|log| - 1].Polled?
    requires turn.woken <= turn.beatAt <= turn.beatDone <= turn.pingAt && s.heartbeat == heartbeat
             && s.deadline == deadline
    requires Tied(log, s, current, checkedAt, turn.woken) && due == Due(log, s)
    requires Pulse(log, s) == (turn.woken >= due) && frames == Frames(log)
    ensures Ok(log', s) && frames' == Frames(log') && Polls(log') == Polls(log)
    ensures if going then
              && Tied(log', s, current', checkedAt', turn.beatAt) && due' == Due(log', s)
              && !Pulse(log', s) && Pending(log') == Pending(log) && Free(log', s)
            else log' != [] && log'[|log'| - 1].Ended?
  {
    going, current', checkedAt', due', frames', log' := true, current, checkedAt, due, frames, log;
    if turn.woken >= due {
      var found;
      found, checkedAt', log' := RecheckOrReuse(current, checkedAt, turn.beatAt, turn.beatFinds, log, s);
      if found.None? {
        Conclude(log', Refused, s);
        log', going := log' + [Ended(Refused)], false;
        return;
      }
      current' := found.value;
      due' := turn.beatDone + heartbeat;
      HeartbeatHandled(log', s, current', checkedAt', turn);
      log' := log' + [Rescheduled(turn.beatDone)];
      if turn.pingAt < deadline {
        frames' := frames' + [PingFrame];
        log' := log' + [Sent(PingFrame)];
      }
    }
  }

  /** An event: re-checked unless it is a notification, then forwarded or withheld. */
  method Forward(turn: Turn, e: LiveEvent, current: User, checkedAt: Option<nat>, frames: seq<Frame>, log: seq<Entry>,
      ghost s: Setting)
    returns (going: bool, current': User, checkedAt': Option<nat>, frames': seq<Frame>, log': seq<Entry>)
    requires During(log, s, turn) && Free(log, s) && turn.beatAt <= turn.itemAt && turn.item == Some(Event(e))
    requires Tied(log, s, current, checkedAt, turn.beatAt) && !Pulse(log, s) && Pending(log) == turn.item
             && frames == Frames(log)
    ensures Ok(log', s) && frames' == Frames(log') && Polls(log') == Polls(log)
    ensures if going then Settled(log', s, current', checkedAt', Due(log, s), turn.itemAt)
            else log' != [] && log'[|log'| - 1].Ended?
  {
    going, current', checkedAt', frames', log' := true, current, checkedAt, frames, log;
    if !e.kind.Notification? {
      var found;
      found, checkedAt', log' := RecheckOrReuse(current, checkedAt, turn.itemAt, turn.itemFinds, log, s);
      if found.None? {
        Conclude(log', Refused, s);
        log', going := log' + [Ended(Refused)], false;
        return;
      }
      current' := found.value;
    }
    if VisibleTo(current', e) {
      frames' := frames' + [FrameOf(e)];
      TiedSnoc(log', Sent(FrameOf(e)), s, current', checkedAt', turn.itemAt);
      log' := log' + [Sent(FrameOf(e))];
    } else {
      TiedSnoc(log', Withheld(e), s, current', checkedAt', turn.itemAt);
      log' := log' + [Withheld(e)];
    }
  }

  /** The item of one turn; `going` is false when it, or its re-check, ends the stream. */
  method Answer(turn: Turn, current: User, checkedAt: Option<nat>, frames: seq<Frame>, log: seq<Entry>,
      ghost s: Setting)
    returns (going: bool, current': User, checkedAt': Option<nat>, frames': seq<Frame>, log': seq<Entry>)
    requires During(log, s, turn) && Free(log, s) && turn.beatAt <= turn.itemAt
    requires Tied(log, s, current, checkedAt, turn.beatAt) && !Pulse(log, s) && Pending(log) == turn.item
             && frames == Frames(log)
    ensures Ok(log', s) && frames' == Frames(log') && Polls(log') == Polls(log)
    ensures if going then Settled(log', s, current', checkedAt', Due(log, s), turn.itemAt)
            else log' != [] && log'[|log'| - 1].Ended?
  {
    going, current', checkedAt', frames', log' := true, current, checkedAt, frames, log;
    if turn.item.None? {
    } else if turn.item.value.Resync? {
      frames' := frames' + [ResyncFrame];
      TiedSnoc(log', Sent(ResyncFrame), s, current', checkedAt', turn.itemAt);
      log' := log' + [Sent(ResyncFrame)];
    } else if turn.item.value.Close? {
      Conclude(log', ClosedByHub, s);
      log', going := log' + [Ended(ClosedByHub)], false;
    } else {
      going, current', checkedAt', frames', log' :=
          Forward(turn, turn.item.value.value, current, checkedAt, frames, log, s);
    }
  }

  /** One turn of the loop, the deadline not having passed. */
  method TakeTurn(turn: Turn, deadline: nat, heartbeat: nat, current: User, checkedAt: Option<nat>, due: nat,
                  frames: seq<Frame>, log: seq<Entry>, ghost s: Setting)
    returns (going: bool, current': User, checkedAt': Option<nat>, due': nat, frames': seq<Frame>, log': seq<Entry>)
    requires |Polls(log)| < |s.script| && s.script[|Polls(log)|] == turn
    requires InOrder(turn, turn.top) && turn.top < deadline && s.heartbeat == heartbeat && s.deadline == deadline
    requires Settled(log, s, current, checkedAt, due, turn.top) && frames == Frames(log)
    ensures Ok(log', s) && frames' == Frames(log') && Polls(log') == Polls(log) + [turn.item]
    ensures if going then Settled(log', s, current', checkedAt', due', turn.itemAt)
            else log' != [] && log'[|log'| - 1].Ended?
  {
    PollWhenSettled(log, s, current, checkedAt, due, turn);
    log' := log + [Polled(turn.top, turn.woken, turn.item)];
    going, current', checkedAt', due', frames', log' :=
        Beat(turn, deadline, heartbeat, current, checkedAt, due, frames, log', s);
    if going {
      going, current', checkedAt', frames', log' := Answer(turn, current', checkedAt', frames', log', s);
    }
  }

  /** `live_event_stream`. The script running out is the client leaving. */
  method LiveEventStream(user: User, heartbeat: nat, maximum: nat, start: nat, begun: nat, script: seq<Turn>)
    returns (frames: seq<Frame>, log: seq<Entry>)
    requires start <= begun && Steady(script, begun)
    ensures Ok(log, Setting(user, heartbeat, start + maximum, begun + heartbeat, script))
    ensures frames == Frames(log)
    // every item is taken in order, until the stream ends itself or the client leaves
    ensures |Polls(log)| <= |script| && Polls(log) == Items(script[..|Polls(log)|])
    ensures (|Polls(log)| == |script| && Pending(log) == None) || (log != [] && log[|log| - 1].Ended?)
  {
    var deadline := start + maximum;
    ghost var s := Setting(user, heartbeat, deadline, begun + heartbeat, script);
    var current, checkedAt := user, None;
    frames := [ReadyFrame];
    log := [Sent(ReadyFrame)];
    Opening(s, begun);
    var due: nat := begun + heartbeat;
    var going := true;
    var i := 0;
    while going && i < |script|
      invariant i <= |script| && SoFar(frames, log, s, i)
      invariant if going then Settled(log, s, current, checkedAt, due, Before(script, begun, i))
                else log != [] && log[|log| - 1].Ended?
      decreases |script| - i, going
    {
      var turn := script[i];
      assert InOrder(turn, Before(script, begun, i));
      if turn.top >= deadline {
        DeadlineEnds(log, s, current, checkedAt, due, Before(script, begun, i));
        log := log + [Ended(DeadlinePassed(turn.top))];
        going := false;
      } else {
        ghost var before := log;
        going, current, checkedAt, due, frames, log :=
            TakeTurn(turn, deadline, heartbeat, current, checkedAt, due, frames, log, s);
        NextItem(before, frames, log, s, i);
        i := i + 1;
      }
    }
  }
}
