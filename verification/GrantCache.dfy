/** The read-through cache over permission grants (`core/grant_cache.py`), with any number of loads and
    writers interleaved at every Redis command, query and commit.

    The grants of a user are a function of the database, so a snapshot is named by the database version
    it was read from; every commit makes a new version. */
module GrantCache {
  import opened Prelude

  type UserId = nat
  type LoadId = nat
  type WriterId = nat

  datatype Key = Key(epoch: nat, user: UserId)

  /** What a load may not predate, fixed when it begins: `role` is the newest role change whose epoch bump
      had completed, `evicted` the newest membership write of the user whose eviction had completed, and
      `quiet` the newest of those whose commit-to-eviction window no load of the user overlapped. */
  datatype Marks = Marks(role: nat, quiet: nat, evicted: nat)

  datatype Load =
    | Begun(user: UserId, marks: Marks)
    | Keyed(user: UserId, marks: Marks, epoch: nat)
    | Missed(user: UserId, marks: Marks, key: Option<nat>)   // no key when Redis was unreachable
    | Queried(user: UserId, marks: Marks, key: Option<nat>, version: nat)
    | Returned(user: UserId, marks: Marks, version: nat)

  datatype Writer =
    | RoleCommitted(version: nat)
    | MemberCommitted(user: UserId, version: nat, quiet: bool)
    | MemberKeyed(user: UserId, version: nat, quiet: bool, epoch: nat)

  /** A completed eviction: the write's version and the epoch whose key was deleted. */
  datatype Eviction = Eviction(version: nat, epoch: nat)

  /** `floors[e]` is the newest role change whose bump had completed when the epoch became `e`. The last
      two maps are the newest evictions completed per user, all of them and the quiet ones. */
  datatype World = World(
    version: nat,
    epoch: nat,
    entries: map<Key, nat>,
    floors: seq<nat>,
    loads: map<LoadId, Load>,
    writers: map<WriterId, Writer>,
    evicted: map<UserId, Eviction>,
    quiet: map<UserId, Eviction>)

  datatype Step =
    | Begin(load: LoadId, user: UserId)
    | ReadEpoch(load: LoadId, reachable: bool)
    | ReadEntry(load: LoadId, usable: bool)      // not usable: a Redis error or unparseable JSON
    | Query(load: LoadId)
    | WriteEntry(load: LoadId, succeeds: bool)
    | CommitRole(writer: WriterId)
    | Bump(writer: WriterId)
    | LostBump(writer: WriterId, applied: bool)  // the INCR raised, whether or not it reached Redis
    | CommitMember(writer: WriterId, user: UserId)
    | KeyForEviction(writer: WriterId, reachable: bool)
    | Evict(writer: WriterId, succeeds: bool)
    | CommitOther
    | Expire(key: Key)

  const INITIAL := World(0, 0, map[], [0], map[], map[], map[], map[])

  function Newest(m: map<UserId, Eviction>, user: UserId): Eviction {
    if user in m then m[user] else Eviction(0, 0)
  }

  function Raise(m: map<UserId, Eviction>, user: UserId, e: Eviction): map<UserId, Eviction> {
    if e.version > Newest(m, user).version then m[user := e] else m
  }

  predicate InFlight(l: Load, user: UserId) {
    !l.Returned? && l.user == user
  }

  predicate Loading(w: World, user: UserId) {
    exists l :: l in w.loads && InFlight(w.loads[l], user)
  }

  /** A load of the user beginning inside a window spoils it. */
  function Spoiled(wr: Writer, user: UserId): Writer {
    match wr
    case RoleCommitted(_) => wr
    case MemberCommitted(u, v, quiet) => MemberCommitted(u, v, quiet && u != user)
    case MemberKeyed(u, v, quiet, e) => MemberKeyed(u, v, quiet && u != user, e)
  }

  predicate Enabled(w: World, step: Step) {
    match step
    case Begin(l, _) => l !in w.loads
    case ReadEpoch(l, _) => l in w.loads && w.loads[l].Begun?
    case ReadEntry(l, _) => l in w.loads && w.loads[l].Keyed?
    case Query(l) => l in w.loads && w.loads[l].Missed?
    case WriteEntry(l, _) => l in w.loads && w.loads[l].Queried?
    case CommitRole(x) => x !in w.writers
    case Bump(x) => x in w.writers && w.writers[x].RoleCommitted?
    case LostBump(x, _) => x in w.writers && w.writers[x].RoleCommitted?
    case CommitMember(x, _) => x !in w.writers
    case KeyForEviction(x, _) => x in w.writers && w.writers[x].MemberCommitted?
    case Evict(x, _) => x in w.writers && w.writers[x].MemberKeyed?
    case CommitOther => true
    case Expire(_) => true
  }

  function RoleFloor(w: World): nat {
    if w.floors == [] then 0 else w.floors[|w.floors| - 1]
  }

  function Next(w: World, step: Step): World
    requires Enabled(w, step)
  {
    match step
    case Begin(l, u) =>
      w.(loads := w.loads[l := Begun(u, Marks(RoleFloor(w), Newest(w.quiet, u).version, Newest(w.evicted, u).version))],
         writers := map x | x in w.writers :: Spoiled(w.writers[x], u))
    case ReadEpoch(l, reachable) =>
      var c := w.loads[l];
      w.(loads := w.loads[l := if reachable then Keyed(c.user, c.marks, w.epoch) else Missed(c.user, c.marks, None)])
    case ReadEntry(l, usable) =>
      var c := w.loads[l];
      var k := Key(c.epoch, c.user);
      w.(loads := w.loads[l := if usable && k in w.entries then Returned(c.user, c.marks, w.entries[k])
                               else Missed(c.user, c.marks, Some(c.epoch))])
    case Query(l) =>
      var c := w.loads[l];
      w.(loads := w.loads[l := Queried(c.user, c.marks, c.key, w.version)])
    case WriteEntry(l, succeeds) =>
      var c := w.loads[l];
      w.(loads := w.loads[l := Returned(c.user, c.marks, c.version)],
         entries := if succeeds && c.key.Some? then w.entries[Key(c.key.value, c.user) := c.version] else w.entries)
    case CommitRole(x) =>
      w.(version := w.version + 1, writers := w.writers[x := RoleCommitted(w.version + 1)])
    case Bump(x) =>
      var v := w.writers[x].version;
      w.(epoch := w.epoch + 1, floors := w.floors + [if v > RoleFloor(w) then v else RoleFloor(w)],
         writers := w.writers - {x})
    case LostBump(x, applied) =>
      w.(epoch := if applied then w.epoch + 1 else w.epoch,
         floors := if applied then w.floors + [RoleFloor(w)] else w.floors,
         writers := w.writers - {x})
    case CommitMember(x, u) =>
      w.(version := w.version + 1, writers := w.writers[x := MemberCommitted(u, w.version + 1, !Loading(w, u))])
    case KeyForEviction(x, reachable) =>
      var c := w.writers[x];
      w.(writers := if reachable then w.writers[x := MemberKeyed(c.user, c.version, c.quiet, w.epoch)]
          else w.writers - {x})
    case Evict(x, succeeds) =>
      var c := w.writers[x];
      if !succeeds then w.(writers := w.writers - {x})
      else w.(entries := w.entries - {Key(c.epoch, c.user)}, writers := w.writers - {x},
              evicted := Raise(w.evicted, c.user, Eviction(c.version, c.epoch)),
              quiet := if c.quiet then Raise(w.quiet, c.user, Eviction(c.version, c.epoch)) else w.quiet)
    case CommitOther => w.(version := w.version + 1)
    case Expire(k) => w.(entries := w.entries - {k})
  }

  ghost predicate Legal(w: World, steps: seq<Step>)
    decreases |steps|
  {
    steps == [] || (Enabled(w, steps[0]) && Legal(Next(w, steps[0]), steps[1..]))
  }

  ghost function After(w: World, steps: seq<Step>): World
    requires Legal(w, steps)
    decreases |steps|
  {
    if steps == [] then w else After(Next(w, steps[0]), steps[1..])
  }

  // ---------------------------------------------------------------- invariant

  ghost predicate EpochsOk(w: World) {
    && |w.floors| == w.epoch + 1
    && (forall i, j :: 0 <= i <= j < |w.floors| ==> w.floors[i] <= w.floors[j])
    && w.floors[w.epoch] <= w.version
  }

  /** An entry is at least as new as every role change bumped before its epoch began, because whoever
      wrote it read the epoch before the database. */
  ghost predicate EntryOk(w: World, k: Key)
    requires EpochsOk(w) && k in w.entries
  {
    && k.epoch <= w.epoch
    && w.floors[k.epoch] <= w.entries[k]
    && (k.epoch >= Newest(w.quiet, k.user).epoch ==> w.entries[k] >= Newest(w.quiet, k.user).version)
  }

  ghost predicate KeyOk(w: World, user: UserId, epoch: nat) {
    Newest(w.quiet, user).epoch <= epoch <= w.epoch
  }

  ghost predicate LoadOk(w: World, l: Load)
    requires EpochsOk(w)
  {
    && (!l.Returned? ==> l.marks.role <= w.floors[w.epoch] && l.marks.quiet <= Newest(w.quiet, l.user).version)
    && match l
       case Begun(_, _) => true
       case Keyed(u, marks, e) => KeyOk(w, u, e) && marks.role <= w.floors[e]
       case Missed(u, _, key) => key.Some? ==> KeyOk(w, u, key.value)
       case Queried(u, marks, key, v) =>
         && marks.role <= v && Newest(w.quiet, u).version <= v <= w.version
         && (key.Some? ==> KeyOk(w, u, key.value) && w.floors[key.value] <= v)
       case Returned(_, marks, v) => marks.role <= v && marks.quiet <= v
  }

  ghost predicate WriterOk(w: World, x: Writer) {
    && x.version <= w.version
    && (!x.RoleCommitted? && x.quiet ==> !Loading(w, x.user))
    && (x.MemberKeyed? ==> x.epoch <= w.epoch)
    && (x.MemberKeyed? && x.quiet ==>
          forall k :: k in w.entries && k.user == x.user && k.epoch > x.epoch ==> w.entries[k] >= x.version)
  }

  ghost predicate Inv(w: World) {
    && EpochsOk(w)
    && QuietOk(w)
    && (forall k :: k in w.entries ==> EntryOk(w, k))
    && (forall l :: l in w.loads ==> LoadOk(w, w.loads[l]))
    && (forall x :: x in w.writers ==> WriterOk(w, w.writers[x]))
  }

  ghost predicate QuietOk(w: World) {
    forall u :: u in w.quiet ==> w.quiet[u].epoch <= w.epoch && w.quiet[u].version <= w.version
  }

  /** The epoch, the database and the floors only ever move forward. */
  ghost predicate Grows(w: World, t: World) {
    EpochsOk(w) && EpochsOk(t) && w.floors <= t.floors && w.version <= t.version
  }

  lemma StepGrows(w: World, step: Step)
    requires Inv(w) && Enabled(w, step)
    ensures Grows(w, Next(w, step)) && QuietOk(Next(w, step))
  {
  }

  lemma EntryStays(w: World, t: World, k: Key)
    requires Grows(w, t) && k in w.entries && EntryOk(w, k) && k in t.entries && t.entries[k] == w.entries[k]
    requires Newest(t.quiet, k.user) == Newest(w.quiet, k.user)
    ensures EntryOk(t, k)
  {
  }

  lemma LoadStays(w: World, t: World, l: Load)
    requires Grows(w, t) && LoadOk(w, l)
    requires l.Returned? || Newest(t.quiet, l.user) == Newest(w.quiet, l.user)
    ensures LoadOk(t, l)
  {
  }

  /** No load of the user is in flight when a quiet eviction raises the user's mark. */
  lemma QuietOnlyWhenIdle(w: World, step: Step, u: UserId)
    requires Inv(w) && Enabled(w, step)
    ensures Newest(Next(w, step).quiet, u) == Newest(w.quiet, u)
            || (step.Evict? && w.writers[step.writer].user == u && w.writers[step.writer].quiet
                && Newest(Next(w, step).quiet, u) ==
                   Eviction(w.writers[step.writer].version, w.writers[step.writer].epoch)
                && forall l :: l in w.loads ==> !InFlight(w.loads[l], u))
  {
    if step.Evict? {
      assert WriterOk(w, w.writers[step.writer]);
    }
  }

  /** An entry is written by a load that read the database after the epoch in its key. */
  lemma WrittenEntryIsOk(w: World, l: LoadId, k: Key)
    requires EpochsOk(w) && l in w.loads && w.loads[l].Queried? && LoadOk(w, w.loads[l])
    requires w.loads[l].key.Some? && k == Key(w.loads[l].key.value, w.loads[l].user)
    requires EpochsOk(Next(w, WriteEntry(l, true)))
    ensures k in Next(w, WriteEntry(l, true)).entries && EntryOk(Next(w, WriteEntry(l, true)), k)
  {
  }

  /** What a quiet eviction leaves of the user's entries is at least as new as the write. */
  lemma EvictionLeavesNewer(w: World, x: WriterId, k: Key)
    requires Enabled(w, Evict(x, true)) && WriterOk(w, w.writers[x]) && w.writers[x].quiet
    requires k in Next(w, Evict(x, true)).entries && k.user == w.writers[x].user && k.epoch >= w.writers[x].epoch
    ensures Next(w, Evict(x, true)).entries[k] >= w.writers[x].version
  {
  }

  lemma StepKeepsEntry(w: World, step: Step, k: Key)
    requires Inv(w) && Enabled(w, step) && Grows(w, Next(w, step)) && k in Next(w, step).entries
    ensures EntryOk(Next(w, step), k)
  {
    var t := Next(w, step);
    if k !in w.entries || t.entries[k] != w.entries[k] {
      assert LoadOk(w, w.loads[step.load]);
      WrittenEntryIsOk(w, step.load, k);
    } else {
      assert EntryOk(w, k);
      QuietOnlyWhenIdle(w, step, k.user);
      if Newest(t.quiet, k.user) == Newest(w.quiet, k.user) {
        EntryStays(w, t, k);
      } else {
        assert WriterOk(w, w.writers[step.writer]);
        if k.epoch >= w.writers[step.writer].epoch {
          EvictionLeavesNewer(w, step.writer, k);
        }
      }
    }
  }

  /** The load that moves: it reads what is current, or an entry of the epoch it read. */
  lemma LoadMoves(w: World, step: Step, c: Load)
    requires step.ReadEpoch? || step.ReadEntry? || step.Query? || step.WriteEntry?
    requires EpochsOk(w) && QuietOk(w) && Enabled(w, step) && EpochsOk(Next(w, step))
    requires c == w.loads[step.load] && LoadOk(w, c)
    requires step.ReadEntry? && Key(c.epoch, c.user) in w.entries ==> EntryOk(w, Key(c.epoch, c.user))
    ensures LoadOk(Next(w, step), Next(w, step).loads[step.load])
  {
    if step.ReadEpoch? {
      assert Newest(w.quiet, c.user).epoch <= w.epoch;
    }
  }

  lemma StepKeepsLoad(w: World, step: Step, l: LoadId)
    requires Inv(w) && Enabled(w, step) && Grows(w, Next(w, step)) && l in Next(w, step).loads
    ensures LoadOk(Next(w, step), Next(w, step).loads[l])
  {
    if l in w.loads {
      var c := w.loads[l];
      assert LoadOk(w, c);
      if (step.ReadEpoch? || step.ReadEntry? || step.Query? || step.WriteEntry?) && step.load == l {
        assert step.ReadEntry? && Key(c.epoch, c.user) in w.entries ==> EntryOk(w, Key(c.epoch, c.user));
        LoadMoves(w, step, c);
      } else {
        QuietOnlyWhenIdle(w, step, c.user);
        assert !c.Returned? ==> InFlight(c, c.user);
        LoadStays(w, Next(w, step), c);
      }
    }
  }

  lemma LoadingNeedsBegin(w: World, step: Step, u: UserId)
    requires Enabled(w, step) && Loading(Next(w, step), u) && !(step.Begin? && step.user == u)
    ensures Loading(w, u)
  {
    var t := Next(w, step);
    var l :| l in t.loads && InFlight(t.loads[l], u);
    assert l in w.loads && InFlight(w.loads[l], u);
  }

  /** A quiet window has no load of its user in it, so nothing is written to the user's keys during it. */
  lemma QuietStaysIdle(w: World, step: Step, x: WriterId)
    requires Enabled(w, step) && x in Next(w, step).writers
    requires x in w.writers ==> WriterOk(w, w.writers[x])
    requires !Next(w, step).writers[x].RoleCommitted? && Next(w, step).writers[x].quiet
    ensures !Loading(Next(w, step), Next(w, step).writers[x].user)
  {
    var u := Next(w, step).writers[x].user;
    if Loading(Next(w, step), u) {
      LoadingNeedsBegin(w, step, u);
      assert false;
    }
  }

  lemma QuietKeepsEntry(w: World, step: Step, x: WriterId, k: Key)
    requires Enabled(w, step) && x in w.writers && WriterOk(w, w.writers[x])
    requires x in Next(w, step).writers && k in Next(w, step).entries
    requires k in w.entries ==> k.epoch <= w.epoch
    requires var y := Next(w, step).writers[x]; y.MemberKeyed? && y.quiet && k.user == y.user && k.epoch > y.epoch
    ensures Next(w, step).entries[k] >= Next(w, step).writers[x].version
  {
    if step.WriteEntry? {
      assert InFlight(w.loads[step.load], w.loads[step.load].user);
    }
  }

  lemma StepKeepsWriter(w: World, step: Step, x: WriterId)
    requires Inv(w) && Enabled(w, step) && Grows(w, Next(w, step)) && x in Next(w, step).writers
    ensures WriterOk(Next(w, step), Next(w, step).writers[x])
  {
    var t := Next(w, step);
    var y := t.writers[x];
    assert x in w.writers ==> WriterOk(w, w.writers[x]);
    if !y.RoleCommitted? && y.quiet {
      QuietStaysIdle(w, step, x);
    }
    forall k | y.MemberKeyed? && y.quiet && k in t.entries && k.user == y.user && k.epoch > y.epoch
      ensures t.entries[k] >= y.version
    {
      assert k in w.entries ==> EntryOk(w, k);
      QuietKeepsEntry(w, step, x, k);
    }
  }

  lemma StepKeepsInv(w: World, step: Step)
    requires Inv(w) && Enabled(w, step)
    ensures Inv(Next(w, step))
  {
    StepGrows(w, step);
    var t := Next(w, step);
    forall k | k in t.entries ensures EntryOk(t, k) { StepKeepsEntry(w, step, k); }
    forall l | l in t.loads ensures LoadOk(t, t.loads[l]) { StepKeepsLoad(w, step, l); }
    forall x | x in t.writers ensures WriterOk(t, t.writers[x]) { StepKeepsWriter(w, step, x); }
  }

  // ---------------------------------------------------------------- freshness over every run

  lemma {:induction false} RunKeepsInv(w: World, steps: seq<Step>)
    requires Inv(w) && Legal(w, steps)
    ensures Inv(After(w, steps)) && Grows(w, After(w, steps))
    decreases |steps|
  {
    if steps != [] {
      StepKeepsInv(w, steps[0]);
      StepGrows(w, steps[0]);
      RunKeepsInv(Next(w, steps[0]), steps[1..]);
    }
  }

  /** What a load may not predate is settled when it begins. */
  lemma {:induction false} MarksStay(w: World, steps: seq<Step>, l: LoadId)
    requires Legal(w, steps) && l in w.loads
    ensures l in After(w, steps).loads && After(w, steps).loads[l].marks == w.loads[l].marks
    decreases |steps|
  {
    if steps != [] {
      MarksStay(Next(w, steps[0]), steps[1..], l);
    }
  }

  /** A load that begins after a role change's bump completed returns grants that reflect the change, even
      if it missed, read the database slowly and wrote late, whatever else ran in between. */
  lemma LoadReflectsBumpedRoleChange(w: World, x: WriterId, mid: seq<Step>, l: LoadId, u: UserId, rest: seq<Step>)
    requires Inv(w) && Enabled(w, Bump(x))
    requires Legal(Next(w, Bump(x)), mid) && l !in After(Next(w, Bump(x)), mid).loads
    requires Legal(Next(After(Next(w, Bump(x)), mid), Begin(l, u)), rest)
    ensures var t := After(Next(After(Next(w, Bump(x)), mid), Begin(l, u)), rest);
            l in t.loads && (t.loads[l].Returned? ==> w.writers[x].version <= t.loads[l].version)
  {
    var bumped := Next(w, Bump(x));
    StepKeepsInv(w, Bump(x));
    assert w.writers[x].version <= bumped.floors[bumped.epoch];
    RunKeepsInv(bumped, mid);
    var before := After(bumped, mid);
    assert bumped.floors[bumped.epoch] <= before.floors[before.epoch];
    var begun := Next(before, Begin(l, u));
    StepKeepsInv(before, Begin(l, u));
    assert begun.loads[l].marks.role >= w.writers[x].version;
    RunKeepsInv(begun, rest);
    MarksStay(begun, rest, l);
    assert LoadOk(After(begun, rest), After(begun, rest).loads[l]);
  }

  lemma {:induction false} QuietMarkStays(w: World, steps: seq<Step>, u: UserId)
    requires Legal(w, steps)
    ensures Newest(w.quiet, u).version <= Newest(After(w, steps).quiet, u).version
    decreases |steps|
  {
    if steps != [] {
      QuietMarkStays(Next(w, steps[0]), steps[1..], u);
    }
  }

  /** The same for one user's membership write once its eviction completed, provided no load of that
      user overlapped the window from the commit to the eviction. */
  lemma LoadReflectsQuietEviction(w: World, x: WriterId, mid: seq<Step>, l: LoadId, rest: seq<Step>)
    requires Inv(w) && Enabled(w, Evict(x, true)) && w.writers[x].quiet
    requires Legal(Next(w, Evict(x, true)), mid) && l !in After(Next(w, Evict(x, true)), mid).loads
    requires Legal(Next(After(Next(w, Evict(x, true)), mid), Begin(l, w.writers[x].user)), rest)
    ensures var t := After(Next(After(Next(w, Evict(x, true)), mid), Begin(l, w.writers[x].user)), rest);
            l in t.loads && (t.loads[l].Returned? ==> w.writers[x].version <= t.loads[l].version)
  {
    var u, evicted := w.writers[x].user, Next(w, Evict(x, true));
    StepKeepsInv(w, Evict(x, true));
    RunKeepsInv(evicted, mid);
    QuietMarkStays(evicted, mid, u);
    var before := After(evicted, mid);
    var begun := Next(before, Begin(l, u));
    StepKeepsInv(before, Begin(l, u));
    RunKeepsInv(begun, rest);
    MarksStay(begun, rest, l);
    assert LoadOk(After(begun, rest), After(begun, rest).loads[l]);
  }

  lemma {:induction false} Extend(w: World, steps: seq<Step>, step: Step)
    requires Legal(w, steps) && Enabled(After(w, steps), step)
    ensures Legal(w, steps + [step]) && After(w, steps + [step]) == Next(After(w, steps), step)
    decreases |steps|
  {
    if steps == [] {
      assert steps + [step] == [step];
      assert Legal(Next(w, step), [step][1..]);
    } else {
      Extend(Next(w, steps[0]), steps[1..], step);
      assert (steps + [step])[1..] == steps[1..] + [step];
    }
  }

  ghost predicate Reachable(w: World) {
    exists steps :: Legal(INITIAL, steps) && After(INITIAL, steps) == w
  }

  lemma Reach(w: World, step: Step) returns (t: World)
    requires Reachable(w) && Enabled(w, step)
    ensures t == Next(w, step) && Reachable(t)
  {
    var steps :| Legal(INITIAL, steps) && After(INITIAL, steps) == w;
    Extend(INITIAL, steps, step);
    t := Next(w, step);
  }

  lemma SnapshotTakenBeforeCommit() returns (w: World)
    ensures Reachable(w)
    ensures w == INITIAL.(loads := map[0 := Queried(7, Marks(0, 0, 0), Some(0), 0)])
  {
    assert Legal(INITIAL, []) && After(INITIAL, []) == INITIAL;
    w := Reach(INITIAL, Begin(0, 7));
    w := Reach(w, ReadEpoch(0, true));
    w := Reach(w, ReadEntry(0, true));
    w := Reach(w, Query(0));
  }

  lemma LateWriteAfterEviction() returns (w: World)
    ensures Reachable(w) && w.version == 1 && w.epoch == 0 && w.loads.Keys == {0}
    ensures w.entries == map[Key(0, 7) := 0] && Newest(w.evicted, 7).version == 1
  {
    w := SnapshotTakenBeforeCommit();
    w := Reach(w, CommitMember(0, 7));
    assert InFlight(w.loads[0], 7);
    assert w.writers == map[0 := MemberCommitted(7, 1, false)];
    w := Reach(w, KeyForEviction(0, true));
    assert w.writers == map[0 := MemberKeyed(7, 1, false, 0)];
    w := Reach(w, Evict(0, true));
    w := Reach(w, WriteEntry(0, true));
  }

  /** Without that proviso an eviction is not enough: a load that read the database before the commit
      writes its snapshot back after the delete, and a load begun later returns it. */
  lemma OverlappingLoadOutlivesEviction() returns (w: World)
    ensures Reachable(w) && 1 in w.loads && w.loads[1].Returned? && w.loads[1].version < w.loads[1].marks.evicted
  {
    w := LateWriteAfterEviction();
    w := Reach(w, Begin(1, 7));
    w := Reach(w, ReadEpoch(1, true));
    w := Reach(w, ReadEntry(1, true));
  }

  // ---------------------------------------------------------------- when an eviction holds, exactly

  /** Nothing older than `v` can reach a load of the user that reads an epoch from `e` on: no entry, and no
      snapshot about to be written. */
  ghost predicate FreshFrom(w: World, u: UserId, e: nat, v: nat) {
    && v <= w.version
    && (forall k :: k in w.entries && k.user == u && k.epoch >= e ==> w.entries[k] >= v)
    && (forall l :: l in w.loads ==> !HoldsOlder(w.loads[l], u, e, v))
  }

  /** A snapshot older than `v`, to be written under an epoch from `e` on. */
  predicate HoldsOlder(l: Load, u: UserId, e: nat, v: nat) {
    l.Queried? && l.user == u && l.key.Some? && l.key.value >= e && l.version < v
  }

  lemma StepKeepsFresh(w: World, step: Step, u: UserId, e: nat, v: nat)
    requires FreshFrom(w, u, e, v) && Enabled(w, step)
    ensures FreshFrom(Next(w, step), u, e, v)
  {
    var t := Next(w, step);
    forall l | l in t.loads ensures !HoldsOlder(t.loads[l], u, e, v) {
      assert l in w.loads ==> !HoldsOlder(w.loads[l], u, e, v);
    }
  }

  /** A load of the user that read its epoch, if it has, from `e` on. */
  predicate ReadsFrom(l: Load, u: UserId, e: nat, v: nat) {
    l.user == u
    && match l
       case Begun(_, _) => true
       case Keyed(_, _, k) => k >= e
       case Missed(_, _, _) => true
       case Queried(_, _, _, version) => version >= v
       case Returned(_, _, version) => version >= v
  }

  lemma StepKeepsReader(w: World, step: Step, l: LoadId, u: UserId, e: nat, v: nat)
    requires FreshFrom(w, u, e, v) && e <= w.epoch && Enabled(w, step)
    requires l in w.loads && ReadsFrom(w.loads[l], u, e, v)
    ensures e <= Next(w, step).epoch && l in Next(w, step).loads && ReadsFrom(Next(w, step).loads[l], u, e, v)
  {
  }

  lemma {:induction false} EpochKeepsFresh(w: World, steps: seq<Step>, u: UserId, e: nat, v: nat)
    requires FreshFrom(w, u, e, v) && e <= w.epoch && Legal(w, steps)
    ensures FreshFrom(After(w, steps), u, e, v) && e <= After(w, steps).epoch
    decreases |steps|
  {
    if steps != [] {
      StepKeepsFresh(w, steps[0], u, e, v);
      EpochKeepsFresh(Next(w, steps[0]), steps[1..], u, e, v);
    }
  }

  lemma {:induction false} ReaderStaysFresh(w: World, steps: seq<Step>, l: LoadId, u: UserId, e: nat, v: nat)
    requires FreshFrom(w, u, e, v) && e <= w.epoch && Legal(w, steps)
    requires l in w.loads && ReadsFrom(w.loads[l], u, e, v)
    ensures l in After(w, steps).loads && ReadsFrom(After(w, steps).loads[l], u, e, v)
    decreases |steps|
  {
    if steps != [] {
      StepKeepsFresh(w, steps[0], u, e, v);
      StepKeepsReader(w, steps[0], l, u, e, v);
      ReaderStaysFresh(Next(w, steps[0]), steps[1..], l, u, e, v);
    }
  }

  /** What is keyed after the writer read its epoch, in a later one, was read from the database after the
      writer's commit. */
  ghost predicate KeyedWriterOk(w: World, c: Writer) {
    c.MemberKeyed? ==> c.epoch <= w.epoch && FreshFrom(w, c.user, c.epoch + 1, c.version)
  }

  ghost predicate KeyedOk(w: World) {
    forall x :: x in w.writers ==> KeyedWriterOk(w, w.writers[x])
  }

  lemma NothingIsLaterThanTheEpoch(w: World, u: UserId, v: nat)
    requires Inv(w) && v <= w.version
    ensures FreshFrom(w, u, w.epoch + 1, v)
  {
    forall k | k in w.entries ensures k.epoch <= w.epoch {
      assert EntryOk(w, k);
    }
    forall l | l in w.loads ensures !HoldsOlder(w.loads[l], u, w.epoch + 1, v) {
      assert LoadOk(w, w.loads[l]);
    }
  }

  lemma StepKeepsKeyedWriter(w: World, step: Step, x: WriterId)
    requires Inv(w) && Enabled(w, step) && x in Next(w, step).writers && Next(w, step).writers[x].MemberKeyed?
    requires x in w.writers ==> KeyedWriterOk(w, w.writers[x])
    ensures KeyedWriterOk(Next(w, step), Next(w, step).writers[x])
  {
    if step == KeyForEviction(x, true) {
      assert WriterOk(w, w.writers[x]);
      NothingIsLaterThanTheEpoch(w, w.writers[x].user, w.writers[x].version);
      StepKeepsFresh(w, step, w.writers[x].user, w.epoch + 1, w.writers[x].version);
    } else {
      KeyedBefore(w, step, x);
      StepKeepsFresh(w, step, w.writers[x].user, w.writers[x].epoch + 1, w.writers[x].version);
    }
  }

  lemma StepKeepsKeyed(w: World, step: Step)
    requires Inv(w) && KeyedOk(w) && Enabled(w, step)
    ensures KeyedOk(Next(w, step))
  {
    var t := Next(w, step);
    forall x | x in t.writers && t.writers[x].MemberKeyed? ensures KeyedWriterOk(t, t.writers[x]) {
      StepKeepsKeyedWriter(w, step, x);
    }
  }

  lemma KeyedBefore(w: World, step: Step, x: WriterId)
    requires Enabled(w, step) && step != KeyForEviction(x, true)
    requires x in Next(w, step).writers && Next(w, step).writers[x].MemberKeyed?
    ensures x in w.writers && SameWriter(w.writers[x], Next(w, step).writers[x]) && w.writers[x].MemberKeyed?
  {
  }

  lemma {:induction false} RunKeepsKeyed(w: World, steps: seq<Step>)
    requires Inv(w) && KeyedOk(w) && Legal(w, steps)
    ensures Inv(After(w, steps)) && KeyedOk(After(w, steps))
    decreases |steps|
  {
    if steps != [] {
      StepKeepsInv(w, steps[0]);
      StepKeepsKeyed(w, steps[0]);
      RunKeepsKeyed(Next(w, steps[0]), steps[1..]);
    }
  }

  /** From `w`, after the turns `mid`, a load of the user begins and in the turns `rest` returns something
      older than `v`. */
  ghost predicate ReturnsOlder(w: World, u: UserId, v: nat, mid: seq<Step>, l: LoadId, rest: seq<Step>) {
    && Legal(w, mid) && l !in After(w, mid).loads
    && Legal(Next(After(w, mid), Begin(l, u)), rest)
    && var t := After(Next(After(w, mid), Begin(l, u)), rest);
       l in t.loads && t.loads[l].Returned? && t.loads[l].version < v
  }

  ghost predicate CanReturnOlder(w: World, u: UserId, v: nat) {
    exists mid, l, rest :: ReturnsOlder(w, u, v, mid, l, rest)
  }

  lemma FreshReturnsNothingOlder(w: World, u: UserId, v: nat)
    requires FreshFrom(w, u, w.epoch, v)
    ensures !CanReturnOlder(w, u, v)
  {
    forall mid, l, rest ensures !ReturnsOlder(w, u, v, mid, l, rest) {
      if Legal(w, mid) && l !in After(w, mid).loads && Legal(Next(After(w, mid), Begin(l, u)), rest) {
        EpochKeepsFresh(w, mid, u, w.epoch, v);
        var before := After(w, mid);
        StepKeepsFresh(before, Begin(l, u), u, w.epoch, v);
        ReaderStaysFresh(Next(before, Begin(l, u)), rest, l, u, w.epoch, v);
      }
    }
  }

  lemma UnusedLoad(loads: set<LoadId>) returns (l: LoadId)
    ensures l !in loads
  {
    var left := loads;
    l := 0;
    while left != {}
      invariant forall x :: x in loads && x !in left ==> x < l
      decreases |left|
    {
      var x :| x in left;
      left := left - {x};
      l := if x < l then l else x + 1;
    }
  }

  /** A snapshot still to be written under the current epoch is what a later load returns. */
  lemma OlderSnapshotIsReturned(w: World, u: UserId, v: nat, holder: LoadId)
    requires holder in w.loads && HoldsOlder(w.loads[holder], u, w.epoch, v) && w.loads[holder].key == Some(w.epoch)
    ensures CanReturnOlder(w, u, v)
  {
    var version := w.loads[holder].version;
    var mid, rest: seq<Step>;
    var l := UnusedLoad(w.loads.Keys);
    mid := [WriteEntry(holder, true)];
    rest := [ReadEpoch(l, true), ReadEntry(l, true)];
    var written := Next(w, mid[0]);
    assert mid[1..] == [] && After(w, mid) == After(written, []) == written;
    var begun := Next(written, Begin(l, u));
    var keyed := Next(begun, rest[0]);
    assert rest[1..] == [ReadEntry(l, true)] && rest[1..][1..] == [];
    var returned := Next(keyed, ReadEntry(l, true));
    assert Legal(returned, []) && Legal(keyed, rest[1..]) && After(keyed, rest[1..]) == After(returned, []) == returned;
    assert After(begun, rest) == returned;
    assert ReturnsOlder(w, u, v, mid, l, rest);
  }

  /** Some load of the user is about to write a snapshot older than `v` under an epoch from `e` on. */
  ghost predicate OlderInHand(w: World, u: UserId, e: nat, v: nat) {
    exists l :: l in w.loads && HoldsOlder(w.loads[l], u, e, v)
  }

  lemma ReachableIsKeyed(w: World)
    requires Reachable(w)
    ensures Inv(w) && KeyedOk(w)
  {
    var steps :| Legal(INITIAL, steps) && After(INITIAL, steps) == w;
    RunKeepsKeyed(INITIAL, steps);
  }

  lemma DeletedEntryLeavesFresh(w: World, x: WriterId)
    requires Inv(w) && Enabled(w, Evict(x, true)) && w.writers[x].epoch <= w.epoch
    requires FreshFrom(w, w.writers[x].user, w.writers[x].epoch + 1, w.writers[x].version)
    requires w.epoch == w.writers[x].epoch ==>
               !OlderInHand(w, w.writers[x].user, w.writers[x].epoch, w.writers[x].version)
    ensures FreshFrom(Next(w, Evict(x, true)), w.writers[x].user, w.epoch, w.writers[x].version)
  {
    var c, t := w.writers[x], Next(w, Evict(x, true));
    forall k | k in t.entries && k.user == c.user && k.epoch >= w.epoch ensures t.entries[k] >= c.version {
      assert k != Key(c.epoch, c.user) && k.epoch >= c.epoch;
    }
    forall l | l in t.loads ensures !HoldsOlder(t.loads[l], c.user, w.epoch, c.version) {
      assert !HoldsOlder(w.loads[l], c.user, c.epoch + 1, c.version);
    }
  }

  lemma OlderInHandOutlivesEviction(w: World, x: WriterId)
    requires Inv(w) && Enabled(w, Evict(x, true)) && w.epoch == w.writers[x].epoch
    requires OlderInHand(w, w.writers[x].user, w.epoch, w.writers[x].version)
    ensures CanReturnOlder(Next(w, Evict(x, true)), w.writers[x].user, w.writers[x].version)
  {
    var c, t := w.writers[x], Next(w, Evict(x, true));
    var l :| l in w.loads && HoldsOlder(w.loads[l], c.user, w.epoch, c.version);
    assert LoadOk(w, w.loads[l]);
    OlderSnapshotIsReturned(t, c.user, c.version, l);
  }

  /** An eviction that was carried out holds for every later load of the user if and only if, at the delete,
      the epoch has been bumped since it was read or no load of the user is about to write under it a
      snapshot older than the write. A load that overlapped and has written already does no harm. */
  lemma EvictionHoldsIff(w: World, x: WriterId)
    requires Reachable(w) && Enabled(w, Evict(x, true))
    ensures var c := w.writers[x];
            !CanReturnOlder(Next(w, Evict(x, true)), c.user, c.version) <==>
              w.epoch != c.epoch || !OlderInHand(w, c.user, c.epoch, c.version)
  {
    var c := w.writers[x];
    ReachableIsKeyed(w);
    assert KeyedWriterOk(w, c);
    if w.epoch == c.epoch && OlderInHand(w, c.user, c.epoch, c.version) {
      OlderInHandOutlivesEviction(w, x);
    } else {
      DeletedEntryLeavesFresh(w, x);
      FreshReturnsNothingOlder(Next(w, Evict(x, true)), c.user, c.version);
    }
  }

  // ---------------------------------------------------------------- the cache's own methods

  /** One of the steps of this load or this writer. */
  predicate IsOwn(step: Step, load: Option<LoadId>, writer: Option<WriterId>) {
    || ((step.ReadEpoch? || step.ReadEntry? || step.Query? || step.WriteEntry?) && load == Some(step.load))
    || ((step.Bump? || step.LostBump? || step.KeyForEviction? || step.Evict?) && writer == Some(step.writer))
  }

  function Taken(w: World, step: Step): World {
    if Enabled(w, step) then Next(w, step) else w
  }

  /** Everyone else's turns, each if it can be taken. */
  function Turned(w: World, turns: seq<Step>, load: Option<LoadId>, writer: Option<WriterId>): World {
    if turns == [] then w
    else
      var t := Turned(w, turns[..|turns| - 1], load, writer);
      if IsOwn(turns[|turns| - 1], load, writer) then t else Taken(t, turns[|turns| - 1])
  }

  /** `load` up to the cached entry, and the rest of it on a miss. */
  function LookedUp(w: World, l: LoadId, reachable: bool, usable: bool, turns: seq<Step>): World {
    var keyed := Taken(w, ReadEpoch(l, reachable));
    if reachable then Taken(Turned(keyed, turns, Some(l), None), ReadEntry(l, usable)) else keyed
  }

  function Filled(w: World, l: LoadId, written: bool, turns: seq<Step>): World {
    Taken(Turned(Taken(w, Query(l)), turns, Some(l), None), WriteEntry(l, written))
  }

  function Loaded(w: World, l: LoadId, user: UserId, reachable: bool, usable: bool, written: bool,
      turns: seq<seq<Step>>): World
    requires |turns| == 4
  {
    var found := LookedUp(Turned(Taken(w, Begin(l, user)), turns[0], Some(l), None), l, reachable, usable, turns[1]);
    if l in found.loads && found.loads[l].Returned? then found
    else Filled(Turned(found, turns[2], Some(l), None), l, written, turns[3])
  }

  /** A usable entry of the epoch is served as it is; a miss reads the database and leaves an entry. */
  predicate IsCacheAside(before: World, after: World, user: UserId, version: nat, reachable: bool, usable: bool,
                         written: bool) {
    var key := Key(before.epoch, user);
    && after.version == before.version && after.epoch == before.epoch
    && if reachable && usable && key in before.entries
       then version == before.entries[key] && after.entries == before.entries
       else version == before.version
            && after.entries == if reachable && written then before.entries[key := version] else before.entries
  }

  lemma FoundAlone(w: World, l: LoadId, user: UserId, reachable: bool, usable: bool)
    requires l in w.loads && w.loads[l].Begun? && w.loads[l].user == user
    ensures var t := LookedUp(w, l, reachable, usable, []);
            && t == w.(loads := t.loads) && l in t.loads && t.loads[l].user == user
            && if reachable && usable && Key(w.epoch, user) in w.entries
               then t.loads[l].Returned? && t.loads[l].version == w.entries[Key(w.epoch, user)]
               else t.loads[l].Missed? && t.loads[l].key == if reachable then Some(w.epoch) else None
  {
  }

  lemma FilledAlone(w: World, l: LoadId, written: bool)
    requires l in w.loads && w.loads[l].Missed?
    ensures var t, c := Filled(w, l, written, []), w.loads[l];
            && l in t.loads && t.loads[l].Returned? && t.loads[l].version == w.version
            && t.version == w.version && t.epoch == w.epoch
            && t.entries == if written && c.key.Some? then w.entries[Key(c.key.value, c.user) := w.version]
                            else w.entries
  {
  }

  /** A load with nobody else about. */
  lemma LoadIsCacheAside(w: World, l: LoadId, user: UserId, reachable: bool, usable: bool, written: bool)
    requires l !in w.loads
    ensures var t := Loaded(w, l, user, reachable, usable, written, [[], [], [], []]);
            && l in t.loads && t.loads[l].Returned?
            && IsCacheAside(w, t, user, t.loads[l].version, reachable, usable, written)
  {
    var begun := Taken(w, Begin(l, user));
    FoundAlone(begun, l, user, reachable, usable);
    var found := LookedUp(begun, l, reachable, usable, []);
    if !found.loads[l].Returned? {
      FilledAlone(found, l, written);
    }
  }

  /** However old an entry is, once it has expired a load reads the database. */
  lemma ExpiredIsReloaded(w: World, l: LoadId, user: UserId, reachable: bool, usable: bool, written: bool)
    requires l !in w.loads
    ensures var e := Next(w, Expire(Key(w.epoch, user)));
            var t := Loaded(e, l, user, reachable, usable, written, [[], [], [], []]);
            l in t.loads && t.loads[l].Returned? && t.loads[l].version == w.version
  {
    LoadIsCacheAside(Next(w, Expire(Key(w.epoch, user))), l, user, reachable, usable, written);
  }

  /** Each turn of another that can be taken is taken, in order. */
  lemma TurnsAreTaken(w: World, turns: seq<Step>, turn: Step, load: Option<LoadId>, writer: Option<WriterId>)
    requires !IsOwn(turn, load, writer) && Enabled(Turned(w, turns, load, writer), turn)
    ensures Turned(w, turns + [turn], load, writer) == Next(Turned(w, turns, load, writer), turn)
  {
    assert (turns + [turn])[..|turns|] == turns;
  }

  predicate SameWriter(x: Writer, y: Writer) {
    match x
    case RoleCommitted(v) => y == x
    case MemberCommitted(u, v, _) => y.MemberCommitted? && y.user == u && y.version == v
    case MemberKeyed(u, v, _, e) => y.MemberKeyed? && y.user == u && y.version == v && y.epoch == e
  }

  /** A turn of someone else's leaves this load where it is, and this writer but for its quiet. */
  lemma OthersKeepMine(w: World, step: Step, load: Option<LoadId>, writer: Option<WriterId>)
    requires Enabled(w, step) && !IsOwn(step, load, writer)
    ensures load.Some? && load.value in w.loads ==>
            load.value in Next(w, step).loads && Next(w, step).loads[load.value] == w.loads[load.value]
    ensures writer.Some? && writer.value in w.writers ==>
              writer.value in Next(w, step).writers
                  && SameWriter(w.writers[writer.value], Next(w, step).writers[writer.value])
  {
  }

  class GrantCache {
    var world: World

    constructor ()
      ensures world == INITIAL
    {
      world := INITIAL;
    }

    method Elsewhere(turns: seq<Step>, load: Option<LoadId>, writer: Option<WriterId>)
      requires Inv(world)
      requires load.Some? ==> load.value in world.loads
      requires writer.Some? ==> writer.value in world.writers
      modifies this
      ensures Inv(world) && Grows(old(world), world) && world == Turned(old(world), turns, load, writer)
      ensures load.Some? ==> load.value in world.loads && world.loads[load.value] == old(world).loads[load.value]
      ensures writer.Some? ==>
              writer.value in world.writers
              && SameWriter(old(world).writers[writer.value], world.writers[writer.value])
    {
      for i := 0 to |turns|
        invariant Inv(world) && Grows(old(world), world) && world == Turned(old(world), turns[..i], load, writer)
        invariant load.Some? ==> load.value in world.loads && world.loads[load.value] == old(world).loads[load.value]
        invariant writer.Some? ==>
                  writer.value in world.writers
                      && SameWriter(old(world).writers[writer.value], world.writers[writer.value])
      {
        assert turns[..i + 1][..i] == turns[..i];
        if !IsOwn(turns[i], load, writer) && Enabled(world, turns[i]) {
          OthersKeepMine(world, turns[i], load, writer);
          Do(turns[i]);
        }
      }
      assert turns[..|turns|] == turns;
    }

    method Do(step: Step)
      requires Inv(world) && Enabled(world, step)
      modifies this
      ensures world == Next(old(world), step) && Inv(world) && Grows(old(world), world)
    {
      StepKeepsInv(world, step);
      StepGrows(world, step);
      world := Next(world, step);
    }

    /** The key lookup of `load`: the cached snapshot, or a miss. */
    method Lookup(l: LoadId, reachable: bool, usable: bool, turns: seq<Step>) returns (cached: Option<nat>)
      requires Inv(world) && l in world.loads && world.loads[l].Begun?
      modifies this
      ensures Inv(world) && Grows(old(world), world) && world == LookedUp(old(world), l, reachable, usable, turns)
      ensures l in world.loads && world.loads[l].marks == old(world).loads[l].marks
              && world.loads[l].user == old(world).loads[l].user
      ensures if cached.Some? then world.loads[l].Returned? && world.loads[l].version == cached.value
              else world.loads[l].Missed?
    {
      Do(ReadEpoch(l, reachable));
      cached := None;
      if reachable {
        Elsewhere(turns, Some(l), None);
        Do(ReadEntry(l, usable));
        if world.loads[l].Returned? {
          cached := Some(world.loads[l].version);
        }
      }
    }

    /** The rest of `load` on a miss: the database, then the entry. */
    method Fill(l: LoadId, written: bool, turns: seq<Step>) returns (version: nat)
      requires Inv(world) && l in world.loads && world.loads[l].Missed?
      modifies this
      ensures Inv(world) && Grows(old(world), world) && world == Filled(old(world), l, written, turns)
      ensures l in world.loads && world.loads[l].Returned? && world.loads[l].version == version == old(world.version)
      ensures world.loads[l].marks == old(world).loads[l].marks
    {
      Do(Query(l));
      version := world.loads[l].version;
      Elsewhere(turns, Some(l), None);
      Do(WriteEntry(l, written));
    }

    /** `load`: the result is what the load returned, and never older than what its beginning owes it. */
    method Load(l: LoadId, user: UserId, reachable: bool, usable: bool, written: bool, turns: seq<seq<Step>>)
      returns (version: nat)
      requires Inv(world) && l !in world.loads && |turns| == 4
      modifies this
      ensures Inv(world) && world == Loaded(old(world), l, user, reachable, usable, written, turns)
      ensures l in world.loads && world.loads[l].Returned? && world.loads[l].version == version
      ensures RoleFloor(old(world)) <= version && Newest(old(world).quiet, user).version <= version
    {
      Do(Begin(l, user));
      Elsewhere(turns[0], Some(l), None);
      var cached := Lookup(l, reachable, usable, turns[1]);
      if cached.Some? {
        version := cached.value;
      } else {
        Elsewhere(turns[2], Some(l), None);
        version := Fill(l, written, turns[3]);
      }
      assert LoadOk(world, world.loads[l]);
    }

    /** `invalidate_user`, called after the write committed: the entry under the epoch it read is gone. */
    method InvalidateUser(x: WriterId, reachable: bool, deleted: bool, turns: seq<Step>)
      requires Inv(world) && x in world.writers && world.writers[x].MemberCommitted?
      modifies this
      ensures Inv(world)
      ensures var keyed := Taken(old(world), KeyForEviction(x, reachable));
              world == if reachable then Taken(Turned(keyed, turns, None, Some(x)), Evict(x, deleted)) else keyed
      ensures reachable && deleted ==>
                && Key(old(world).epoch, old(world).writers[x].user) !in world.entries
                && old(world).writers[x].version <= Newest(world.evicted, old(world).writers[x].user).version
      ensures turns == [] ==>
                world.entries == if reachable && deleted
                                 then old(world).entries - {Key(old(world).epoch, old(world).writers[x].user)}
                                 else old(world).entries
    {
      Do(KeyForEviction(x, reachable));
      if reachable {
        Elsewhere(turns, None, Some(x));
        Do(Evict(x, deleted));
      }
    }

    /** `bump_epoch`, called after the role change committed: no entry is of the new epoch, and every
        later load owes the change. */
    method BumpEpoch(x: WriterId, reachable: bool, applied: bool)
      requires Inv(world) && x in world.writers && world.writers[x].RoleCommitted?
      modifies this
      ensures Inv(world)
      ensures world == Next(old(world), if reachable then Bump(x) else LostBump(x, applied))
      ensures reachable ==>
              old(world).writers[x].version <= RoleFloor(world)
              && forall k :: k in world.entries ==> k.epoch < world.epoch
      ensures world.epoch == old(world).epoch + (if reachable || applied then 1 else 0)
              && world.entries == old(world).entries
    {
      ghost var before := world;
      forall k | k in before.entries ensures k.epoch <= before.epoch {
        assert EntryOk(before, k);
      }
      if reachable {
        Do(Bump(x));
      } else {
        Do(LostBump(x, applied));
      }
    }
  }
}
