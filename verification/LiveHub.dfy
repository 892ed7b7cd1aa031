/** One broker consumer per process feeding every open stream (`live/kafka.py`), with the streams'
    reads interleaved. An event is named by its offset in the broker's log. */
module LiveHub {
  import opened Fanout

  datatype Message = Decodable | Undecodable

  /** One open stream: its queue, the log's length when it subscribed, the events it read, the log's
      length when it last read a `resync` (its client refetched everything then), and whether it read
      `close`. */
  datatype Stream = Stream(channel: Channel<nat>, since: nat, read: seq<nat>, refetched: nat, ended: bool)

  /** `lostAt` is the log's length when the broker was last lost; `position` is the consumer's. */
  datatype Hub = Hub(log: seq<Message>, connected: bool, position: nat, lostAt: nat, streams: map<QueueId, Stream>)

  datatype Step =
    | Publish(message: Message)
    | Open(q: QueueId)
    | Leave(q: QueueId)
    | Take(q: QueueId)
    | Dispatch
    | Connect(seek: nat)
    | Lose

  const INITIAL := Hub([], false, 0, 0, map[])

  predicate Enabled(h: Hub, step: Step) {
    match step
    case Publish(_) => true
    case Open(q) => q !in h.streams
    case Leave(q) => q in h.streams
    case Take(q) => q in h.streams && h.streams[q].channel.items != []
    case Dispatch => h.connected && h.position < |h.log|
    case Connect(seek) => !h.connected && h.position <= seek <= |h.log|
    case Lose => true
  }

  function AfterTake(t: Stream, logged: nat): Stream
    requires t.channel.items != []
  {
    var u := t.(channel := Taken(t.channel));
    match t.channel.items[0]
    case Event(o) => u.(read := t.read + [o])
    case Resync => u.(refetched := logged)
    case Close => u.(ended := true)
  }

  function Next(h: Hub, step: Step): Hub
    requires Enabled(h, step)
  {
    match step
    case Publish(m) => h.(log := h.log + [m])
    case Open(q) => h.(streams := h.streams[q := Stream(Channel([], false, false), |h.log|, [], 0, false)])
    case Leave(q) => h.(streams := h.streams - {q})
    case Take(q) => h.(streams := h.streams[q := AfterTake(h.streams[q], |h.log|)])
    case Dispatch =>
      h.(position := h.position + 1,
         streams := map q | q in h.streams ::
           if h.log[h.position].Undecodable? then h.streams[q]
           else h.streams[q].(channel := Delivered(h.streams[q].channel, h.position)))
    case Connect(seek) =>
      h.(connected := true, position := seek,
         streams := map q | q in h.streams :: h.streams[q].(channel := Resynced(h.streams[q].channel)))
    case Lose =>
      h.(connected := false, lostAt := if h.connected then |h.log| else h.lostAt,
         streams := map q | q in h.streams :: h.streams[q].(channel := Ended(h.streams[q].channel)))
  }

  ghost predicate Legal(h: Hub, steps: seq<Step>)
    decreases |steps|
  {
    steps == [] || (Enabled(h, steps[0]) && Legal(Next(h, steps[0]), steps[1..]))
  }

  ghost function After(h: Hub, steps: seq<Step>): Hub
    requires Legal(h, steps)
    decreases |steps|
  {
    if steps == [] then h else After(Next(h, steps[0]), steps[1..])
  }

  /** The stream has learned of the event, will read it, is about to be told to refetch or to end, or
      the consumer has yet to reach it. A message nobody can decode announces nothing. */
  ghost predicate Covered(h: Hub, t: Stream, o: nat)
    requires o < |h.log|
  {
    || o < t.since
    || h.log[o].Undecodable?
    || o in t.read
    || Event(o) in t.channel.items
    || HasMarker(t.channel)
    || o < t.refetched
    || t.ended
    || (h.connected && h.position <= o)
  }

  /** While the broker is away nobody can know what it misses; every stream opened before the loss has
      been told to end. */
  ghost predicate StreamOk(h: Hub, t: Stream) {
    && ChannelOk(t.channel)
    && t.since <= |h.log| && t.refetched <= |h.log|
    && (t.channel.closed ==> HasMarker(t.channel) || t.ended)
    && (!h.connected ==> t.channel.closed || h.lostAt <= t.since)
    && (h.connected ==> forall o: nat :: o < |h.log| ==> Covered(h, t, o))
  }

  /** What a stream has read and will read is in log order, each event once. */
  ghost predicate InOrder(t: Stream, position: nat) {
    && (forall i, j :: 0 <= i < j < |t.read| ==> t.read[i] < t.read[j])
    && (forall i :: 0 <= i < |t.read| ==> t.read[i] < position)
    && (forall i :: 0 <= i < |t.channel.items| && t.channel.items[i].Event? ==> t.channel.items[i].value < position)
    && (forall i, j :: 0 <= i < j < |t.channel.items| && t.channel.items[i].Event? && t.channel.items[j].Event?
          ==> t.channel.items[i].value < t.channel.items[j].value)
    && (forall i, j :: 0 <= i < |t.read| && 0 <= j < |t.channel.items| && t.channel.items[j].Event?
          ==> t.read[i] < t.channel.items[j].value)
  }

  ghost predicate Inv(h: Hub) {
    && h.position <= |h.log|
    && h.lostAt <= |h.log|
    && forall q :: q in h.streams ==> StreamOk(h, h.streams[q]) && InOrder(h.streams[q], h.position)
  }

  lemma DispatchKeepsStream(h: Hub, t: Stream)
    requires Enabled(h, Dispatch) && StreamOk(h, t) && InOrder(t, h.position)
    ensures var d := if h.log[h.position].Undecodable? then t else t.(channel := Delivered(t.channel, h.position));
            StreamOk(Next(h, Dispatch), d) && InOrder(d, h.position + 1)
  {
    var g := Next(h, Dispatch);
    var d := if h.log[h.position].Undecodable? then t else t.(channel := Delivered(t.channel, h.position));
    DeliveryQueuesOrMarks(t.channel, h.position);
    forall o: nat | o < |g.log| ensures Covered(g, d, o) {
      assert Covered(h, t, o);
    }
  }

  lemma TakeKeepsStream(h: Hub, t: Stream)
    requires t.channel.items != [] && StreamOk(h, t) && InOrder(t, h.position)
    ensures StreamOk(h, AfterTake(t, |h.log|)) && InOrder(AfterTake(t, |h.log|), h.position)
  {
    var u := AfterTake(t, |h.log|);
    assert t.channel.items == [t.channel.items[0]] + u.channel.items;
    if h.connected {
      forall o: nat | o < |h.log| ensures Covered(h, u, o) {
        assert Covered(h, t, o);
        if o in t.read {
          var i :| 0 <= i < |t.read| && t.read[i] == o;
          assert u.read[i] == o;
        }
        if t.channel.items[0] == Event(o) {
          assert u.read[|t.read|] == o;
        }
      }
    }
  }

  lemma MarkKeepsStream(h: Hub, step: Step, t: Stream)
    requires step.Connect? || step.Lose?
    requires Inv(h) && Enabled(h, step) && StreamOk(h, t) && InOrder(t, h.position)
    ensures var c := if step.Connect? then Resynced(t.channel) else Ended(t.channel);
            StreamOk(Next(h, step), t.(channel := c)) && InOrder(t.(channel := c), Next(h, step).position)
  {
    ResyncAndCloseMark(t.channel);
  }

  /** Publishing, and what other streams do, takes nothing from a stream. */
  lemma StreamStays(h: Hub, g: Hub, t: Stream)
    requires StreamOk(h, t) && h.position <= |h.log| && h.log <= g.log
    requires g.connected == h.connected && g.position == h.position && g.lostAt == h.lostAt
    ensures StreamOk(g, t)
  {
    forall o: nat | g.connected && o < |g.log| ensures Covered(g, t, o) {
      assert o < |h.log| ==> Covered(h, t, o);
    }
  }

  lemma StepKeepsInv(h: Hub, step: Step)
    requires Inv(h) && Enabled(h, step)
    ensures Inv(Next(h, step))
  {
    var g := Next(h, step);
    forall q | q in g.streams ensures StreamOk(g, g.streams[q]) && InOrder(g.streams[q], g.position) {
      match step
      case Dispatch => DispatchKeepsStream(h, h.streams[q]);
      case Connect(_) => MarkKeepsStream(h, step, h.streams[q]);
      case Lose => MarkKeepsStream(h, step, h.streams[q]);
      case Publish(_) => StreamStays(h, g, h.streams[q]);
      case Leave(_) => StreamStays(h, g, h.streams[q]);
      case Open(p) =>
        if p != q {
          StreamStays(h, g, h.streams[q]);
        }
      case Take(p) =>
        if p == q {
          TakeKeepsStream(h, h.streams[q]);
        }
        StreamStays(h, g, g.streams[q]);
    }
  }

  /** Over any interleaving of publishing, subscribing, reading, dispatching, losing the broker and
      reconnecting, no open stream of a connected hub misses an event without being told so; after a
      loss every stream opened before it has been told to end; nothing is read twice or out of order. */
  lemma {:induction false} NoEventIsMissedSilently(h: Hub, steps: seq<Step>)
    requires Inv(h) && Legal(h, steps)
    ensures Inv(After(h, steps))
    ensures var g := After(h, steps);
            forall q :: q in g.streams ==>
              && (g.connected ==> forall o: nat :: o < |g.log| ==> Covered(g, g.streams[q], o))
              && (!g.connected && g.streams[q].since < g.lostAt ==>
                 HasMarker(g.streams[q].channel) || g.streams[q].ended)
              && |g.streams[q].channel.items| <= QUEUE_SIZE
              && InOrder(g.streams[q], g.position)
    decreases |steps|
  {
    if steps != [] {
      StepKeepsInv(h, steps[0]);
      NoEventIsMissedSilently(Next(h, steps[0]), steps[1..]);
    }
  }

  // ---------------------------------------------------------------- what a reader who keeps up gets

  /** The offsets from `lo` up to `hi` that decode, in order. */
  function Decodables(log: seq<Message>, lo: nat, hi: nat): seq<nat>
    requires hi <= |log|
  {
    if hi <= lo then []
    else Decodables(log, lo, hi - 1) + (if log[hi - 1].Decodable? then [hi - 1] else [])
  }

  lemma {:induction false} DecodablesOfPrefix(log: seq<Message>, more: seq<Message>, lo: nat, hi: nat)
    requires hi <= |log| && log <= more
    ensures Decodables(more, lo, hi) == Decodables(log, lo, hi)
    decreases hi
  {
    if hi > lo {
      DecodablesOfPrefix(log, more, lo, hi - 1);
    }
  }

  function AsEvents(offsets: seq<nat>): (items: seq<QueueItem<nat>>)
    ensures |items| == |offsets|
  {
    seq(|offsets|, i requires 0 <= i < |offsets| => Event(offsets[i]))
  }

  /** No broker is gained or lost, and the stream's queue has room whenever a message is dispatched. */
  ghost predicate KeepsUp(h: Hub, steps: seq<Step>, q: QueueId)
    requires Legal(h, steps)
    decreases |steps|
  {
    || steps == []
    || (&& !steps[0].Connect? && !steps[0].Lose? && steps[0] != Leave(q)
        && (steps[0].Dispatch? ==> q in h.streams && |h.streams[q].channel.items| < 100)
        && KeepsUp(Next(h, steps[0]), steps[1..], q))
  }

  /** The stream has read the first of the messages dispatched since `from`, and holds the others. */
  ghost predicate HasAllSince(h: Hub, q: QueueId, from: nat) {
    && q in h.streams && from <= h.position <= |h.log|
    && var t, all := h.streams[q], Decodables(h.log, from, h.position);
       && !t.channel.closed && !t.channel.inResync && !t.ended
       && t.read <= all && t.channel.items == AsEvents(all[|t.read|..])
  }

  lemma StepKeepsAll(h: Hub, step: Step, q: QueueId, from: nat)
    requires Enabled(h, step) && HasAllSince(h, q, from) && !step.Connect? && !step.Lose? && step != Leave(q)
    requires step.Dispatch? ==> |h.streams[q].channel.items| < 100
    ensures HasAllSince(Next(h, step), q, from)
  {
    var t, all, g := h.streams[q], Decodables(h.log, from, h.position), Next(h, step);
    DecodablesOfPrefix(h.log, g.log, from, h.position);
    if step == Take(q) {
      assert t.channel.items[0] == Event(all[|t.read|]);
      assert all[..|t.read|] + [all[|t.read|]] == all[..|t.read| + 1];
      assert g.streams[q].channel.items == AsEvents(all[|t.read| + 1..]);
    } else if step.Dispatch? && h.log[h.position].Decodable? {
      assert Decodables(g.log, from, g.position) == all + [h.position];
      assert (all + [h.position])[|t.read|..] == all[|t.read|..] + [h.position];
      assert g.streams[q].channel.items == AsEvents(all[|t.read|..] + [h.position]);
    }
  }

  lemma {:induction false} RunKeepsAll(h: Hub, steps: seq<Step>, q: QueueId, from: nat)
    requires Legal(h, steps) && HasAllSince(h, q, from) && KeepsUp(h, steps, q)
    ensures HasAllSince(After(h, steps), q, from)
    decreases |steps|
  {
    if steps != [] {
      StepKeepsAll(h, steps[0], q, from);
      RunKeepsAll(Next(h, steps[0]), steps[1..], q, from);
    }
  }

  /** A stream whose reader keeps up gets every message that decodes, dispatched since it subscribed, once
      and in order, and no marker: what it has read and what it still holds are exactly those. */
  lemma ReaderWhoKeepsUpGetsAll(h: Hub, q: QueueId, steps: seq<Step>)
    requires h.position <= |h.log| && q !in h.streams
    requires Legal(Next(h, Open(q)), steps) && KeepsUp(Next(h, Open(q)), steps, q)
    ensures var g := After(Next(h, Open(q)), steps);
            && q in g.streams && h.position <= g.position <= |g.log|
            && var t, all := g.streams[q], Decodables(g.log, h.position, g.position);
               t.read <= all && t.channel.items == AsEvents(all[|t.read|..]) && !t.ended
  {
    assert HasAllSince(Next(h, Open(q)), q, h.position);
    RunKeepsAll(Next(h, Open(q)), steps, q, h.position);
  }

  // ---------------------------------------------------------------- the hub's own loop

  const RECONNECT_BACKOFF_SECONDS: seq<nat> := [1, 2, 5, 10, 30]

  /** What one turn of the reconnect loop meets: whether `start` and `seek_to_end` succeed, where the
      seek lands, and what publishers and streams do while the loop awaits: first the connection, then
      each message, then (the connection lost) the delay. */
  datatype Session = Session(connects: bool, seek: nat, connecting: seq<Step>, receiving: seq<seq<Step>>,
      waiting: seq<Step>)

  /** Attempts in a row that failed up to and including session `i`, the first not counted. */
  function Streak(sessions: seq<Session>, i: nat): nat
    requires i < |sessions|
  {
    if sessions[i].connects || i == 0 then 0 else Streak(sessions, i - 1) + 1
  }

  /** The list's entry for a streak, the last one standing for all longer streaks. */
  function Delay(streak: nat): nat {
    RECONNECT_BACKOFF_SECONDS[if streak < |RECONNECT_BACKOFF_SECONDS| then streak else |RECONNECT_BACKOFF_SECONDS| - 1]
  }

  /** The wait after one more failure. */
  function Longer(delay: nat): nat {
    if delay == 1 then 2 else if delay == 2 then 5 else if delay == 5 then 10 else 30
  }

  lemma DelayByTheLast(sessions: seq<Session>, i: nat)
    requires i < |sessions|
    ensures Delay(Streak(sessions, i)) ==
            if i == 0 || sessions[i].connects then 1 else Longer(Delay(Streak(sessions, i - 1)))
  {
  }

  lemma {:induction false} Extend(h: Hub, steps: seq<Step>, step: Step)
    requires Legal(h, steps) && Enabled(After(h, steps), step)
    ensures Legal(h, steps + [step]) && After(h, steps + [step]) == Next(After(h, steps), step)
    decreases |steps|
  {
    if steps == [] {
      assert steps + [step] == [step];
      assert Legal(Next(h, step), [step][1..]);
    } else {
      Extend(Next(h, steps[0]), steps[1..], step);
      assert (steps + [step])[1..] == steps[1..] + [step];
    }
  }

  ghost predicate Reaches(h: Hub, g: Hub) {
    exists steps :: Legal(h, steps) && After(h, steps) == g
  }

  lemma ReachesItself(h: Hub)
    ensures Reaches(h, h)
  {
    assert Legal(h, []) && After(h, []) == h;
  }

  lemma ReachesNext(h: Hub, g: Hub, step: Step)
    requires Reaches(h, g) && Enabled(g, step)
    ensures Reaches(h, Next(g, step))
  {
    var steps :| Legal(h, steps) && After(h, steps) == g;
    Extend(h, steps, step);
  }

  // What the loop makes of a hub, session by session.

  predicate IsOutside(step: Step) {
    step.Publish? || step.Open? || step.Leave? || step.Take?
  }

  /** Publishers and streams take their turns, each if it can. */
  function Turned(h: Hub, turns: seq<Step>): Hub {
    if turns == [] then h
    else
      var g := Turned(h, turns[..|turns| - 1]);
      if IsOutside(turns[|turns| - 1]) && Enabled(g, turns[|turns| - 1]) then Next(g, turns[|turns| - 1]) else g
  }

  /** Each turn that can be taken is taken, in order. */
  lemma TurnsAreTaken(h: Hub, turns: seq<Step>, turn: Step)
    requires IsOutside(turn) && Enabled(Turned(h, turns), turn)
    ensures Turned(h, turns + [turn]) == Next(Turned(h, turns), turn)
  {
    assert (turns + [turn])[..|turns|] == turns;
  }

  /** The messages the consumer receives, one after each batch of turns if there is one. */
  function Received(h: Hub, receiving: seq<seq<Step>>): Hub {
    if receiving == [] then h
    else
      var g := Turned(Received(h, receiving[..|receiving| - 1]), receiving[|receiving| - 1]);
      if Enabled(g, Dispatch) then Next(g, Dispatch) else g
  }

  /** `seek_to_end` lands somewhere between the old position and the end of the log. */
  function SeekTo(h: Hub, session: Session): nat {
    if session.seek < h.position || |h.log| < h.position then h.position
    else if session.seek <= |h.log| then session.seek
    else |h.log|
  }

  /** One session: connect and receive, or fail to; lose the broker; wait. */
  function Met(h: Hub, session: Session): Hub {
    var g := Turned(h, session.connecting);
    var served := if session.connects && Enabled(g, Connect(SeekTo(g, session)))
                  then Received(Next(g, Connect(SeekTo(g, session))), session.receiving) else g;
    Turned(Next(served, Lose), session.waiting)
  }

  function MetAll(h: Hub, sessions: seq<Session>): Hub {
    if sessions == [] then h else Met(MetAll(h, sessions[..|sessions| - 1]), sessions[|sessions| - 1])
  }

  /** What the turns of others leave alone, and that they are steps of the hub. */
  lemma {:induction false} TurnedReaches(start: Hub, h: Hub, turns: seq<Step>)
    requires Reaches(start, h)
    ensures var g := Turned(h, turns);
            Reaches(start, g) && g.connected == h.connected && g.position == h.position && |g.log| >= |h.log|
    decreases |turns|
  {
    if turns != [] {
      var t := turns[|turns| - 1];
      TurnedReaches(start, h, turns[..|turns| - 1]);
      var g := Turned(h, turns[..|turns| - 1]);
      if IsOutside(t) && Enabled(g, t) {
        ReachesNext(start, g, t);
      }
    }
  }

  lemma {:induction false} ReceivedReaches(start: Hub, h: Hub, receiving: seq<seq<Step>>)
    requires Reaches(start, h) && h.connected && h.position <= |h.log|
    ensures var g := Received(h, receiving); Reaches(start, g) && g.connected && g.position <= |g.log|
    decreases |receiving|
  {
    if receiving != [] {
      var n := |receiving| - 1;
      ReceivedReaches(start, h, receiving[..n]);
      TurnedReaches(start, Received(h, receiving[..n]), receiving[n]);
      var g := Turned(Received(h, receiving[..n]), receiving[n]);
      if Enabled(g, Dispatch) {
        ReachesNext(start, g, Dispatch);
      }
    }
  }

  /** After each batch of turns the next message there is gets dispatched. */
  lemma EachMessageIsReceived(h: Hub, receiving: seq<seq<Step>>, turns: seq<Step>)
    requires h.connected && h.position <= |h.log|
    ensures var g, t := Received(h, receiving), Received(h, receiving + [turns]);
            && t.position == (if g.position < |t.log| then g.position + 1 else g.position)
            && t.connected
  {
    ReachesItself(h);
    ReceivedReaches(h, h, receiving);
    var g := Received(h, receiving);
    TurnedReaches(h, g, turns);
    assert (receiving + [turns])[..|receiving|] == receiving;
  }

  lemma MetReaches(start: Hub, h: Hub, session: Session)
    requires Reaches(start, h) && !h.connected && h.position <= |h.log|
    ensures var g := Met(h, session); Reaches(start, g) && !g.connected && g.position <= |g.log|
  {
    TurnedReaches(start, h, session.connecting);
    var g := Turned(h, session.connecting);
    var seek := SeekTo(g, session);
    var served := g;
    if session.connects {
      ReachesNext(start, g, Connect(seek));
      ReceivedReaches(start, Next(g, Connect(seek)), session.receiving);
      served := Received(Next(g, Connect(seek)), session.receiving);
    }
    ReachesNext(start, served, Lose);
    TurnedReaches(start, Next(served, Lose), session.waiting);
  }

  lemma {:induction false} MetAllReaches(h: Hub, sessions: seq<Session>)
    requires !h.connected && h.position <= |h.log|
    ensures var g := MetAll(h, sessions); Reaches(h, g) && !g.connected && g.position <= |g.log|
    decreases |sessions|
  {
    if sessions == [] {
      ReachesItself(h);
    } else {
      MetAllReaches(h, sessions[..|sessions| - 1]);
      MetReaches(h, MetAll(h, sessions[..|sessions| - 1]), sessions[|sessions| - 1]);
    }
  }

  /** After any sessions: the broker is away, and every stream opened before it was last lost has been
      told to end, or has ended. */
  lemma EveryStreamIsToldToEnd(h: Hub, sessions: seq<Session>, q: QueueId)
    requires Inv(h) && !h.connected && q in MetAll(h, sessions).streams
    ensures var g := MetAll(h, sessions);
            && Inv(g) && !g.connected && |g.streams[q].channel.items| <= QUEUE_SIZE
            && (g.streams[q].since < g.lostAt ==> HasMarker(g.streams[q].channel) || g.streams[q].ended)
  {
    MetAllReaches(h, sessions);
    var steps :| Legal(h, steps) && After(h, steps) == MetAll(h, sessions);
    NoEventIsMissedSilently(h, steps);
  }

  ghost function Channels(h: Hub): map<QueueId, Channel<nat>> {
    map q | q in h.streams :: h.streams[q].channel
  }

  /** What a step does to the queues alone. */
  ghost function ChannelsNext(h: Hub, step: Step): map<QueueId, Channel<nat>>
    requires Enabled(h, step)
  {
    var c := Channels(h);
    match step
    case Publish(_) => c
    case Open(q) => c[q := Channel([], false, false)]
    case Leave(q) => c - {q}
    case Take(q) => c[q := Taken(c[q])]
    case Dispatch => if h.log[h.position].Undecodable? then c else map q | q in c :: Delivered(c[q], h.position)
    case Connect(_) => map q | q in c :: Resynced(c[q])
    case Lose => map q | q in c :: Ended(c[q])
  }

  lemma StepMovesChannels(h: Hub, step: Step)
    requires Enabled(h, step)
    ensures Channels(Next(h, step)) == ChannelsNext(h, step)
  {
  }

  class KafkaLiveEventHub {
    const fanout: LiveEventFanout<nat>
    var available: bool
    var attempt: nat
    var position: nat
    var log: seq<Message>   // the topic, as the broker holds it
    ghost var world: Hub

    /** The queues and the hub's own fields are those of `world`, which only ever takes protocol steps. */
    ghost predicate Valid()
      reads this, fanout
    {
      && fanout.Valid()
      && available == world.connected
      && position == world.position
      && log == world.log
      && fanout.View() == Channels(world)
    }

    constructor ()
      ensures Valid() && fresh(fanout) && world == INITIAL && attempt == 0
    {
      fanout := new LiveEventFanout();
      available, attempt, position, log := false, 0, 0, [];
      world := INITIAL;
    }

    /** One turn of a publisher or a stream, if it can take it; the consumer stands still. */
    method ElsewhereOnce(step: Step)
      requires Valid()
      requires step.Publish? || step.Open? || step.Leave? || step.Take?
      modifies this`log, this`world, fanout
      ensures Valid()
      ensures world == if Enabled(old(world), step) then Next(old(world), step) else old(world)
    {
      assert forall q :: q in fanout.queues <==> q in fanout.View();
      if Enabled(world, step) {
        StepMovesChannels(world, step);
      }
      match step {
        case Publish(message) =>
          log := log + [message];
          world := Next(world, step);
        case Open(q) =>
          if q !in fanout.queues {
            fanout.Subscribe(q);
            world := Next(world, step);
          }
        case Leave(q) =>
          if q in fanout.queues {
            fanout.Unsubscribe(q);
            world := Next(world, step);
          }
        case Take(q) =>
          assert q in fanout.queues ==> fanout.View()[q] == fanout.ChannelOf(q);
          if q in fanout.queues && fanout.queues[q] != [] {
            var _ := fanout.Get(q);
            world := Next(world, step);
          }
      }
    }

    /** After `seek_to_end`: available again, and every stream is told what it may have missed. */
    method Connected(seek: nat)
      requires Valid() && Enabled(world, Connect(seek))
      modifies this`available, this`attempt, this`position, this`world, fanout
      ensures Valid() && world == Next(old(world), Connect(seek)) && attempt == 0
    {
      StepMovesChannels(world, Connect(seek));
      position := seek;
      available := true;
      attempt := 0;
      fanout.ResyncAll();
      world := Next(world, Connect(seek));
    }

    /** `dispatch`: what does not decode goes no further. */
    method DispatchNext()
      requires Valid() && Enabled(world, Dispatch)
      modifies this`position, this`world, fanout
      ensures Valid() && world == Next(old(world), Dispatch)
    {
      StepMovesChannels(world, Dispatch);
      if log[position].Decodable? {
        fanout.Deliver(position);
      }
      position := position + 1;
      world := Next(world, Dispatch);
    }

    /** The `finally` of every attempt, whether it connected or not. */
    method Lost()
      requires Valid()
      modifies this`available, this`world, fanout
      ensures Valid() && world == Next(old(world), Lose) && !available
    {
      StepMovesChannels(world, Lose);
      available := false;
      fanout.CloseAll();
      world := Next(world, Lose);
    }

    method Elsewhere(turns: seq<Step>)
      requires Valid()
      modifies this`log, this`world, fanout
      ensures Valid() && world == Turned(old(world), turns)
      ensures position == old(position) && available == old(available) && (turns == [] ==> log == old(log))
    {
      for i := 0 to |turns|
        invariant Valid() && world == Turned(old(world), turns[..i])
        invariant available == old(available) && position == old(position) && (turns == [] ==> log == old(log))
      {
        assert turns[..i + 1][..i] == turns[..i];
        var turn := turns[i];
        if IsOutside(turn) {
          ElsewhereOnce(turn);
        }
      }
      assert turns[..|turns|] == turns;
    }

    /** A connected session up to the loss: `_consume` until it raises. */
    method Consume(session: Session)
      requires Valid() && !available && position <= |log|
      modifies this, fanout
      ensures Valid() && attempt == 0
      ensures world == Received(Next(old(world), Connect(SeekTo(old(world), session))), session.receiving)
      ensures session.receiving == [] && old(position) <= session.seek <= |old(log)| ==> position == session.seek
    {
      var seek := if session.seek < position then position else if session.seek <= |log| then session.seek else |log|;
      Connected(seek);
      ghost var connected := world;
      for n := 0 to |session.receiving|
        invariant Valid() && attempt == 0 && world == Received(connected, session.receiving[..n])
        invariant n == 0 ==> position == seek
      {
        assert session.receiving[..n + 1][..n] == session.receiving[..n];
        Elsewhere(session.receiving[n]);
        if available && position < |log| {
          DispatchNext();
        }
      }
      assert session.receiving[..|session.receiving|] == session.receiving;
    }

    /** Once round the loop: connect, serve until the broker is lost, back off. */
    method OneSession(session: Session) returns (delay: nat)
      requires Valid() && !available && position <= |log|
      modifies this, fanout
      ensures Valid() && !available && position <= |log| && world == Met(old(world), session)
      ensures delay == Delay(if session.connects then 0 else old(attempt))
      ensures attempt == (if session.connects then 0 else old(attempt)) + 1
      // what was missed while the broker was away is not replayed: reading goes on from where the seek lands
      ensures session.connects && session.connecting == [] && session.receiving == [] ==>
              old(position) <= session.seek <= |old(log)| ==> position == session.seek
      ensures !session.connects ==> position == old(position)
    {
      ghost var start := world;
      ReachesItself(start);
      MetReaches(start, start, session);
      TurnedReaches(start, start, session.connecting);
      Elsewhere(session.connecting);
      if session.connects {
        Consume(session);
      }
      Lost();
      delay := Delay(attempt);
      attempt := attempt + 1;
      Elsewhere(session.waiting);
    }

    /** The endless loop, cut off after the given sessions: never available between them, and waiting
        longer after each failure in a row. */
    method Run(sessions: seq<Session>) returns (delays: seq<nat>)
      requires Valid() && !available && attempt == 0 && position <= |log|
      modifies this, fanout
      ensures Valid() && !available && world == MetAll(old(world), sessions)
      ensures |delays| == |sessions| && forall i :: 0 <= i < |sessions| ==> delays[i] == Delay(Streak(sessions, i))
      // a second after a connection, and after each failure in a row the next longer wait up to half a minute
      ensures forall i :: 0 <= i < |sessions| ==>
                delays[i] == if i == 0 || sessions[i].connects then 1 else Longer(delays[i - 1])
    {
      delays := [];
      for i := 0 to |sessions|
        invariant Valid() && !available && position <= |log| && world == MetAll(old(world), sessions[..i])
        invariant attempt == if i == 0 then 0 else Streak(sessions, i - 1) + 1
        invariant |delays| == i && forall j :: 0 <= j < i ==> delays[j] == Delay(Streak(sessions, j))
      {
        assert sessions[..i + 1][..i] == sessions[..i];
        var delay := OneSession(sessions[i]);
        delays := delays + [delay];
      }
      assert sessions[..|sessions|] == sessions;
      forall i | 0 <= i < |sessions|
        ensures delays[i] == if i == 0 || sessions[i].connects then 1 else Longer(delays[i - 1])
      {
        DelayByTheLast(sessions, i);
      }
    }
  }
}
