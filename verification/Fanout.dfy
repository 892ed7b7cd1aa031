/** The bounded queues of the open `/events` streams in one process (`live/fanout.py`). */
module Fanout {

  /** `id(queue)`: distinct among live queues, reusable once a queue is gone. */
  type QueueId = nat

  const QUEUE_SIZE: nat := 100

  datatype QueueItem<E> = Event(value: E) | Resync | Close

  /** One queue with its two flags. */
  datatype Channel<E> = Channel(items: seq<QueueItem<E>>, inResync: bool, closed: bool)

  ghost predicate ChannelOk<E>(c: Channel<E>) {
    && |c.items| <= QUEUE_SIZE
    && !(c.closed && c.inResync)
    && (c.closed ==> c.items == [] || c.items == [Close])
    && (c.inResync ==> c.items == [] || c.items == [Resync])
    && (!c.closed && !c.inResync ==> forall i :: 0 <= i < |c.items| ==> c.items[i].Event?)
  }

  function Delivered<E>(c: Channel<E>, e: E): Channel<E> {
    if c.closed || (c.inResync && c.items != []) then c
    else if |c.items| < QUEUE_SIZE then Channel(c.items + [Event(e)], false, false)
    else Channel([Resync], true, false)
  }

  function Resynced<E>(c: Channel<E>): Channel<E> {
    if c.closed || (c.inResync && c.items != []) then c else Channel([Resync], true, false)
  }

  function Ended<E>(c: Channel<E>): Channel<E> {
    Channel([Close], false, true)
  }

  /** `queue.get()` by the stream that owns the queue. */
  function Taken<E>(c: Channel<E>): Channel<E>
    requires c.items != []
  {
    c.(items := c.items[1..])
  }

  ghost predicate HasMarker<E>(c: Channel<E>) {
    Resync in c.items || Close in c.items
  }

  /** The bound, the flags' meaning and the markers survive every operation. A delivery leaves the
      event queued or a marker in its place; an unread marker is displaced by nothing but `close`. */
  lemma DeliveryQueuesOrMarks<E>(c: Channel<E>, e: E)
    requires ChannelOk(c)
    ensures ChannelOk(Delivered(c, e))
    ensures !c.closed ==> Event(e) in Delivered(c, e).items || HasMarker(Delivered(c, e))
    ensures forall x :: x in c.items ==> x in Delivered(c, e).items || HasMarker(Delivered(c, e))
    ensures HasMarker(c) ==> Delivered(c, e) == c
  {
    var d := Delivered(c, e);
    if !c.closed && !(c.inResync && c.items != []) {
      if |c.items| < QUEUE_SIZE {
        assert d.items[|c.items|] == Event(e);
        forall x | x in c.items ensures x in d.items {
          var i :| 0 <= i < |c.items| && c.items[i] == x;
          assert d.items[i] == x;
        }
      } else {
        assert d.items[0] == Resync;
      }
    }
  }

  lemma ResyncAndCloseMark<E>(c: Channel<E>)
    requires ChannelOk(c)
    ensures ChannelOk(Resynced(c)) && (!c.closed ==> HasMarker(Resynced(c)))
    ensures HasMarker(c) ==> Resynced(c) == c
    ensures ChannelOk(Ended(c)) && HasMarker(Ended(c))
    ensures c.items != [] ==> ChannelOk(Taken(c))
  {
    assert !c.closed ==> Resynced(c).items[0] == Resync;
    assert Ended(c).items[0] == Close;
  }

  class LiveEventFanout<E> {
    var queues: map<QueueId, seq<QueueItem<E>>>
    var inResync: set<QueueId>
    var closed: set<QueueId>

    constructor ()
      ensures Valid() && View() == map[]
    {
      queues, inResync, closed := map[], {}, {};
    }

    ghost function ChannelOf(q: QueueId): Channel<E>
      requires q in queues
      reads this
    {
      Channel(queues[q], q in inResync, q in closed)
    }

    ghost function View(): map<QueueId, Channel<E>>
      reads this
    {
      map q | q in queues :: ChannelOf(q)
    }

    /** Flags exist only for live queues, so a new queue that reuses a dead one's id starts clean. */
    ghost predicate Valid()
      reads this
    {
      && inResync <= queues.Keys
      && closed <= queues.Keys
      && forall q :: q in queues ==> ChannelOk(ChannelOf(q))
    }

    method Subscribe(q: QueueId)
      requires Valid() && q !in queues
      modifies this
      ensures Valid()
      ensures View() == old(View())[q := Channel([], false, false)]
    {
      queues := queues[q := []];
    }

    method Unsubscribe(q: QueueId)
      requires Valid()
      modifies this
      ensures Valid()
      ensures View() == old(View()) - {q}
    {
      queues := queues - {q};
      inResync := inResync - {q};
      closed := closed - {q};
    }

    method Get(q: QueueId) returns (item: QueueItem<E>)
      requires Valid() && q in queues && queues[q] != []
      modifies `queues
      ensures Valid()
      ensures item == old(queues[q])[0] && queues == old(queues)[q := old(queues)[q][1..]]
      ensures View() == old(View())[q := Taken(old(ChannelOf(q)))]
    {
      item := queues[q][0];
      queues := queues[q := queues[q][1..]];
    }

    /** `put_nowait` after the emptiness or room check: it never raises. */
    method PutNowait(q: QueueId, item: QueueItem<E>)
      requires q in queues && |queues[q]| < QUEUE_SIZE
      modifies `queues
      ensures queues == old(queues)[q := old(queues)[q] + [item]]
    {
      queues := queues[q := queues[q] + [item]];
    }

    method Drain(q: QueueId)
      requires q in queues
      modifies `queues
      ensures queues == old(queues)[q := []]
    {
      while queues[q] != []
        invariant q in queues && queues == old(queues)[q := queues[q]]
        decreases |queues[q]|
      {
        queues := queues[q := queues[q][1..]];
      }
    }

    /** Everything but one queue is untouched. */
    twostate predicate OnlyTouches(q: QueueId)
      reads this
    {
      && queues.Keys == old(queues.Keys)
      && inResync <= queues.Keys && closed <= queues.Keys
      && forall p :: p in queues && p != q ==> ChannelOf(p) == old(ChannelOf(p))
    }

    method DeliverTo(q: QueueId, e: E)
      requires q in queues && inResync <= queues.Keys && closed <= queues.Keys
      requires ChannelOk(ChannelOf(q))
      modifies this
      ensures OnlyTouches(q) && ChannelOf(q) == Delivered(old(ChannelOf(q)), e)
    {
      if q in closed {
        return;
      }
      if q in inResync {
        if queues[q] != [] {
          return;
        }
        inResync := inResync - {q};
      }
      if |queues[q]| < QUEUE_SIZE {
        PutNowait(q, Event(e));
      } else {
        Drain(q);
        PutNowait(q, Resync);
        inResync := inResync + {q};
      }
    }

    method ResyncOne(q: QueueId)
      requires q in queues && inResync <= queues.Keys && closed <= queues.Keys
      modifies this
      ensures OnlyTouches(q) && ChannelOf(q) == Resynced(old(ChannelOf(q)))
    {
      if q in closed || (q in inResync && queues[q] != []) {
        return;
      }
      Drain(q);
      PutNowait(q, Resync);
      inResync := inResync + {q};
    }

    method CloseOne(q: QueueId)
      requires q in queues && inResync <= queues.Keys && closed <= queues.Keys
      modifies this
      ensures OnlyTouches(q) && ChannelOf(q) == Ended(old(ChannelOf(q)))
    {
      Drain(q);
      PutNowait(q, Close);
      closed := closed + {q};
      inResync := inResync - {q};
    }

    method Deliver(e: E)
      requires Valid()
      modifies this
      ensures Valid()
      ensures View() == map q | q in old(View()) :: Delivered(old(View())[q], e)
      // in the queues themselves: queued while there is room, a resync for the whole backlog when there is none
      ensures queues.Keys == old(queues).Keys && closed == old(closed)
      ensures forall q :: q in queues ==>
                queues[q] == if q in old(closed) || Resync in old(queues)[q] then old(queues)[q]
                             else if |old(queues)[q]| < 100 then old(queues)[q] + [Event(e)]
                             else [Resync]
    {
      var todo := queues.Keys;
      while todo != {}
        invariant queues.Keys == old(queues.Keys) && todo <= queues.Keys
        invariant inResync <= queues.Keys && closed <= queues.Keys
        invariant forall q :: q in queues ==>
          ChannelOf(q) == if q in todo then old(ChannelOf(q)) else Delivered(old(ChannelOf(q)), e)
        decreases |todo|
      {
        var q :| q in todo;
        todo := todo - {q};
        DeliverTo(q, e);
      }
      forall q | q in queues ensures ChannelOk(ChannelOf(q)) {
        DeliveryQueuesOrMarks(old(ChannelOf(q)), e);
      }
      forall q ensures q in closed <==> q in old(closed) {
        assert q in queues ==> View()[q] == ChannelOf(q) && old(View())[q] == old(ChannelOf(q));
      }
      forall q | q in queues ensures Resync in old(queues)[q] <==> q in old(inResync) && old(queues)[q] != [] {
        assert old(ChannelOk(ChannelOf(q)));
      }
    }

    method ResyncAll()
      requires Valid()
      modifies this
      ensures Valid()
      ensures View() == map q | q in old(View()) :: Resynced(old(View())[q])
      // one resync on every queue that is not closed, and nothing on one that is
      ensures queues.Keys == old(queues).Keys && closed == old(closed)
      ensures forall q :: q in queues ==> queues[q] == if q in old(closed) then old(queues)[q] else [Resync]
    {
      var todo := queues.Keys;
      while todo != {}
        invariant queues.Keys == old(queues.Keys) && todo <= queues.Keys
        invariant inResync <= queues.Keys && closed <= queues.Keys
        invariant forall q :: q in queues ==>
          ChannelOf(q) == if q in todo then old(ChannelOf(q)) else Resynced(old(ChannelOf(q)))
        decreases |todo|
      {
        var q :| q in todo;
        todo := todo - {q};
        ResyncOne(q);
      }
      forall q | q in queues ensures queues[q] == if q in old(closed) then old(queues)[q] else [Resync] {
        assert old(ChannelOk(ChannelOf(q))) && View()[q] == ChannelOf(q);
      }
      forall q ensures q in closed <==> q in old(closed) {
        assert q in queues ==> ChannelOf(q) == Resynced(old(ChannelOf(q)));
      }
    }

    method CloseAll()
      requires Valid()
      modifies this
      ensures Valid()
      ensures View() == map q | q in old(View()) :: Ended(old(View())[q])
      ensures closed == queues.Keys == old(queues).Keys && forall q :: q in queues ==> queues[q] == [Close]
    {
      var todo := queues.Keys;
      while todo != {}
        invariant queues.Keys == old(queues.Keys) && todo <= queues.Keys
        invariant inResync <= queues.Keys && closed <= queues.Keys
        invariant forall q :: q in queues ==>
          ChannelOf(q) == if q in todo then old(ChannelOf(q)) else Ended(old(ChannelOf(q)))
        decreases |todo|
      {
        var q :| q in todo;
        todo := todo - {q};
        CloseOne(q);
      }
      forall q | q in queues ensures q in closed && queues[q] == [Close] {
        assert ChannelOf(q) == Ended(old(ChannelOf(q)));
      }
    }
  }
}
