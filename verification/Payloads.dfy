// The engine never looks into a payload: whatever a function makes of the payloads, the
// elementary changes do not notice.

module Payloads {
  import opened QueueState

  function MapItem<A, B>(f: A -> B, item: QueueItem<A>): QueueItem<B> {
    QueueItem(f(item.data), item.attempts)
  }

  function MapItems<A, B>(f: A -> B, items: seq<QueueItem<A>>): (mapped: seq<QueueItem<B>>)
    ensures |mapped| == |items|
    ensures forall i | 0 <= i < |items| :: mapped[i] == MapItem(f, items[i])
  {
    seq(|items|, i requires 0 <= i < |items| => MapItem(f, items[i]))
  }

  function MapTask<A, B>(f: A -> B, t: InFlightTask<A>): InFlightTask<B> {
    InFlightTask(t.id, f(t.data), t.consumedAt, t.queueName, t.attempts)
  }

  function MapState<A, B>(f: A -> B, s: State<A>): State<B> {
    State(map q | q in s.queues :: MapItems(f, s.queues[q]),
          map id | id in s.inFlight :: MapTask(f, s.inFlight[id]))
  }

  function MapEffect<A, B>(f: A -> B, e: Effect<A>): Effect<B> {
    match e
    case Opened(q) => Opened(q)
    case Arrived(q, data) => Arrived(q, f(data))
    case Delivered(q, id, at) => Delivered(q, id, at)
    case Settled(id) => Settled(id)
    case Returned(id) => Returned(id)
    case Touched(id, at) => Touched(id, at)
  }

  lemma MapEmpty<A, B>(f: A -> B)
    ensures MapState(f, Empty()) == Empty()
  {
  }

  lemma MapContents<A, B>(f: A -> B, s: State<A>, q: string)
    ensures Contents(MapState(f, s), q) == MapItems(f, Contents(s, q))
  {
  }

  lemma MapSetQueue<A, B>(f: A -> B, s: State<A>, q: string, items: seq<QueueItem<A>>)
    ensures MapState(f, SetQueue(s, q, items)) == SetQueue(MapState(f, s), q, MapItems(f, items))
  {
  }

  lemma MapWithout<A, B>(f: A -> B, s: State<A>, id: string)
    ensures MapState(f, Without(s, {id})) == Without(MapState(f, s), {id})
  {
  }

  lemma MapRequeue<A, B>(f: A -> B, s: State<A>, task: InFlightTask<A>)
    ensures MapState(f, Requeue(s, task)) == Requeue(MapState(f, s), MapTask(f, task))
  {
    var items, item := Contents(s, Destination(task)), Returning(task);
    MapContents(f, s, Destination(task));
    MapSetQueue(f, s, Destination(task), items + [item]);
    MapSetQueue(f, s, Destination(task), [item] + items);
    assert MapItems(f, items + [item]) == MapItems(f, items) + [MapItem(f, item)];
    assert MapItems(f, [item] + items) == [MapItem(f, item)] + MapItems(f, items);
  }

  lemma MapArrival<A, B>(f: A -> B, s: State<A>, q: string, data: A)
    ensures MapState(f, Apply(s, Arrived(q, data))) == Apply(MapState(f, s), Arrived(q, f(data)))
  {
    if q in s.queues {
      MapSetQueue(f, s, q, s.queues[q] + [Fresh(data)]);
      assert MapItems(f, s.queues[q] + [Fresh(data)]) == MapItems(f, s.queues[q]) + [Fresh(f(data))];
    }
  }

  lemma MapDelivery<A, B>(f: A -> B, s: State<A>, q: string, id: string, at: int)
    ensures MapState(f, Apply(s, Delivered(q, id, at))) == Apply(MapState(f, s), Delivered(q, id, at))
  {
    if Contents(s, q) != [] {
      assert MapItems(f, s.queues[q][1..]) == MapItems(f, s.queues[q])[1..];
    }
  }

  lemma MapApply<A, B>(f: A -> B, s: State<A>, e: Effect<A>)
    ensures MapState(f, Apply(s, e)) == Apply(MapState(f, s), MapEffect(f, e))
  {
    match e {
      case Opened(q) => MapSetQueue(f, s, q, []);
      case Arrived(q, data) => MapArrival(f, s, q, data);
      case Delivered(q, id, at) => MapDelivery(f, s, q, id, at);
      case Settled(id) => MapWithout(f, s, id);
      case Returned(id) =>
        if id in s.inFlight {
          MapWithout(f, s, id);
          MapRequeue(f, Without(s, {id}), s.inFlight[id]);
        }
      case Touched(_, _) =>
    }
  }
}
