// Where a message can be: the queue it was enqueued to and its attempts decide it.
//
// The engine keeps no origin, so the history of a run is repeated with payloads that carry
// one; erasing the origins gives the state of the run back.

module Placement {
  import opened QueueState
  import opened Payloads
  import opened Replay
  import opened Recovery

  datatype Tagged<D> = Tagged(payload: D, origin: string)

  function Untag<D>(): Tagged<D> -> D {
    (t: Tagged<D>) => t.payload
  }

  // Each arrival is tagged with the queue it goes to.
  function Tag<D>(e: Effect<D>): Effect<Tagged<D>> {
    match e
    case Opened(q) => Opened(q)
    case Arrived(q, data) => Arrived(q, Tagged(data, q))
    case Delivered(q, id, at) => Delivered(q, id, at)
    case Settled(id) => Settled(id)
    case Returned(id) => Returned(id)
    case Touched(id, at) => Touched(id, at)
  }

  function TagAll<D>(es: seq<Effect<D>>): seq<Effect<Tagged<D>>> {
    seq(|es|, i requires 0 <= i < |es| => Tag(es[i]))
  }

  lemma UntagStep<D>(s: State<Tagged<D>>, e: Effect<D>)
    ensures MapState(Untag(), Apply(s, Tag(e))) == Apply(MapState(Untag(), s), e)
  {
    MapApply(Untag(), s, Tag(e));
    assert MapEffect(Untag(), Tag(e)) == e;
  }

  // Erasing the origins gives the history's own state back.
  lemma {:induction false} UntagApplyAll<D>(es: seq<Effect<D>>)
    ensures MapState(Untag(), ApplyAll(Empty(), TagAll(es))) == ApplyAll(Empty(), es)
    decreases |es|
  {
    if es != [] {
      var n := |es| - 1;
      UntagApplyAll(es[..n]);
      assert TagAll(es)[..n] == TagAll(es[..n]);
      UntagStep(ApplyAll(Empty(), TagAll(es[..n])), es[n]);
    } else {
      MapEmpty<Tagged<D>, D>(Untag());
    }
  }

  // ----- Placement -----

  // A queue name followed by n dead-letter suffixes, none when n is not positive.
  function Suffixed(origin: string, n: int): string
    decreases n
  {
    if n <= 0 then origin else Suffixed(origin, n - 1) + "_dlq"
  }

  // A message with n attempts waits n - 4 dead-letter queues away from its origin, and one
  // in flight names the queue it was delivered from.
  ghost predicate Placed<D>(s: State<Tagged<D>>) {
    && (forall q, i | q in s.queues && 0 <= i < |s.queues[q]| ::
          q == Suffixed(s.queues[q][i].data.origin, s.queues[q][i].attempts - 4))
    && forall id | id in s.inFlight ::
         s.inFlight[id].queueName == Suffixed(s.inFlight[id].data.origin, s.inFlight[id].attempts - 5)
  }

  lemma RequeuePlaced<D>(s: State<Tagged<D>>, task: InFlightTask<Tagged<D>>)
    requires Placed(s) && task.queueName == Suffixed(task.data.origin, task.attempts - 5)
    ensures Placed(Requeue(s, task))
  {
    assert Destination(task) == Suffixed(task.data.origin, task.attempts - 4);
  }

  lemma ArrivalPlaced<D>(s: State<Tagged<D>>, q: string, data: D)
    requires Placed(s)
    ensures Placed(Apply(s, Arrived(q, Tagged(data, q))))
  {
  }

  lemma DeliveryPlaced<D>(s: State<Tagged<D>>, q: string, id: string, at: int)
    requires Placed(s)
    ensures Placed(Apply(s, Delivered(q, id, at)))
  {
    if Contents(s, q) != [] {
      var task := Lent(s.queues[q][0], q, id, at);
      assert q == Suffixed(task.data.origin, task.attempts - 5);
    }
  }

  lemma ApplyPlaced<D>(s: State<Tagged<D>>, e: Effect<D>)
    requires Placed(s)
    ensures Placed(Apply(s, Tag(e)))
  {
    match e {
      case Opened(_) =>
      case Arrived(q, data) => ArrivalPlaced(s, q, data);
      case Delivered(q, id, at) => DeliveryPlaced(s, q, id, at);
      case Settled(_) =>
      case Returned(id) =>
        if id in s.inFlight {
          RequeuePlaced(Without(s, {id}), s.inFlight[id]);
        }
      case Touched(_, _) =>
    }
  }

  lemma {:induction false} ApplyAllPlaced<D>(es: seq<Effect<D>>)
    ensures Placed(ApplyAll(Empty(), TagAll(es)))
  {
    if es != [] {
      var n := |es| - 1;
      ApplyAllPlaced(es[..n]);
      assert TagAll(es)[..n] == TagAll(es[..n]);
      ApplyPlaced(ApplyAll(Empty(), TagAll(es[..n])), es[n]);
    }
  }

  // In every run, restarts included: repeating the history with origins gives the queues
  // and the in-flight tasks of the memory, and every message is where its origin and its
  // attempts put it.
  lemma DeadLettersPlaced<D>(events: seq<Event<D>>, clock: ReplayClock) returns (tagged: State<Tagged<D>>)
    requires FreshIds(events) || NoAckFails(events)
    ensures tagged == ApplyAll(Empty(), TagAll(Journal(Run(events).log, clock)))
    ensures MapState(Untag(), tagged).queues == Run(events).memory.queues
    ensures Covers(Run(events).memory.inFlight, MapState(Untag(), tagged).inFlight, LostAcks(events))
    ensures Placed(tagged)
  {
    var log := Run(events).log;
    RunRecoverable(events, clock);
    ReplayIsJournal(log, clock);
    tagged := ApplyAll(Empty(), TagAll(Journal(log, clock)));
    UntagApplyAll(Journal(log, clock));
    ApplyAllPlaced(Journal(log, clock));
  }
}
