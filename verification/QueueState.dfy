// The memory of the queue engine and the elementary changes made to it.
//
// Payloads are opaque to the engine, so everything is generic in the payload type D.

module QueueState {

  datatype QueueItem<D> = QueueItem(data: D, attempts: nat)

  // consumedAt is a clock reading in nanoseconds.
  datatype InFlightTask<D> =
    InFlightTask(id: string, data: D, consumedAt: int, queueName: string, attempts: nat)

  datatype State<D> = State(
    queues: map<string, seq<QueueItem<D>>>,
    inFlight: map<string, InFlightTask<D>>)

  // A nack at this many deliveries, or more, dead-letters the message.
  const MAX_ATTEMPTS: nat := 5

  function Empty<D>(): State<D> {
    State(map[], map[])
  }

  function DlqName(queue: string): string {
    queue + "_dlq"
  }

  // The contents of a queue, nothing when there is no such queue.
  function Contents<D>(s: State<D>, queue: string): seq<QueueItem<D>> {
    if queue in s.queues then s.queues[queue] else []
  }

  function SetQueue<D>(s: State<D>, queue: string, items: seq<QueueItem<D>>): State<D> {
    s.(queues := s.queues[queue := items])
  }

  function Fresh<D>(data: D): QueueItem<D> {
    QueueItem(data, 0)
  }

  function FreshAll<D>(items: seq<D>): seq<QueueItem<D>> {
    seq(|items|, i requires 0 <= i < |items| => Fresh(items[i]))
  }

  // The task handed out when an item is delivered: one more attempt.
  function Lent<D>(item: QueueItem<D>, queue: string, id: string, at: int): InFlightTask<D> {
    InFlightTask(id, item.data, at, queue, item.attempts + 1)
  }

  function LentAll<D>(items: seq<QueueItem<D>>, queue: string, ids: seq<string>, at: nat -> int)
    : (tasks: seq<InFlightTask<D>>)
    requires |ids| == |items|
    ensures |tasks| == |items|
    ensures forall i | 0 <= i < |items| :: tasks[i] == Lent(items[i], queue, ids[i], at(i))
  {
    seq(|items|, i requires 0 <= i < |items| => Lent(items[i], queue, ids[i], at(i)))
  }

  function Insert<D>(tasks: map<string, InFlightTask<D>>, more: seq<InFlightTask<D>>)
    : map<string, InFlightTask<D>>
  {
    if more == [] then tasks
    else
      var n := |more| - 1;
      Insert(tasks, more[..n])[more[n].id := more[n]]
  }

  // Moves the first |ids| items of a queue into flight.
  function Take<D>(s: State<D>, queue: string, ids: seq<string>, at: nat -> int): State<D>
    requires queue in s.queues && |ids| <= |s.queues[queue]|
  {
    var items := s.queues[queue];
    State(s.queues[queue := items[|ids|..]],
          Insert(s.inFlight, LentAll(items[..|ids|], queue, ids, at)))
  }

  function Without<D>(s: State<D>, ids: set<string>): State<D> {
    s.(inFlight := s.inFlight - ids)
  }

  function Returning<D>(task: InFlightTask<D>): QueueItem<D> {
    QueueItem(task.data, task.attempts)
  }

  // Where a nack puts a task: the dead-letter queue once the attempts are used up.
  function Destination<D>(task: InFlightTask<D>): string {
    if task.attempts >= MAX_ATTEMPTS then DlqName(task.queueName) else task.queueName
  }

  // Only a retry needs its queue to exist: the dead-letter queue is created on demand.
  predicate HasDestination<D>(s: State<D>, task: InFlightTask<D>) {
    task.attempts >= MAX_ATTEMPTS || task.queueName in s.queues
  }

  // Puts a task that has left the in-flight map back into a queue: a retry goes to
  // the front of its queue, a dead letter to the back of the dead-letter queue.
  function Requeue<D>(s: State<D>, task: InFlightTask<D>): State<D> {
    if task.attempts >= MAX_ATTEMPTS then
      var dlq := DlqName(task.queueName);
      SetQueue(s, dlq, Contents(s, dlq) + [Returning(task)])
    else if task.queueName in s.queues then
      SetQueue(s, task.queueName, [Returning(task)] + s.queues[task.queueName])
    else
      s
  }

  // ----- Elementary changes -----

  datatype Effect<D> =
    | Opened(queue: string)
    | Arrived(queue: string, data: D)
    | Delivered(queue: string, id: string, at: int)
    | Settled(id: string)
    | Returned(id: string)
    | Touched(id: string, at: int)

  // A change that is not enabled does nothing.
  predicate Enabled<D>(s: State<D>, e: Effect<D>) {
    match e
    case Opened(queue) => queue !in s.queues
    case Arrived(queue, _) => queue in s.queues
    case Delivered(queue, _, _) => Contents(s, queue) != []
    case Settled(id) => id in s.inFlight
    case Returned(id) => id in s.inFlight
    case Touched(id, _) => id in s.inFlight
  }

  function Apply<D>(s: State<D>, e: Effect<D>): State<D> {
    if !Enabled(s, e) then s else
    match e
    case Opened(queue) => SetQueue(s, queue, [])
    case Arrived(queue, data) => SetQueue(s, queue, s.queues[queue] + [Fresh(data)])
    case Delivered(queue, id, at) =>
      State(s.queues[queue := s.queues[queue][1..]],
            s.inFlight[id := Lent(s.queues[queue][0], queue, id, at)])
    case Settled(id) => Without(s, {id})
    case Returned(id) => Requeue(Without(s, {id}), s.inFlight[id])
    case Touched(id, at) => s.(inFlight := s.inFlight[id := s.inFlight[id].(consumedAt := at)])
  }

  function ApplyAll<D>(s: State<D>, es: seq<Effect<D>>): State<D> {
    if es == [] then s else Apply(ApplyAll(s, es[..|es| - 1]), es[|es| - 1])
  }

  lemma {:induction false} ApplyAllConcat<D>(s: State<D>, a: seq<Effect<D>>, b: seq<Effect<D>>)
    ensures ApplyAll(s, a + b) == ApplyAll(ApplyAll(s, a), b)
  {
    if b == [] {
      assert a + b == a;
    } else {
      var n := |b| - 1;
      assert (a + b)[..|a + b| - 1] == a + b[..n];
      ApplyAllConcat(s, a, b[..n]);
    }
  }

  // The tasks differ in their consumption times at most.
  ghost predicate SameTask<D>(t: InFlightTask<D>, u: InFlightTask<D>) {
    t.(consumedAt := 0) == u.(consumedAt := 0)
  }

  // ----- The well-formedness invariant -----

  ghost predicate WellFormedTask<D>(s: State<D>, id: string, task: InFlightTask<D>) {
    task.id == id && task.queueName in s.queues && task.attempts >= 1
  }

  // Each task in flight is keyed by its own id, names an existing queue and has been delivered.
  ghost predicate WellFormed<D>(s: State<D>) {
    forall id | id in s.inFlight :: WellFormedTask(s, id, s.inFlight[id])
  }

  lemma ApplyKeepsWellFormed<D>(s: State<D>, e: Effect<D>)
    requires WellFormed(s)
    ensures WellFormed(Apply(s, e))
    ensures s.queues.Keys <= Apply(s, e).queues.Keys
  {
  }

  lemma {:induction false} ApplyAllKeepsWellFormed<D>(s: State<D>, es: seq<Effect<D>>)
    requires WellFormed(s)
    ensures WellFormed(ApplyAll(s, es))
  {
    if es != [] {
      ApplyAllKeepsWellFormed(s, es[..|es| - 1]);
      ApplyKeepsWellFormed(ApplyAll(s, es[..|es| - 1]), es[|es| - 1]);
    }
  }
}
