// How often a queue can deliver: a potential that every delivery lowers by one.

module DeliveryBound {
  import opened QueueState
  import opened StorageCalls
  import opened Replay
  import opened Recovery
  import opened Totals

  // The deliveries from this queue that a pending item can still give rise to.
  function ItemPotential<D>(item: QueueItem<D>): nat {
    if item.attempts < MAX_ATTEMPTS then MAX_ATTEMPTS - item.attempts else 1
  }

  function ItemsPotential<D>(items: seq<QueueItem<D>>): nat {
    if items == [] then 0 else ItemPotential(items[0]) + ItemsPotential(items[1..])
  }

  // A task in flight returns to its queue while it has attempts left.
  function TaskPotential<D>(queue: string): InFlightTask<D> -> int {
    (t: InFlightTask<D>) =>
      if t.queueName == queue && t.attempts < MAX_ATTEMPTS then MAX_ATTEMPTS - t.attempts else 0
  }

  ghost function Potential<D>(s: State<D>, queue: string): int {
    ItemsPotential(Contents(s, queue)) + Total(s.inFlight, TaskPotential(queue))
  }

  lemma {:induction false} ItemsPotentialAppend<D>(items: seq<QueueItem<D>>, item: QueueItem<D>)
    ensures ItemsPotential(items + [item]) == ItemsPotential(items) + ItemPotential(item)
  {
    if items == [] {
      assert items + [item] == [item];
    } else {
      assert (items + [item])[1..] == items[1..] + [item];
      ItemsPotentialAppend(items[1..], item);
    }
  }

  lemma {:induction false} TasksPotentialNonNegative<D>(tasks: map<string, InFlightTask<D>>, queue: string)
    ensures Total(tasks, TaskPotential(queue)) >= 0
    decreases |tasks|
  {
    if tasks.Keys != {} {
      var id :| id in tasks;
      TasksPotentialNonNegative(tasks - {id}, queue);
      TotalRemove(tasks, id, TaskPotential(queue));
    }
  }

  // What an elementary change is worth: 5 for a message enqueued, 1 for a dead letter
  // received, and a delivery costs 1.
  function Worth<D>(s: State<D>, e: Effect<D>, queue: string): int {
    match e
    case Arrived(q, _) => if q == queue && q in s.queues then MAX_ATTEMPTS else 0
    case Delivered(q, _, _) => if q == queue && Contents(s, q) != [] then -1 else 0
    case Returned(id) => if id in s.inFlight && DeadLetters(s.inFlight[id], queue) then 1 else 0
    case _ => 0
  }

  predicate DeadLetters<D>(task: InFlightTask<D>, queue: string) {
    task.attempts >= MAX_ATTEMPTS && Destination(task) == queue
  }

  function WorthAll<D>(s: State<D>, es: seq<Effect<D>>, queue: string): int {
    if es == [] then 0
    else
      var before, last := es[..|es| - 1], es[|es| - 1];
      WorthAll(s, before, queue) + Worth(ApplyAll(s, before), last, queue)
  }

  lemma TotalWithout<D>(tasks: map<string, InFlightTask<D>>, id: string, f: InFlightTask<D> -> int)
    requires id in tasks
    ensures Total(tasks - {id}, f) == Total(tasks, f) - f(tasks[id])
  {
    TotalRemove(tasks, id, f);
  }

  lemma DeliveryPotential<D>(s: State<D>, q: string, id: string, at: int, queue: string)
    requires Contents(s, q) != []
    ensures Potential(Apply(s, Delivered(q, id, at)), queue)
         <= Potential(s, queue) + Worth(s, Delivered(q, id, at), queue)
  {
    var task := Lent(s.queues[q][0], q, id, at);
    TotalUpdate(s.inFlight, id, task, TaskPotential(queue));
    if id in s.inFlight {
      assert TaskPotential(queue)(s.inFlight[id]) >= 0;
    }
  }

  lemma ReturnPotential<D>(s: State<D>, id: string, queue: string)
    requires id in s.inFlight
    ensures Potential(Apply(s, Returned(id)), queue) <= Potential(s, queue) + Worth(s, Returned(id), queue)
  {
    var task := s.inFlight[id];
    var items := Contents(s, queue);
    TotalWithout(s.inFlight, id, TaskPotential(queue));
    if task.attempts >= MAX_ATTEMPTS {
      ItemsPotentialAppend(items, Returning(task));
    } else {
      assert ([Returning(task)] + items)[1..] == items;
    }
  }

  lemma StepPotential<D>(s: State<D>, e: Effect<D>, queue: string)
    ensures Potential(Apply(s, e), queue) <= Potential(s, queue) + Worth(s, e, queue)
  {
    if Enabled(s, e) {
      match e {
        case Opened(q) =>
        case Arrived(q, data) => ItemsPotentialAppend(Contents(s, q), Fresh(data));
        case Delivered(q, id, at) => DeliveryPotential(s, q, id, at, queue);
        case Settled(id) => TotalWithout(s.inFlight, id, TaskPotential(queue));
        case Returned(id) => ReturnPotential(s, id, queue);
        case Touched(id, at) =>
          TotalUpdate(s.inFlight, id, s.inFlight[id].(consumedAt := at), TaskPotential(queue));
      }
    }
  }

  lemma {:induction false} EffectsPotential<D>(s: State<D>, es: seq<Effect<D>>, queue: string)
    ensures Potential(ApplyAll(s, es), queue) <= Potential(s, queue) + WorthAll(s, es, queue)
  {
    if es != [] {
      var before, last := es[..|es| - 1], es[|es| - 1];
      EffectsPotential(s, before, queue);
      StepPotential(ApplyAll(s, before), last, queue);
    }
  }

  // ----- What the log entries are worth -----

  lemma {:induction false} ArrivalsWorth<D>(s: State<D>, q: string, items: seq<D>, queue: string)
    requires q in s.queues
    ensures WorthAll(s, Arrivals(q, items), queue) == if q == queue then MAX_ATTEMPTS * |items| else 0
  {
    if items != [] {
      var n := |items| - 1;
      ArrivalsWorth(s, q, items[..n], queue);
      ArrivalsAppend(s, q, items[..n]);
      assert Arrivals(q, items)[..n] == Arrivals(q, items[..n]);
    }
  }

  lemma {:induction false} DeliveriesWorth<D>(s: State<D>, q: string, ids: seq<string>, at: Readings, queue: string)
    requires q in s.queues && |ids| <= |s.queues[q]|
    ensures WorthAll(s, Deliveries(q, ids, at), queue) == if q == queue then -|ids| else 0
  {
    if ids != [] {
      var n := |ids| - 1;
      DeliveriesWorth(s, q, ids[..n], at, queue);
      DeliveriesTake(s, q, ids[..n], at);
      assert Deliveries<D>(q, ids, at)[..n] == Deliveries(q, ids[..n], at);
    }
  }

  lemma {:induction false} SettlementsWorth<D>(s: State<D>, ids: seq<string>, queue: string)
    ensures WorthAll(s, Settlements(ids), queue) == 0
  {
    if ids != [] {
      SettlementsWorth(s, ids[..|ids| - 1], queue);
      assert Settlements<D>(ids)[..|ids| - 1] == Settlements(ids[..|ids| - 1]);
    }
  }

  lemma OneWorth<D>(s: State<D>, e: Effect<D>, queue: string)
    ensures WorthAll(s, [e], queue) == Worth(s, e, queue)
  {
    assert [e][..0] == [];
  }

  // ----- Counting over a run, from what its calls are given and answer -----

  function DeliveredBy<D>(call: Call<D>, r: Response<D>, queue: string): nat {
    match call
    case Dequeue(q, _, _) => if q == queue && r.OneTask? && r.task.Some? then 1 else 0
    case DequeueBatch(q, _, _, _) => if q == queue && r.ManyTasks? then |r.tasks| else 0
    case _ => 0
  }

  function EnqueuedBy<D>(call: Call<D>, r: Response<D>, queue: string): nat {
    match call
    case Enqueue(q, _) => if q == queue && r == Done then 1 else 0
    case EnqueueBatch(q, items) => if q == queue && r == Done then |items| else 0
    case _ => 0
  }

  function DeadLetteredBy<D>(s: State<D>, call: Call<D>, r: Response<D>, queue: string): nat {
    if call.Nack? && r == Done && call.id in s.inFlight && DeadLetters(s.inFlight[call.id], queue) then 1 else 0
  }

  datatype Tally = Tally(delivered: nat, enqueued: nat, deadLettered: nat)

  // Successful deliveries from a queue, messages enqueued to it, dead letters moved into it.
  function TallyOf<D>(events: seq<Event<D>>, queue: string): Tally {
    if events == [] then Tally(0, 0, 0)
    else
      var before, last := events[..|events| - 1], events[|events| - 1];
      var t := TallyOf(before, queue);
      match last
      case Restart(_) => t
      case Do(call, appended) =>
        var s := Run(before).memory;
        var r := Execute(s, call, appended).response;
        Tally(t.delivered + DeliveredBy(call, r, queue), t.enqueued + EnqueuedBy(call, r, queue),
              t.deadLettered + DeadLetteredBy(s, call, r, queue))
  }

  function Balance(t: Tally): int {
    MAX_ATTEMPTS * t.enqueued + t.deadLettered - t.delivered
  }

  function CallTally<D>(s: State<D>, call: Call<D>, appended: bool, queue: string): Tally {
    var r := Execute(s, call, appended).response;
    Tally(DeliveredBy(call, r, queue), EnqueuedBy(call, r, queue), DeadLetteredBy(s, call, r, queue))
  }

  ghost predicate PaysFor<D>(memory: State<D>, recovered: State<D>, call: Call<D>, at: Readings, queue: string)
    requires PlanOf(memory, call).Commit?
  {
    WorthAll(recovered, EffectsOf(PlanOf(memory, call).entry, at), queue)
    == Balance(CallTally(memory, call, true, queue))
  }

  lemma BatchWorth<D>(
    memory: State<D>, recovered: State<D>, lost: set<string>, call: Call<D>, at: Readings, queue: string)
    requires Simulates(memory, recovered, lost) && PlanOf(memory, call).Commit?
    requires call.EnqueueBatch? || call.DequeueBatch? || call.AckBatch?
    ensures PaysFor(memory, recovered, call, at, queue)
  {
    match call {
      case EnqueueBatch(q, items) => ArrivalsWorth(recovered, q, items, queue);
      case DequeueBatch(q, count, draw, _) =>
        DeliveriesWorth(recovered, q, FirstDraws(BatchSize(memory, q, count), draw), at, queue);
      case AckBatch(ids) => SettlementsWorth(recovered, ids, queue);
    }
  }

  lemma SingleWorth<D>(
    memory: State<D>, recovered: State<D>, lost: set<string>, call: Call<D>, at: Readings, queue: string)
    requires Simulates(memory, recovered, lost) && PlanOf(memory, call).Commit?
    requires call.CreateQueue? || call.Enqueue? || call.Dequeue?
    ensures PaysFor(memory, recovered, call, at, queue)
  {
    match call {
      case CreateQueue(name) => OneWorth(recovered, Opened(name), queue);
      case Enqueue(q, data) => OneWorth(recovered, Arrived(q, data), queue);
      case Dequeue(q, id, _) => OneWorth(recovered, Delivered(q, id, at(0)), queue);
    }
  }

  lemma TaskWorth<D>(
    memory: State<D>, recovered: State<D>, lost: set<string>, call: Call<D>, at: Readings, queue: string)
    requires Simulates(memory, recovered, lost) && WellFormed(recovered) && PlanOf(memory, call).Commit?
    requires call.Ack? || call.Nack? || call.ExtendVisibility?
    ensures PaysFor(memory, recovered, call, at, queue)
  {
    match call {
      case Ack(id) => OneWorth(recovered, Settled(id), queue);
      case Nack(id) => OneWorth(recovered, Returned(id), queue);
      case ExtendVisibility(id, _, _) => OneWorth(recovered, Touched(id, at(0)), queue);
    }
  }

  lemma CommitWorth<D>(
    memory: State<D>, recovered: State<D>, lost: set<string>, call: Call<D>, at: Readings, queue: string)
    requires Simulates(memory, recovered, lost) && WellFormed(recovered)
    requires PlanOf(memory, call).Commit?
    ensures PaysFor(memory, recovered, call, at, queue)
  {
    match call {
      case EnqueueBatch(_, _) => BatchWorth(memory, recovered, lost, call, at, queue);
      case DequeueBatch(_, _, _, _) => BatchWorth(memory, recovered, lost, call, at, queue);
      case AckBatch(_) => BatchWorth(memory, recovered, lost, call, at, queue);
      case CreateQueue(_) => SingleWorth(memory, recovered, lost, call, at, queue);
      case Enqueue(_, _) => SingleWorth(memory, recovered, lost, call, at, queue);
      case Dequeue(_, _, _) => SingleWorth(memory, recovered, lost, call, at, queue);
      case _ => TaskWorth(memory, recovered, lost, call, at, queue);
    }
  }

  // An answer without a log entry delivers, enqueues and dead-letters nothing.
  lemma NothingWritten<D>(s: State<D>, call: Call<D>, appended: bool, queue: string)
    requires Execute(s, call, appended).written == []
    ensures CallTally(s, call, appended, queue) == Tally(0, 0, 0)
  {
  }

  lemma {:induction false} PotentialPaysForDeliveries<D>(events: seq<Event<D>>, queue: string, clock: ReplayClock)
    requires FreshIds(events) || NoAckFails(events)
    ensures Potential(ReplayLog(Run(events).log, clock), queue) <= Balance(TallyOf(events, queue))
  {
    if events != [] {
      var before, last := events[..|events| - 1], events[|events| - 1];
      assert forall e | e in before :: e in events;
      PotentialPaysForDeliveries(before, queue, clock);
      if last.Do? {
        var n := Run(before);
        var recovered := ReplayLog(n.log, clock);
        var o := Execute(n.memory, last.call, last.appended);
        if o.written == [] {
          NothingWritten(n.memory, last.call, last.appended, queue);
          assert n.log + [] == n.log;
        } else {
          RunRecoverable(before, clock);
          RunRecoverable(events, clock);
          var entry, at := o.written[0], clock(|n.log|);
          AcceptedLast(n.log, entry, clock);
          ReplayWellFormed(n.log, clock);
          CommitWorth(n.memory, recovered, LostAcks(before), last.call, at, queue);
          ReplayIsEffects(recovered, entry, at);
          EffectsPotential(recovered, EffectsOf(entry, at), queue);
        }
      }
    }
  }

  // Over any run, the successful deliveries from a queue number at most five times the
  // messages enqueued to it plus the messages dead-lettered into it.
  lemma DeliveriesBounded<D>(events: seq<Event<D>>, queue: string)
    requires FreshIds(events) || NoAckFails(events)
    ensures var t := TallyOf(events, queue);
            t.delivered <= 5 * t.enqueued + t.deadLettered
  {
    var clock: ReplayClock := (_: nat) => ((_: nat) => 0);
    var recovered := ReplayLog(Run(events).log, clock);
    PotentialPaysForDeliveries(events, queue, clock);
    TasksPotentialNonNegative(recovered.inFlight, queue);
  }
}
