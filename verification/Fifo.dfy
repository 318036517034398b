// The order of a queue: retries in front, then what has not been delivered yet, in the
// order of its arrival.

module Fifo {
  import opened QueueState
  import opened StorageCalls
  import opened Replay
  import opened Recovery

  predicate Retried<D>(item: QueueItem<D>) {
    1 <= item.attempts < MAX_ATTEMPTS
  }

  // What an elementary change adds to the back of a queue: a new message or a dead letter.
  function ArrivesBy<D>(s: State<D>, e: Effect<D>, queue: string): seq<QueueItem<D>> {
    match e
    case Arrived(q, data) => if q == queue && q in s.queues then [Fresh(data)] else []
    case Returned(id) =>
      if id in s.inFlight && s.inFlight[id].attempts >= MAX_ATTEMPTS && Destination(s.inFlight[id]) == queue
      then [Returning(s.inFlight[id])] else []
    case _ => []
  }

  // What it delivers from a queue that had not been delivered from it before.
  function FirstBy<D>(s: State<D>, e: Effect<D>, queue: string): seq<QueueItem<D>> {
    match e
    case Delivered(q, _, _) =>
      if q == queue && Contents(s, q) != [] && !Retried(s.queues[q][0]) then [s.queues[q][0]] else []
    case _ => []
  }

  function ArrivesAll<D>(s: State<D>, es: seq<Effect<D>>, queue: string): seq<QueueItem<D>> {
    if es == [] then []
    else
      var before, last := es[..|es| - 1], es[|es| - 1];
      ArrivesAll(s, before, queue) + ArrivesBy(ApplyAll(s, before), last, queue)
  }

  function FirstsAll<D>(s: State<D>, es: seq<Effect<D>>, queue: string): seq<QueueItem<D>> {
    if es == [] then []
    else
      var before, last := es[..|es| - 1], es[|es| - 1];
      FirstsAll(s, before, queue) + FirstBy(ApplyAll(s, before), last, queue)
  }

  // Everything that ever arrived at the back of a queue, and everything ever delivered from
  // it for the first time, in a history of changes.
  function ArrivalHistory<D>(es: seq<Effect<D>>, queue: string): seq<QueueItem<D>> {
    ArrivesAll(Empty(), es, queue)
  }

  function FirstDeliveries<D>(es: seq<Effect<D>>, queue: string): seq<QueueItem<D>> {
    FirstsAll(Empty(), es, queue)
  }

  lemma {:induction false} ArrivesConcat<D>(s: State<D>, a: seq<Effect<D>>, b: seq<Effect<D>>, queue: string)
    ensures ArrivesAll(s, a + b, queue) == ArrivesAll(s, a, queue) + ArrivesAll(ApplyAll(s, a), b, queue)
    decreases |b|
  {
    if b == [] {
      assert a + b == a;
    } else {
      var n := |b| - 1;
      assert (a + b)[..|a + b| - 1] == a + b[..n];
      ArrivesConcat(s, a, b[..n], queue);
      ApplyAllConcat(s, a, b[..n]);
    }
  }

  lemma {:induction false} FirstsConcat<D>(s: State<D>, a: seq<Effect<D>>, b: seq<Effect<D>>, queue: string)
    ensures FirstsAll(s, a + b, queue) == FirstsAll(s, a, queue) + FirstsAll(ApplyAll(s, a), b, queue)
    decreases |b|
  {
    if b == [] {
      assert a + b == a;
    } else {
      var n := |b| - 1;
      assert (a + b)[..|a + b| - 1] == a + b[..n];
      FirstsConcat(s, a, b[..n], queue);
      ApplyAllConcat(s, a, b[..n]);
    }
  }

  lemma OneHistory<D>(s: State<D>, e: Effect<D>, queue: string)
    ensures ArrivesAll(s, [e], queue) == ArrivesBy(s, e, queue)
    ensures FirstsAll(s, [e], queue) == FirstBy(s, e, queue)
  {
    assert [e][..0] == [];
  }

  lemma HistoryOneMore<D>(s: State<D>, es: seq<Effect<D>>, e: Effect<D>, queue: string)
    ensures ArrivesAll(s, es + [e], queue) == ArrivesAll(s, es, queue) + ArrivesBy(ApplyAll(s, es), e, queue)
    ensures FirstsAll(s, es + [e], queue) == FirstsAll(s, es, queue) + FirstBy(ApplyAll(s, es), e, queue)
  {
    assert (es + [e])[..|es|] == es;
  }

  // The first deliveries are a prefix of the arrivals; the queue is some retries followed
  // by exactly the rest of the arrivals, none of which is a retry.
  ghost predicate InOrder<D>(items: seq<QueueItem<D>>, arrivals: seq<QueueItem<D>>, firsts: seq<QueueItem<D>>) {
    && firsts <= arrivals
    && (forall i | 0 <= i < |arrivals| :: !Retried(arrivals[i]))
    && |arrivals| - |firsts| <= |items|
    && var retries := |items| - (|arrivals| - |firsts|);
       && items[retries..] == arrivals[|firsts|..]
       && forall i | 0 <= i < retries :: Retried(items[i])
  }

  lemma DeliveryInOrder<D>(items: seq<QueueItem<D>>, arrivals: seq<QueueItem<D>>, firsts: seq<QueueItem<D>>)
    requires InOrder(items, arrivals, firsts) && items != []
    ensures InOrder(items[1..], arrivals, if Retried(items[0]) then firsts else firsts + [items[0]])
  {
    var retries := |items| - (|arrivals| - |firsts|);
    if retries == 0 {
      assert items[0] == items[retries..][0] == arrivals[|firsts|];
      assert arrivals[..|firsts| + 1] == firsts + [items[0]];
      assert items[1..] == arrivals[|firsts| + 1..];
    } else {
      assert items[1..][retries - 1..] == items[retries..];
    }
  }

  lemma ArrivalInOrder<D>(
    items: seq<QueueItem<D>>, arrivals: seq<QueueItem<D>>, firsts: seq<QueueItem<D>>, item: QueueItem<D>)
    requires InOrder(items, arrivals, firsts) && !Retried(item)
    ensures InOrder(items + [item], arrivals + [item], firsts)
  {
    var retries := |items| - (|arrivals| - |firsts|);
    assert (items + [item])[retries..] == items[retries..] + [item];
    assert (arrivals + [item])[|firsts|..] == arrivals[|firsts|..] + [item];
  }

  lemma RetryInOrder<D>(
    items: seq<QueueItem<D>>, arrivals: seq<QueueItem<D>>, firsts: seq<QueueItem<D>>, item: QueueItem<D>)
    requires InOrder(items, arrivals, firsts) && Retried(item)
    ensures InOrder([item] + items, arrivals, firsts)
  {
    var retries := |items| - (|arrivals| - |firsts|);
    assert ([item] + items)[retries + 1..] == items[retries..];
  }

  lemma StepInOrder<D>(s: State<D>, e: Effect<D>, queue: string, arrivals: seq<QueueItem<D>>, firsts: seq<QueueItem<D>>)
    requires WellFormed(s) && InOrder(Contents(s, queue), arrivals, firsts)
    ensures InOrder(Contents(Apply(s, e), queue),
                    arrivals + ArrivesBy(s, e, queue), firsts + FirstBy(s, e, queue))
  {
    assert arrivals + [] == arrivals && firsts + [] == firsts;
    var items := Contents(s, queue);
    match e {
      case Arrived(q, data) =>
        if q == queue && q in s.queues {
          ArrivalInOrder(items, arrivals, firsts, Fresh(data));
        }
      case Delivered(q, _, _) =>
        if q == queue && items != [] {
          DeliveryInOrder(items, arrivals, firsts);
        }
      case Returned(id) =>
        if id in s.inFlight && Destination(s.inFlight[id]) == queue {
          var item := Returning(s.inFlight[id]);
          if Retried(item) {
            RetryInOrder(items, arrivals, firsts, item);
          } else {
            ArrivalInOrder(items, arrivals, firsts, item);
          }
        }
      case _ =>
    }
  }

  lemma {:induction false} EffectsInOrder<D>(es: seq<Effect<D>>, queue: string)
    ensures InOrder(Contents(ApplyAll(Empty(), es), queue), ArrivalHistory(es, queue), FirstDeliveries(es, queue))
  {
    if es != [] {
      var before, last := es[..|es| - 1], es[|es| - 1];
      EffectsInOrder(before, queue);
      ApplyAllKeepsWellFormed(Empty(), before);
      StepInOrder(ApplyAll(Empty(), before), last, queue,
                  ArrivalHistory(before, queue), FirstDeliveries(before, queue));
    }
  }

  // ----- The same history, from what the calls of a run are given and answer -----

  // The item a delivered task was before its delivery.
  function BeforeDelivery<D>(task: InFlightTask<D>): QueueItem<D> {
    QueueItem(task.data, if task.attempts == 0 then 0 else task.attempts - 1)
  }

  function FirstsOf<D>(tasks: seq<InFlightTask<D>>): seq<QueueItem<D>> {
    if tasks == [] then []
    else
      var item := BeforeDelivery(tasks[|tasks| - 1]);
      FirstsOf(tasks[..|tasks| - 1]) + if Retried(item) then [] else [item]
  }

  function ArrivedIn<D>(s: State<D>, call: Call<D>, r: Response<D>, queue: string): seq<QueueItem<D>> {
    match call
    case Enqueue(q, data) => if q == queue && r == Done then [Fresh(data)] else []
    case EnqueueBatch(q, items) => if q == queue && r == Done then FreshAll(items) else []
    case Nack(id) =>
      if r == Done && id in s.inFlight && s.inFlight[id].attempts >= MAX_ATTEMPTS
         && Destination(s.inFlight[id]) == queue
      then [Returning(s.inFlight[id])] else []
    case _ => []
  }

  function FirstIn<D>(call: Call<D>, r: Response<D>, queue: string): seq<QueueItem<D>> {
    match call
    case Dequeue(q, _, _) => if q == queue && r.OneTask? && r.task.Some? then FirstsOf([r.task.value]) else []
    case DequeueBatch(q, _, _, _) => if q == queue && r.ManyTasks? then FirstsOf(r.tasks) else []
    case _ => []
  }

  // Messages whose enqueue to this queue was answered Ok and dead letters whose nack was,
  // in the order of the answers.
  function RunArrivals<D>(events: seq<Event<D>>, queue: string): seq<QueueItem<D>> {
    if events == [] then []
    else
      var before, last := events[..|events| - 1], events[|events| - 1];
      RunArrivals(before, queue) +
      match last
      case Restart(_) => []
      case Do(call, appended) =>
        ArrivedIn(Run(before).memory, call, Execute(Run(before).memory, call, appended).response, queue)
  }

  // Messages that calls handed out from this queue, other than retries, in that order.
  function RunFirsts<D>(events: seq<Event<D>>, queue: string): seq<QueueItem<D>> {
    if events == [] then []
    else
      var before, last := events[..|events| - 1], events[|events| - 1];
      RunFirsts(before, queue) +
      match last
      case Restart(_) => []
      case Do(call, appended) => FirstIn(call, Execute(Run(before).memory, call, appended).response, queue)
  }

  lemma OneArrival<D>(s: State<D>, es: seq<Effect<D>>, q: string, data: D, queue: string, longer: seq<Effect<D>>)
    requires longer == es + [Arrived(q, data)] && q in ApplyAll(s, es).queues
    ensures ArrivesAll(s, longer, queue) == ArrivesAll(s, es, queue) + if q == queue then [Fresh(data)] else []
    ensures FirstsAll(s, longer, queue) == FirstsAll(s, es, queue)
  {
    HistoryOneMore(s, es, Arrived(q, data), queue);
  }

  lemma OneDelivery<D>(s: State<D>, es: seq<Effect<D>>, q: string, id: string, at: int, queue: string,
                       item: QueueItem<D>, longer: seq<Effect<D>>)
    requires longer == es + [Delivered(q, id, at)]
    requires Contents(ApplyAll(s, es), q) != [] && ApplyAll(s, es).queues[q][0] == item
    ensures ArrivesAll(s, longer, queue) == ArrivesAll(s, es, queue)
    ensures FirstsAll(s, longer, queue)
         == FirstsAll(s, es, queue) + if q == queue && !Retried(item) then [item] else []
  {
    HistoryOneMore(s, es, Delivered(q, id, at), queue);
  }

  // The effects of a batch but for its last one, and the state they leave.
  lemma LastArrival<D>(s: State<D>, q: string, items: seq<D>)
    requires q in s.queues && items != []
    ensures var before := Arrivals(q, items[..|items| - 1]);
            && Arrivals(q, items) == before + [Arrived(q, items[|items| - 1])]
            && q in ApplyAll(s, before).queues
    ensures FreshAll(items) == FreshAll(items[..|items| - 1]) + [Fresh(items[|items| - 1])]
  {
    ArrivalsAppend(s, q, items[..|items| - 1]);
  }

  lemma LastDelivery<D>(s: State<D>, q: string, ids: seq<string>, at: Readings)
    requires q in s.queues && 0 < |ids| <= |s.queues[q]|
    ensures var n := |ids| - 1;
            var before := Deliveries<D>(q, ids[..n], at);
            && Deliveries(q, ids, at) == before + [Delivered(q, ids[n], at(n))]
            && Contents(ApplyAll(s, before), q) != [] && ApplyAll(s, before).queues[q][0] == s.queues[q][n]
  {
    DeliveriesTake(s, q, ids[..|ids| - 1], at);
  }

  lemma {:induction false} ArrivalsHistory<D>(s: State<D>, q: string, items: seq<D>, queue: string)
    requires q in s.queues
    ensures ArrivesAll(s, Arrivals(q, items), queue) == if q == queue then FreshAll(items) else []
    ensures FirstsAll(s, Arrivals(q, items), queue) == []
    decreases |items|
  {
    if items != [] {
      var before := items[..|items| - 1];
      ArrivalsHistory(s, q, before, queue);
      LastArrival(s, q, items);
      OneArrival(s, Arrivals(q, before), q, items[|items| - 1], queue, Arrivals(q, items));
    }
  }

  lemma {:induction false} DeliveriesHistory<D>(s: State<D>, q: string, ids: seq<string>, at: Readings,
                                                tasks: seq<InFlightTask<D>>, queue: string)
    requires q in s.queues && |ids| <= |s.queues[q]| && |tasks| == |ids|
    requires forall i | 0 <= i < |ids| :: BeforeDelivery(tasks[i]) == s.queues[q][i]
    ensures ArrivesAll(s, Deliveries(q, ids, at), queue) == []
    ensures FirstsAll(s, Deliveries(q, ids, at), queue) == if q == queue then FirstsOf(tasks) else []
    decreases |ids|
  {
    if ids != [] {
      var n := |ids| - 1;
      DeliveriesHistory(s, q, ids[..n], at, tasks[..n], queue);
      LastDelivery(s, q, ids, at);
      OneDelivery(s, Deliveries(q, ids[..n], at), q, ids[n], at(n), queue, s.queues[q][n], Deliveries(q, ids, at));
    }
  }

  lemma {:induction false} SettlementsHistory<D>(s: State<D>, ids: seq<string>, queue: string)
    ensures ArrivesAll(s, Settlements(ids), queue) == [] && FirstsAll(s, Settlements(ids), queue) == []
    decreases |ids|
  {
    if ids != [] {
      SettlementsHistory(s, ids[..|ids| - 1], queue);
      assert Settlements<D>(ids)[..|ids| - 1] == Settlements(ids[..|ids| - 1]);
    }
  }

  // The answer of a committed call tells what its entry makes arrive and deliver.
  ghost predicate Tells<D>(memory: State<D>, recovered: State<D>, call: Call<D>, at: Readings, queue: string)
    requires PlanOf(memory, call).Commit?
  {
    var es, r := EffectsOf(PlanOf(memory, call).entry, at), Execute(memory, call, true).response;
    ArrivesAll(recovered, es, queue) == ArrivedIn(memory, call, r, queue) &&
    FirstsAll(recovered, es, queue) == FirstIn(call, r, queue)
  }

  lemma PlannedArrivals<D>(s: State<D>, call: Call<D>, at: Readings)
    requires call.EnqueueBatch? && PlanOf(s, call).Commit?
    ensures call.queue in s.queues && EffectsOf(PlanOf(s, call).entry, at) == Arrivals(call.queue, call.items)
    ensures Execute(s, call, true).response == Done
  {
  }

  lemma EnqueueBatchTells<D>(
    memory: State<D>, recovered: State<D>, lost: set<string>, call: Call<D>, at: Readings, queue: string)
    requires Simulates(memory, recovered, lost) && PlanOf(memory, call).Commit?
    requires call.EnqueueBatch?
    ensures Tells(memory, recovered, call, at, queue)
  {
    PlannedArrivals(memory, call, at);
    ArrivalsHistory(recovered, call.queue, call.items, queue);
  }

  lemma AckBatchTells<D>(memory: State<D>, recovered: State<D>, call: Call<D>, at: Readings, queue: string)
    requires PlanOf(memory, call).Commit? && call.AckBatch?
    ensures Tells(memory, recovered, call, at, queue)
  {
    SettlementsHistory(recovered, call.ids, queue);
  }

  lemma LentHistory<D>(s: State<D>, q: string, ids: seq<string>, at: Readings, now: Readings, queue: string)
    requires q in s.queues && |ids| <= |s.queues[q]|
    ensures ArrivesAll(s, Deliveries(q, ids, at), queue) == []
    ensures var tasks := LentAll(s.queues[q][..|ids|], q, ids, now);
            FirstsAll(s, Deliveries(q, ids, at), queue) == if q == queue then FirstsOf(tasks) else []
  {
    var tasks := LentAll(s.queues[q][..|ids|], q, ids, now);
    forall i | 0 <= i < |ids| ensures BeforeDelivery(tasks[i]) == s.queues[q][i] {
    }
    DeliveriesHistory(s, q, ids, at, tasks, queue);
  }

  lemma PlannedBatch<D>(s: State<D>, call: Call<D>)
    requires call.DequeueBatch? && PlanOf(s, call).Commit?
    ensures var ids := Drawn(s, call);
            && call.queue in s.queues && |ids| <= |s.queues[call.queue]|
            && PlanOf(s, call).entry == WalOp.DequeuedBatch(call.queue, ids)
            && Execute(s, call, true).response
               == ManyTasks(LentAll(s.queues[call.queue][..|ids|], call.queue, ids, call.at))
  {
  }

  lemma DequeueBatchTells<D>(
    memory: State<D>, recovered: State<D>, lost: set<string>, call: Call<D>, at: Readings, queue: string)
    requires Simulates(memory, recovered, lost) && PlanOf(memory, call).Commit?
    requires call.DequeueBatch?
    ensures Tells(memory, recovered, call, at, queue)
  {
    PlannedBatch(memory, call);
    LentHistory(recovered, call.queue, Drawn(memory, call), at, call.at, queue);
  }

  lemma SingleTells<D>(
    memory: State<D>, recovered: State<D>, lost: set<string>, call: Call<D>, at: Readings, queue: string)
    requires Simulates(memory, recovered, lost) && PlanOf(memory, call).Commit?
    requires call.CreateQueue? || call.Enqueue? || call.Ack? || call.ExtendVisibility?
    ensures Tells(memory, recovered, call, at, queue)
  {
    OneHistory(recovered, EffectsOf(PlanOf(memory, call).entry, at)[0], queue);
  }

  lemma OneFirst<D>(task: InFlightTask<D>)
    ensures FirstsOf([task]) == if Retried(BeforeDelivery(task)) then [] else [BeforeDelivery(task)]
  {
    assert [task][..0] == [];
  }

  lemma DequeueTells<D>(
    memory: State<D>, recovered: State<D>, lost: set<string>, call: Call<D>, at: Readings, queue: string)
    requires Simulates(memory, recovered, lost) && PlanOf(memory, call).Commit?
    requires call.Dequeue?
    ensures Tells(memory, recovered, call, at, queue)
  {
    OneHistory(recovered, Delivered(call.queue, call.id, at(0)), queue);
    var task := Lent(memory.queues[call.queue][0], call.queue, call.id, call.now);
    OneFirst(task);
    assert BeforeDelivery(task) == memory.queues[call.queue][0];
  }

  lemma NackTells<D>(
    memory: State<D>, recovered: State<D>, lost: set<string>, call: Call<D>, at: Readings, queue: string)
    requires Simulates(memory, recovered, lost) && WellFormed(recovered) && PlanOf(memory, call).Commit?
    requires call.Nack?
    ensures Tells(memory, recovered, call, at, queue)
  {
    OneHistory(recovered, Returned(call.id), queue);
    assert WellFormedTask(recovered, call.id, recovered.inFlight[call.id]);
  }

  lemma CommitTells<D>(
    memory: State<D>, recovered: State<D>, lost: set<string>, call: Call<D>, at: Readings, queue: string)
    requires Simulates(memory, recovered, lost) && WellFormed(recovered) && PlanOf(memory, call).Commit?
    ensures Tells(memory, recovered, call, at, queue)
  {
    match call {
      case EnqueueBatch(_, _) => EnqueueBatchTells(memory, recovered, lost, call, at, queue);
      case AckBatch(_) => AckBatchTells(memory, recovered, call, at, queue);
      case DequeueBatch(_, _, _, _) => DequeueBatchTells(memory, recovered, lost, call, at, queue);
      case Dequeue(_, _, _) => DequeueTells(memory, recovered, lost, call, at, queue);
      case Nack(_) => NackTells(memory, recovered, lost, call, at, queue);
      case _ => SingleTells(memory, recovered, lost, call, at, queue);
    }
  }

  lemma NothingTold<D>(s: State<D>, call: Call<D>, appended: bool, queue: string)
    requires Execute(s, call, appended).written == []
    ensures var r := Execute(s, call, appended).response;
            ArrivedIn(s, call, r, queue) == [] && FirstIn(call, r, queue) == []
  {
  }

  // The log of a run and the answers of its calls tell the same history of every queue.
  lemma {:induction false} AnswersTellHistory<D>(events: seq<Event<D>>, clock: ReplayClock, queue: string)
    requires FreshIds(events) || NoAckFails(events)
    ensures RunArrivals(events, queue) == ArrivalHistory(Journal(Run(events).log, clock), queue)
    ensures RunFirsts(events, queue) == FirstDeliveries(Journal(Run(events).log, clock), queue)
    decreases |events|
  {
    if events != [] {
      var before, last := events[..|events| - 1], events[|events| - 1];
      assert forall e | e in before :: e in events;
      AnswersTellHistory(before, clock, queue);
      if last.Do? {
        var n := Run(before);
        var o := Execute(n.memory, last.call, last.appended);
        if o.written == [] {
          NothingTold(n.memory, last.call, last.appended, queue);
          assert n.log + [] == n.log;
        } else {
          EntryTells(before, last.call, clock, queue);
        }
      }
    }
  }

  lemma EntryTells<D>(before: seq<Event<D>>, call: Call<D>, clock: ReplayClock, queue: string)
    requires FreshIds(before) || NoAckFails(before)
    requires PlanOf(Run(before).memory, call).Commit?
    ensures var n := Run(before);
            var plan := PlanOf(n.memory, call);
            var history, longer := Journal(n.log, clock), Journal(n.log + [plan.entry], clock);
            && ArrivalHistory(longer, queue)
               == ArrivalHistory(history, queue) + ArrivedIn(n.memory, call, plan.response, queue)
            && FirstDeliveries(longer, queue) == FirstDeliveries(history, queue) + FirstIn(call, plan.response, queue)
  {
    var n := Run(before);
    var entry, history := PlanOf(n.memory, call).entry, Journal(n.log, clock);
    RunRecoverable(before, clock);
    ReplayIsJournal(n.log, clock);
    ReplayWellFormed(n.log, clock);
    CommitTells(n.memory, ReplayLog(n.log, clock), LostAcks(before), call, clock(|n.log|), queue);
    ArrivesConcat(Empty(), history, EffectsOf(entry, clock(|n.log|)), queue);
    FirstsConcat(Empty(), history, EffectsOf(entry, clock(|n.log|)), queue);
    assert (n.log + [entry])[..|n.log|] == n.log;
  }

  // In every run, with failing appends and restarts, first deliveries from a queue follow
  // the order of arrival, and the queue holds retries in front of what was not delivered.
  lemma FifoUnderRetries<D>(events: seq<Event<D>>, queue: string)
    requires FreshIds(events) || NoAckFails(events)
    ensures InOrder(Contents(Run(events).memory, queue), RunArrivals(events, queue), RunFirsts(events, queue))
  {
    var log := Run(events).log;
    var clock: ReplayClock := (_: nat) => ((_: nat) => 0);
    RunRecoverable(events, clock);
    ReplayIsJournal(log, clock);
    EffectsInOrder(Journal(log, clock), queue);
    AnswersTellHistory(events, clock, queue);
  }
}
