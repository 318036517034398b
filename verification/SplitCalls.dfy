// The two halves of a call, one right after the other, are the call.

module SplitCalls {
  import opened QueueState
  import opened StorageCalls
  import opened Replay
  import opened Recovery
  import opened Interleaving

  // How call number c begins.
  function BeginOf<D>(s: State<D>, c: nat, call: Call<D>): Step<D>
    requires !call.ExtendVisibility?
  {
    match call
    case CreateQueue(name) => BeginCreate(c, name)
    case Enqueue(queue, data) => BeginEnqueue(c, queue, [data])
    case EnqueueBatch(queue, items) => BeginEnqueue(c, queue, items)
    case Dequeue(queue, _, _) => BeginDequeue(c, queue, Drawn(s, call))
    case DequeueBatch(queue, _, _, _) => BeginDequeue(c, queue, Drawn(s, call))
    case Ack(id) => BeginAck(c, id)
    case Nack(id) => BeginNack(c, id)
    case AckBatch(ids) => BeginAckBatch(c, ids)
  }

  // The clock as the call reads it.
  ghost predicate ReadsClock<D>(call: Call<D>, at: nat -> int) {
    match call
    case Dequeue(_, _, now) => at(0) == now
    case DequeueBatch(_, _, _, readings) => at == readings
    case _ => true
  }

  // Beginning and finishing without anything in between.
  function Whole<D>(w: World<D>, c: nat, call: Call<D>, appended: bool, at: nat -> int): World<D>
    requires !call.ExtendVisibility?
  {
    Next(Next(w, BeginOf(w.memory, c, call)), Finish(c, appended, at))
  }

  // The ids for which an ack or nack answers Ok, and those delivered.
  function OkaysOf<D>(call: Call<D>, r: Response<D>): seq<string> {
    match call
    case Ack(id) => if r == Done then [id] else []
    case Nack(id) => if r == Done then [id] else []
    case _ => []
  }

  function TaskIds<D>(tasks: seq<InFlightTask<D>>): set<string> {
    set i | 0 <= i < |tasks| :: tasks[i].id
  }

  function IdsHandedOut<D>(r: Response<D>): set<string> {
    match r
    case OneTask(Some(task)) => {task.id}
    case ManyTasks(tasks) => TaskIds(tasks)
    case _ => {}
  }

  ghost predicate IsExecute<D>(w: World<D>, c: nat, call: Call<D>, appended: bool, at: nat -> int)
    requires !call.ExtendVisibility?
  {
    var o, whole := Execute(w.memory, call, appended), Whole(w, c, call, appended, at);
    && whole.memory == o.state && whole.calls == w.calls
    && whole.okays == w.okays + OkaysOf(call, o.response)
    && whole.delivered == w.delivered + IdsHandedOut(o.response)
    && (c in Next(w, BeginOf(w.memory, c, call)).calls <==> PlanOf(w.memory, call).Commit?)
  }

  // A call that waits finishes with what it holds.
  lemma FinishesHand<D>(w: World<D>, c: nat, hand: Hand<D>, appended: bool, at: nat -> int)
    requires c !in w.calls
    ensures Next(Begin(w, c, hand), Finish(c, appended, at)) == FinishHand(w, hand, appended, at)
  {
    assert w.calls[c := hand] - {c} == w.calls;
  }

  lemma CreateWhole<D>(w: World<D>, c: nat, call: Call<D>, appended: bool, at: nat -> int)
    requires c !in w.calls && call.CreateQueue?
    ensures IsExecute(w, c, call, appended, at)
  {
    FinishesHand(w, c, Creating(call.name), appended, at);
  }

  lemma EnqueueWhole<D>(w: World<D>, c: nat, call: Call<D>, appended: bool, at: nat -> int)
    requires c !in w.calls && call.Enqueue?
    ensures IsExecute(w, c, call, appended, at)
  {
    FinishesHand(w, c, Enqueuing(call.queue, [call.data]), appended, at);
    assert FreshAll([call.data]) == [Fresh(call.data)];
  }

  lemma EnqueueBatchWhole<D>(w: World<D>, c: nat, call: Call<D>, appended: bool, at: nat -> int)
    requires c !in w.calls && call.EnqueueBatch?
    ensures IsExecute(w, c, call, appended, at)
  {
    FinishesHand(w, c, Enqueuing(call.queue, call.items), appended, at);
  }

  lemma AckWhole<D>(w: World<D>, c: nat, call: Call<D>, appended: bool, at: nat -> int)
    requires c !in w.calls && Exclusive(w) && call.Ack?
    ensures IsExecute(w, c, call, appended, at)
  {
    if call.id in w.memory.inFlight {
      FinishesHand(w.(memory := Without(w.memory, {call.id})), c, Acking(w.memory.inFlight[call.id]), appended, at);
    }
  }

  lemma NackWhole<D>(w: World<D>, c: nat, call: Call<D>, appended: bool, at: nat -> int)
    requires c !in w.calls && Exclusive(w) && call.Nack?
    ensures IsExecute(w, c, call, appended, at)
  {
    if call.id in w.memory.inFlight {
      var task := w.memory.inFlight[call.id];
      FinishesHand(w.(memory := Without(w.memory, {call.id})), c, Nacking(task), appended, at);
      assert (w.memory.inFlight - {call.id})[call.id := task] == w.memory.inFlight;
    }
  }

  lemma {:induction false} CloseAllRemoves<D>(w: World<D>, ids: seq<string>)
    ensures var closed := CloseAll(w, ids);
            && closed.memory == Without(w.memory, IdSet(ids)) && closed.calls == w.calls
            && closed.okays == w.okays && closed.delivered == w.delivered
    decreases |ids|
  {
    if ids == [] {
      assert IdSet(ids) == {};
    } else {
      var n := |ids| - 1;
      CloseAllRemoves(w, ids[..n]);
      assert ids == ids[..n] + [ids[n]];
      assert IdSet(ids) == IdSet(ids[..n]) + {ids[n]};
    }
  }

  lemma AckBatchWhole<D>(w: World<D>, c: nat, call: Call<D>, appended: bool, at: nat -> int)
    requires c !in w.calls && call.AckBatch?
    ensures IsExecute(w, c, call, appended, at)
  {
    FinishesHand(w, c, BatchAcking(call.ids), appended, at);
    CloseAllRemoves(w, call.ids);
  }

  lemma TaskIdsLent<D>(items: seq<QueueItem<D>>, queue: string, ids: seq<string>, at: nat -> int)
    requires |ids| == |items|
    ensures TaskIds(LentAll(items, queue, ids, at)) == IdSet(ids)
  {
    var tasks := LentAll(items, queue, ids, at);
    forall id | id in ids ensures id in TaskIds(tasks) {
      var i :| 0 <= i < |ids| && ids[i] == id;
      assert tasks[i].id == id;
    }
  }

  // A waiting dequeue delivers what it popped, or puts it back.
  lemma DequeuedWhole<D>(w: World<D>, c: nat, queue: string, ids: seq<string>, appended: bool, at: nat -> int)
    requires c !in w.calls && queue in w.memory.queues && 0 < |ids| <= |w.memory.queues[queue]|
    ensures var s, whole := w.memory, Next(Next(w, BeginDequeue(c, queue, ids)), Finish(c, appended, at));
            && c in Next(w, BeginDequeue(c, queue, ids)).calls
            && whole.memory == (if appended then Take(s, queue, ids, at) else s)
            && whole.calls == w.calls && whole.okays == w.okays
            && whole.delivered == w.delivered + if appended then IdSet(ids) else {}
  {
    var s, items := w.memory, w.memory.queues[queue];
    var popped := w.(memory := SetQueue(s, queue, items[|ids|..]), drawn := w.drawn + IdSet(ids));
    FinishesHand(popped, c, Dequeuing(queue, items[..|ids|], ids), appended, at);
    assert items[..|ids|] + items[|ids|..] == items;
    assert s.queues[queue := items[|ids|..]][queue := items] == s.queues;
  }

  lemma DequeueWhole<D>(w: World<D>, c: nat, call: Call<D>, appended: bool, at: nat -> int)
    requires c !in w.calls && call.Dequeue? && ReadsClock(call, at)
    ensures IsExecute(w, c, call, appended, at)
  {
    var queue, id, s := call.queue, call.id, w.memory;
    if Contents(s, queue) != [] {
      DequeuedWhole(w, c, queue, [id], appended, at);
      TakeOne(s, queue, id, at);
      assert IdSet([id]) == {id};
    }
  }

  lemma DequeueBatchWhole<D>(w: World<D>, c: nat, call: Call<D>, appended: bool, at: nat -> int)
    requires c !in w.calls && call.DequeueBatch? && ReadsClock(call, at)
    ensures IsExecute(w, c, call, appended, at)
  {
    var queue, s, ids := call.queue, w.memory, Drawn(w.memory, call);
    if ids != [] {
      DequeuedWhole(w, c, queue, ids, appended, at);
      TaskIdsLent(s.queues[queue][..|ids|], queue, ids, at);
    } else {
      assert TaskIds<D>([]) == {};
    }
  }

  // Nothing in between, a call that begins and finishes leaves the state, and gives the
  // Ok answers and deliveries, of the call as a whole; it waits if and only if it logs.
  lemma SplitCallIsExecute<D>(w: World<D>, c: nat, call: Call<D>, appended: bool, at: nat -> int)
    requires c !in w.calls && Exclusive(w) && !call.ExtendVisibility? && ReadsClock(call, at)
    ensures IsExecute(w, c, call, appended, at)
  {
    match call {
      case Ack(_) => AckWhole(w, c, call, appended, at);
      case Nack(_) => NackWhole(w, c, call, appended, at);
      case AckBatch(_) => AckBatchWhole(w, c, call, appended, at);
      case Dequeue(_, _, _) => DequeueWhole(w, c, call, appended, at);
      case DequeueBatch(_, _, _, _) => DequeueBatchWhole(w, c, call, appended, at);
      case CreateQueue(_) => CreateWhole(w, c, call, appended, at);
      case Enqueue(_, _) => EnqueueWhole(w, c, call, appended, at);
      case EnqueueBatch(_, _) => EnqueueBatchWhole(w, c, call, appended, at);
    }
  }

  // A heartbeat is one step.
  lemma HeartbeatIsExecute<D>(w: World<D>, id: string, duration: nat, now: int)
    ensures var after := Next(w, Heartbeat(id, now));
            && after.memory == Execute(w.memory, Call.ExtendVisibility(id, duration, now), true).state
            && after == w.(memory := after.memory)
  {
  }
}
