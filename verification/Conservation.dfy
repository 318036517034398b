// Every message accepted is pending, in flight or acknowledged: none is lost and none is
// duplicated, over whole runs.

module Conservation {
  import opened QueueState
  import opened StorageCalls
  import opened Replay
  import opened Recovery
  import opened Totals

  // ----- How many messages of a kind a state holds -----

  // The copies of one message, and all messages.
  ghost function Only<D>(x: D): D -> bool {
    (data: D) => data == x
  }

  ghost function Any<D>(): D -> bool {
    (data: D) => true
  }

  ghost function Copies<D>(items: seq<QueueItem<D>>, p: D -> bool): nat {
    if items == [] then 0 else (if p(items[0].data) then 1 else 0) + Copies(items[1..], p)
  }

  ghost function InQueue<D>(p: D -> bool): seq<QueueItem<D>> -> int {
    (items: seq<QueueItem<D>>) => Copies(items, p)
  }

  ghost function InTask<D>(p: D -> bool): InFlightTask<D> -> int {
    (t: InFlightTask<D>) => if p(t.data) then 1 else 0
  }

  ghost function Pending<D>(s: State<D>, p: D -> bool): int {
    Total(s.queues, InQueue(p))
  }

  ghost function Flying<D>(tasks: map<string, InFlightTask<D>>, p: D -> bool): int {
    Total(tasks, InTask(p))
  }

  ghost function Held<D>(s: State<D>, p: D -> bool): int {
    Pending(s, p) + Flying(s.inFlight, p)
  }

  lemma {:induction false} CopiesAppend<D>(a: seq<QueueItem<D>>, b: seq<QueueItem<D>>, p: D -> bool)
    ensures Copies(a + b, p) == Copies(a, p) + Copies(b, p)
  {
    if a == [] {
      assert a + b == b;
    } else {
      assert (a + b)[1..] == a[1..] + b;
      CopiesAppend(a[1..], b, p);
    }
  }

  lemma SetQueuePending<D>(s: State<D>, queue: string, items: seq<QueueItem<D>>, p: D -> bool)
    ensures Pending(SetQueue(s, queue, items), p) == Pending(s, p) + Copies(items, p) - Copies(Contents(s, queue), p)
  {
    TotalUpdate(s.queues, queue, items, InQueue(p));
  }

  lemma TakeOutFlying<D>(s: State<D>, id: string, p: D -> bool)
    requires id in s.inFlight
    ensures Flying(s.inFlight - {id}, p) == Flying(s.inFlight, p) - InTask(p)(s.inFlight[id])
  {
    TotalRemove(s.inFlight, id, InTask(p));
  }

  // ----- Elementary changes -----

  // Arrivals of messages that satisfy p, minus settlements of such.
  ghost function NetGain<D>(s: State<D>, e: Effect<D>, p: D -> bool): int {
    match e
    case Arrived(q, data) => if q in s.queues && p(data) then 1 else 0
    case Settled(id) => if id in s.inFlight && p(s.inFlight[id].data) then -1 else 0
    case _ => 0
  }

  // No delivery reuses the id of a task in flight, and no nack misses its queue.
  ghost predicate Careful<D>(s: State<D>, e: Effect<D>) {
    && (e.Delivered? ==> e.id !in s.inFlight)
    && (e.Returned? && e.id in s.inFlight ==> HasDestination(s, s.inFlight[e.id]))
  }

  lemma StepConserves<D>(s: State<D>, e: Effect<D>, p: D -> bool)
    requires Careful(s, e)
    ensures Held(Apply(s, e), p) == Held(s, p) + NetGain(s, e, p)
  {
    if Enabled(s, e) {
      match e {
        case Opened(q) => SetQueuePending(s, q, [], p);
        case Arrived(q, data) =>
          SetQueuePending(s, q, s.queues[q] + [Fresh(data)], p);
          CopiesAppend(s.queues[q], [Fresh(data)], p);
        case Delivered(q, id, at) =>
          SetQueuePending(s, q, s.queues[q][1..], p);
          TotalUpdate(s.inFlight, id, Lent(s.queues[q][0], q, id, at), InTask(p));
        case Settled(id) => TakeOutFlying(s, id, p);
        case Returned(id) => ReturnConserves(s, id, p);
        case Touched(id, at) =>
          TotalUpdate(s.inFlight, id, s.inFlight[id].(consumedAt := at), InTask(p));
      }
    }
  }

  lemma ReturnConserves<D>(s: State<D>, id: string, p: D -> bool)
    requires id in s.inFlight && HasDestination(s, s.inFlight[id])
    ensures Held(Apply(s, Returned(id)), p) == Held(s, p)
  {
    var task := s.inFlight[id];
    var item, items := Returning(task), Contents(s, Destination(task));
    TakeOutFlying(s, id, p);
    if task.attempts >= MAX_ATTEMPTS {
      SetQueuePending(s, Destination(task), items + [item], p);
      CopiesAppend(items, [item], p);
    } else {
      SetQueuePending(s, Destination(task), [item] + items, p);
      CopiesAppend([item], items, p);
    }
  }

  // ----- Lists of changes -----

  ghost function NetGainAll<D>(s: State<D>, es: seq<Effect<D>>, p: D -> bool): int {
    if es == [] then 0
    else
      var before, last := es[..|es| - 1], es[|es| - 1];
      NetGainAll(s, before, p) + NetGain(ApplyAll(s, before), last, p)
  }

  ghost predicate CarefulAll<D>(s: State<D>, es: seq<Effect<D>>) {
    forall i | 0 <= i < |es| :: Careful(ApplyAll(s, es[..i]), es[i])
  }

  lemma {:induction false} EffectsConserve<D>(s: State<D>, es: seq<Effect<D>>, p: D -> bool)
    requires CarefulAll(s, es)
    ensures Held(ApplyAll(s, es), p) == Held(s, p) + NetGainAll(s, es, p)
  {
    if es != [] {
      var n := |es| - 1;
      assert forall i | 0 <= i < n :: es[..n][..i] == es[..i];
      EffectsConserve(s, es[..n], p);
      StepConserves(ApplyAll(s, es[..n]), es[n], p);
    }
  }

  ghost function CountOf<D>(items: seq<D>, p: D -> bool): nat {
    if items == [] then 0
    else CountOf(items[..|items| - 1], p) + if p(items[|items| - 1]) then 1 else 0
  }

  lemma {:induction false} ArrivalsGain<D>(s: State<D>, q: string, items: seq<D>, p: D -> bool)
    requires q in s.queues
    ensures NetGainAll(s, Arrivals(q, items), p) == CountOf(items, p)
    ensures CarefulAll(s, Arrivals(q, items))
  {
    if items != [] {
      var n := |items| - 1;
      ArrivalsGain(s, q, items[..n], p);
      ArrivalsAppend(s, q, items[..n]);
      assert Arrivals(q, items)[..n] == Arrivals(q, items[..n]);
    }
  }

  lemma {:induction false} DeliveriesGain<D>(s: State<D>, q: string, ids: seq<string>, at: Readings, p: D -> bool)
    ensures NetGainAll(s, Deliveries(q, ids, at), p) == 0
  {
    if ids != [] {
      DeliveriesGain(s, q, ids[..|ids| - 1], at, p);
      assert Deliveries<D>(q, ids, at)[..|ids| - 1] == Deliveries(q, ids[..|ids| - 1], at);
    }
  }

  lemma DeliveriesCareful<D>(s: State<D>, q: string, ids: seq<string>, at: Readings)
    requires q in s.queues && |ids| <= |s.queues[q]|
    requires Distinct(ids) && forall id | id in ids :: id !in s.inFlight
    ensures CarefulAll(s, Deliveries(q, ids, at))
  {
    var es := Deliveries<D>(q, ids, at);
    forall i | 0 <= i < |es| ensures Careful(ApplyAll(s, es[..i]), es[i]) {
      assert es[..i] == Deliveries(q, ids[..i], at);
      DeliveriesTake(s, q, ids[..i], at);
      TakeKeys(s, q, ids[..i], at);
      assert ids[i] in ids && ids[i] !in ids[..i];
    }
  }

  // How many tasks with these ids hold a message that satisfies p.
  ghost function CopiesUnder<D>(tasks: map<string, InFlightTask<D>>, ids: set<string>, p: D -> bool): nat {
    |set id | id in ids && id in tasks && p(tasks[id].data)|
  }

  lemma CopiesUnderOneMore<D>(tasks: map<string, InFlightTask<D>>, ids: set<string>, id: string, p: D -> bool)
    ensures CopiesUnder(tasks, ids + {id}, p) == CopiesUnder(tasks, ids, p)
          + if id in tasks && p(tasks[id].data) && id !in ids then 1 else 0
  {
    var fewer := set i | i in ids && i in tasks && p(tasks[i].data);
    var more := set i | i in ids + {id} && i in tasks && p(tasks[i].data);
    if id in tasks && p(tasks[id].data) && id !in ids {
      assert more == fewer + {id};
    } else {
      assert more == fewer;
    }
  }

  lemma SettlementsCareful<D>(s: State<D>, ids: seq<string>)
    ensures CarefulAll(s, Settlements(ids))
  {
  }

  lemma {:induction false} SettlementsGain<D>(s: State<D>, ids: seq<string>, p: D -> bool)
    ensures NetGainAll(s, Settlements(ids), p) == 0 - CopiesUnder(s.inFlight, IdSet(ids), p)
  {
    if ids != [] {
      var n := |ids| - 1;
      SettlementsGain(s, ids[..n], p);
      SettlementsRemove(s, ids[..n]);
      assert Settlements<D>(ids)[..n] == Settlements(ids[..n]);
      assert ids == ids[..n] + [ids[n]];
      assert IdSet(ids) == IdSet(ids[..n]) + {ids[n]};
      CopiesUnderOneMore(s.inFlight, IdSet(ids[..n]), ids[n], p);
    } else {
      NoCopiesUnder(s.inFlight, p);
    }
  }

  lemma NoCopiesUnder<D>(tasks: map<string, InFlightTask<D>>, p: D -> bool)
    ensures CopiesUnder(tasks, IdSet([]), p) == 0
  {
    assert forall id :: id !in IdSet([]);
  }

  lemma OneGain<D>(s: State<D>, e: Effect<D>, p: D -> bool)
    requires Careful(s, e)
    ensures NetGainAll(s, [e], p) == NetGain(s, e, p)
    ensures CarefulAll(s, [e])
  {
    assert [e][..0] == [];
  }

  // ----- Whole runs, counted from what the calls are given and answer -----

  ghost function AcceptedBy<D>(call: Call<D>, r: Response<D>, p: D -> bool): nat {
    match call
    case Enqueue(_, data) => if r == Done && p(data) then 1 else 0
    case EnqueueBatch(_, items) => if r == Done then CountOf(items, p) else 0
    case _ => 0
  }

  ghost function AckedBy<D>(s: State<D>, call: Call<D>, r: Response<D>, p: D -> bool): nat {
    match call
    case Ack(id) => if r == Done then CopiesUnder(s.inFlight, {id}, p) else 0
    case AckBatch(ids) => if r == Done then CopiesUnder(s.inFlight, IdSet(ids), p) else 0
    case _ => 0
  }

  // Messages that satisfy p enqueued by calls answered Ok.
  ghost function AcceptedCopies<D>(events: seq<Event<D>>, p: D -> bool): nat {
    if events == [] then 0
    else
      var before, last := events[..|events| - 1], events[|events| - 1];
      AcceptedCopies(before, p) +
      match last
      case Restart(_) => 0
      case Do(call, appended) => AcceptedBy(call, Execute(Run(before).memory, call, appended).response, p)
  }

  // Messages that satisfy p whose ack was answered Ok.
  ghost function AckedCopies<D>(events: seq<Event<D>>, p: D -> bool): nat {
    if events == [] then 0
    else
      var before, last := events[..|events| - 1], events[|events| - 1];
      AckedCopies(before, p) +
      match last
      case Restart(_) => 0
      case Do(call, appended) =>
        AckedBy(Run(before).memory, call, Execute(Run(before).memory, call, appended).response, p)
  }

  lemma AckGain<D>(memory: State<D>, recovered: State<D>, lost: set<string>, ids: seq<string>, p: D -> bool)
    requires Simulates(memory, recovered, lost)
    requires forall id | id in ids :: id in memory.inFlight
    ensures CarefulAll(recovered, Settlements(ids))
    ensures NetGainAll(recovered, Settlements(ids), p) == 0 - CopiesUnder(memory.inFlight, IdSet(ids), p)
  {
    SettlementsGain(recovered, ids, p);
    SettlementsCareful(recovered, ids);
    SameCopiesUnder(memory.inFlight, recovered.inFlight, lost, IdSet(ids), p);
  }

  ghost predicate Gains<D>(memory: State<D>, recovered: State<D>, call: Call<D>, at: Readings, p: D -> bool)
    requires PlanOf(memory, call).Commit?
  {
    var es, r := EffectsOf(PlanOf(memory, call).entry, at), Execute(memory, call, true).response;
    CarefulAll(recovered, es) &&
    NetGainAll(recovered, es, p) == AcceptedBy(call, r, p) - AckedBy(memory, call, r, p)
  }

  lemma AckBatchGains<D>(
    memory: State<D>, recovered: State<D>, lost: set<string>, call: Call<D>, at: Readings, p: D -> bool)
    requires Simulates(memory, recovered, lost)
    requires call.AckBatch? && PlanOf(memory, call).Commit?
    ensures Gains(memory, recovered, call, at, p)
  {
    MissingNone(memory.inFlight, call.ids);
    AckGain(memory, recovered, lost, call.ids, p);
  }

  lemma AckCallGains<D>(
    memory: State<D>, recovered: State<D>, lost: set<string>, call: Call<D>, at: Readings, p: D -> bool)
    requires Simulates(memory, recovered, lost)
    requires call.Ack? && PlanOf(memory, call).Commit?
    ensures Gains(memory, recovered, call, at, p)
  {
    AckGain(memory, recovered, lost, [call.id], p);
    assert EffectsOf(PlanOf(memory, call).entry, at) == Settlements([call.id]);
    assert IdSet([call.id]) == {call.id};
  }

  lemma BatchDeliveryGains<D>(
    memory: State<D>, recovered: State<D>, lost: set<string>, call: Call<D>, at: Readings, p: D -> bool)
    requires Simulates(memory, recovered, lost)
    requires call.DequeueBatch? && PlanOf(memory, call).Commit?
    requires var ids := Drawn(memory, call); Distinct(ids) && forall id | id in ids :: id !in recovered.inFlight
    ensures Gains(memory, recovered, call, at, p)
  {
    DeliveriesGain(recovered, call.queue, Drawn(memory, call), at, p);
    DeliveriesCareful(recovered, call.queue, Drawn(memory, call), at);
  }

  lemma DeliveryGains<D>(
    memory: State<D>, recovered: State<D>, lost: set<string>, call: Call<D>, at: Readings, p: D -> bool)
    requires Simulates(memory, recovered, lost)
    requires call.Dequeue? && PlanOf(memory, call).Commit?
    requires forall id | id in Drawn(memory, call) :: id !in recovered.inFlight
    ensures Gains(memory, recovered, call, at, p)
  {
    assert Drawn(memory, call)[0] == call.id;
    OneGain(recovered, Delivered(call.queue, call.id, at(0)), p);
  }

  lemma CreateGains<D>(memory: State<D>, recovered: State<D>, call: Call<D>, at: Readings, p: D -> bool)
    requires call.CreateQueue? && PlanOf(memory, call).Commit?
    ensures Gains(memory, recovered, call, at, p)
  {
    OneGain(recovered, Opened(call.name), p);
  }

  lemma NackGains<D>(memory: State<D>, recovered: State<D>, call: Call<D>, at: Readings, p: D -> bool)
    requires WellFormed(recovered)
    requires call.Nack? && PlanOf(memory, call).Commit?
    ensures Gains(memory, recovered, call, at, p)
  {
    OneGain(recovered, Returned(call.id), p);
  }

  lemma HeartbeatGains<D>(memory: State<D>, recovered: State<D>, call: Call<D>, at: Readings, p: D -> bool)
    requires call.ExtendVisibility? && PlanOf(memory, call).Commit?
    ensures Gains(memory, recovered, call, at, p)
  {
    OneGain(recovered, Touched(call.id, at(0)), p);
  }

  lemma EnqueueGains<D>(
    memory: State<D>, recovered: State<D>, lost: set<string>, call: Call<D>, at: Readings, p: D -> bool)
    requires Simulates(memory, recovered, lost)
    requires call.Enqueue? || call.EnqueueBatch?
    requires PlanOf(memory, call).Commit?
    ensures Gains(memory, recovered, call, at, p)
  {
    match call {
      case Enqueue(q, data) => OneGain(recovered, Arrived(q, data), p);
      case EnqueueBatch(q, items) => ArrivalsGain(recovered, q, items, p);
    }
  }

  lemma CommitGain<D>(
    memory: State<D>, recovered: State<D>, lost: set<string>, call: Call<D>, at: Readings, p: D -> bool)
    requires Simulates(memory, recovered, lost) && WellFormed(recovered)
    requires PlanOf(memory, call).Commit?
    requires var ids := Drawn(memory, call); Distinct(ids) && forall id | id in ids :: id !in recovered.inFlight
    ensures Gains(memory, recovered, call, at, p)
  {
    match call {
      case Ack(_) => AckCallGains(memory, recovered, lost, call, at, p);
      case AckBatch(_) => AckBatchGains(memory, recovered, lost, call, at, p);
      case Enqueue(_, _) => EnqueueGains(memory, recovered, lost, call, at, p);
      case EnqueueBatch(_, _) => EnqueueGains(memory, recovered, lost, call, at, p);
      case Dequeue(_, _, _) => DeliveryGains(memory, recovered, lost, call, at, p);
      case DequeueBatch(_, _, _, _) => BatchDeliveryGains(memory, recovered, lost, call, at, p);
      case CreateQueue(_) => CreateGains(memory, recovered, call, at, p);
      case Nack(_) => NackGains(memory, recovered, call, at, p);
      case ExtendVisibility(_, _, _) => HeartbeatGains(memory, recovered, call, at, p);
    }
  }

  lemma SameCopiesUnder<D>(
    m: map<string, InFlightTask<D>>, r: map<string, InFlightTask<D>>, lost: set<string>, ids: set<string>, p: D -> bool)
    requires Covers(m, r, lost) && ids <= m.Keys
    ensures CopiesUnder(m, ids, p) == CopiesUnder(r, ids, p)
  {
    assert (set id | id in ids && id in m && p(m[id].data)) == (set id | id in ids && id in r && p(r[id].data));
  }

  lemma NothingGained<D>(s: State<D>, call: Call<D>, appended: bool, p: D -> bool)
    requires Execute(s, call, appended).written == []
    ensures AcceptedBy(call, Execute(s, call, appended).response, p) == 0
    ensures AckedBy(s, call, Execute(s, call, appended).response, p) == 0
  {
  }

  // Every copy of a message whose enqueue was answered Ok is pending or in flight in the
  // recovered state, or its ack was answered Ok: over any run, with failing appends,
  // retries, dead-lettering and restarts.
  lemma {:induction false} MessagesConserved<D>(events: seq<Event<D>>, p: D -> bool, clock: ReplayClock)
    requires FreshIds(events)
    ensures AcceptedCopies(events, p) == Held(ReplayLog(Run(events).log, clock), p) + AckedCopies(events, p)
  {
    if events != [] {
      var before, last := events[..|events| - 1], events[|events| - 1];
      MessagesConserved(before, p, clock);
      if last.Do? {
        var n := Run(before);
        var recovered := ReplayLog(n.log, clock);
        var o := Execute(n.memory, last.call, last.appended);
        if o.written == [] {
          NothingGained(n.memory, last.call, last.appended, p);
          assert n.log + [] == n.log;
        } else {
          RunRecoverable(before, clock);
          RunRecoverable(events, clock);
          var entry, at := o.written[0], clock(|n.log|);
          AcceptedLast(n.log, entry, clock);
          ReplayWellFormed(n.log, clock);
          CommitGain(n.memory, recovered, LostAcks(before), last.call, at, p);
          ReplayIsEffects(recovered, entry, at);
          EffectsConserve(recovered, EffectsOf(entry, at), p);
        }
      }
    }
  }

  // ----- The memory of the run -----

  // The same in the memory of the run: a message that is neither there nor acked with Ok is
  // under an ack whose append failed, and a restart brings it back.
  lemma MemoryConserves<D>(events: seq<Event<D>>, p: D -> bool, clock: ReplayClock)
    requires FreshIds(events)
    ensures var memory, recovered := Run(events).memory, ReplayLog(Run(events).log, clock);
            && (recovered.inFlight - memory.inFlight.Keys).Keys == LostAcks(events)
            && AcceptedCopies(events, p) == Held(memory, p) + AckedCopies(events, p)
                                          + Flying(recovered.inFlight - memory.inFlight.Keys, p)
  {
    var memory, recovered := Run(events).memory, ReplayLog(Run(events).log, clock);
    MessagesConserved(events, p, clock);
    LostAckSimulation(events, clock);
    TotalSplit(recovered.inFlight, memory.inFlight, InTask(p));
  }
}
