// When a dequeue hands out the oldest message: whenever no retry was put in front of an
// older one.

module OldestFirst {
  import opened QueueState
  import opened StorageCalls
  import opened Replay
  import opened Recovery
  import opened Payloads
  import opened Fifo
  import opened ArrivalOrder

  // The recovered state of a run with the arrival number of every message.
  function NumberedRun<D>(events: seq<Event<D>>, clock: ReplayClock): State<Numbered<D>> {
    NumberAll(Journal(Run(events).log, clock))
  }

  // Without the numbers it has the queues of the memory, and in flight the tasks of the
  // memory plus those whose ack was lost.
  ghost predicate NumbersMemory<D>(events: seq<Event<D>>, clock: ReplayClock) {
    var erased := MapState(Unnumber(), NumberedRun(events, clock));
    && erased.queues == Run(events).memory.queues
    && Covers(Run(events).memory.inFlight, erased.inFlight, LostAcks(events))
  }

  lemma NumberedRunErased<D>(events: seq<Event<D>>, clock: ReplayClock)
    requires FreshIds(events) || NoAckFails(events)
    ensures NumbersMemory(events, clock)
  {
    var log := Run(events).log;
    RunRecoverable(events, clock);
    ReplayIsJournal(log, clock);
    NumbersErased(Journal(log, clock));
  }

  // In every run: numbering its history gives the queues of the memory, each message is the
  // arrival its number says, every retry is one of the first deliveries, the others are the
  // arrivals after these, in order, and no arrival is held twice.
  lemma RetriesWereDelivered<D>(events: seq<Event<D>>, clock: ReplayClock, queue: string)
    requires FreshIds(events) || NoAckFails(events)
    ensures NumbersMemory(events, clock)
    ensures NumbersFit(Contents(NumberedRun(events, clock), queue),
                       RunArrivals(events, queue), |RunFirsts(events, queue)|)
    ensures var numbered := NumberedRun(events, clock);
            HeldOnce(Contents(numbered, queue), numbered.inFlight, queue)
  {
    NumberedRunErased(events, clock);
    HistoryFits(Journal(Run(events).log, clock), queue);
    HistoryHeldOnce(Journal(Run(events).log, clock), queue);
    AnswersTellHistory(events, clock, queue);
  }

  // ----- Arrival order -----

  predicate Ascending<D>(items: seq<QueueItem<Numbered<D>>>) {
    forall i, j | 0 <= i < j < |items| :: items[i].data.number <= items[j].data.number
  }

  // What a dequeue would hand out arrived before the rest of the queue.
  predicate FrontIsOldest<D>(items: seq<QueueItem<Numbered<D>>>) {
    forall i | 0 <= i < |items| :: items[0].data.number <= items[i].data.number
  }

  // Returning this task would put a retry in front of an older message.
  predicate Overtakes<D>(s: State<Numbered<D>>, id: string, queue: string) {
    && id in s.inFlight
    && s.inFlight[id].attempts < MAX_ATTEMPTS && s.inFlight[id].queueName == queue
    && Contents(s, queue) != []
    && s.queues[queue][0].data.number < s.inFlight[id].data.number
  }

  lemma OvertakingReturn<D>(s: State<Numbered<D>>, next: string -> nat, id: string, queue: string)
    requires Overtakes(s, id, queue)
    ensures !FrontIsOldest(Contents(NumberStep(s, next, Returned(id)), queue))
  {
    var items := Contents(NumberStep(s, next, Returned(id)), queue);
    assert items[1] == s.queues[queue][0];
  }

  lemma AppendAscending<D>(items: seq<QueueItem<Numbered<D>>>, item: QueueItem<Numbered<D>>,
                           arrivals: seq<QueueItem<D>>, k: nat)
    requires NumbersFit(items, arrivals, k) && Ascending(items) && item.data.number == |arrivals|
    ensures Ascending(items + [item])
  {
    forall i | 0 <= i < |items| ensures items[i].data.number <= |arrivals| {
      assert ItemFits(items, i, arrivals, k);
    }
  }

  lemma StepAscending<D>(s: State<Numbered<D>>, next: string -> nat, e: Effect<D>, queue: string,
                         arrivals: seq<QueueItem<D>>, k: nat)
    requires NumbersFit(Contents(s, queue), arrivals, k) && next(queue) == |arrivals|
    requires Ascending(Contents(s, queue))
    requires !(e.Returned? && Overtakes(s, e.id, queue))
    ensures Ascending(Contents(NumberStep(s, next, e), queue))
  {
    match e {
      case Arrived(q, data) =>
        if q == queue && q in s.queues {
          AppendAscending(s.queues[q], Fresh(Numbered(data, |arrivals|)), arrivals, k);
        }
      case Returned(id) =>
        if id in s.inFlight && Destination(s.inFlight[id]) == queue {
          var task := s.inFlight[id];
          if task.attempts >= MAX_ATTEMPTS {
            var item := QueueItem(Numbered(task.data.payload, |arrivals|), task.attempts);
            AppendAscending(Contents(s, queue), item, arrivals, k);
          }
        }
      case _ =>
    }
  }

  lemma NumberOneMore<D>(es: seq<Effect<D>>, e: Effect<D>)
    ensures NumberAll(es + [e]) == NumberStep(NumberAll(es), NextNumbers(es), e)
  {
    assert (es + [e])[..|es|] == es;
  }

  lemma EffectAscending<D>(es: seq<Effect<D>>, e: Effect<D>, longer: seq<Effect<D>>, queue: string)
    requires longer == es + [e] && !e.Returned?
    requires Ascending(Contents(NumberAll(es), queue))
    ensures Ascending(Contents(NumberAll(longer), queue))
  {
    NumberOneMore(es, e);
    HistoryFits(es, queue);
    StepAscending(NumberAll(es), NextNumbers(es), e, queue, ArrivalHistory(es, queue), |FirstDeliveries(es, queue)|);
  }

  // What an entry other than a nack does keeps a queue in arrival order.
  lemma {:induction false} EffectsAscending<D>(before: seq<Effect<D>>, es: seq<Effect<D>>, queue: string)
    requires Ascending(Contents(NumberAll(before), queue))
    requires forall e | e in es :: !e.Returned?
    ensures Ascending(Contents(NumberAll(before + es), queue))
    decreases |es|
  {
    if es == [] {
      assert before + es == before;
    } else {
      var n := |es| - 1;
      EffectsAscending(before, es[..n], queue);
      EffectAscending(before + es[..n], es[n], before + es, queue);
    }
  }

  // An accepted nack: its append succeeds and its task is in flight.
  ghost predicate Nacks<D>(before: seq<Event<D>>, e: Event<D>) {
    e.Do? && e.call.Nack? && e.appended && e.call.id in Run(before).memory.inFlight
  }

  // Such a nack that puts a retry in front of an older message.
  ghost predicate NackOvertakes<D>(before: seq<Event<D>>, e: Event<D>, clock: ReplayClock, queue: string) {
    && Nacks(before, e)
    && Overtakes(NumberedRun(before, clock), e.call.id, queue)
  }

  lemma NackLogged<D>(before: seq<Event<D>>, e: Event<D>)
    requires Nacks(before, e)
    ensures Run(before + [e]).log == Run(before).log + [WalOp.Nack(e.call.id)]
  {
    RunLast(before, e);
  }

  lemma NackJournal<D>(log: seq<WalOp<D>>, id: string, clock: ReplayClock)
    ensures Journal(log + [WalOp.Nack(id)], clock) == Journal(log, clock) + [Returned(id)]
  {
    JournalOneMore(log, WalOp.Nack(id), clock);
  }

  lemma NackNumbers<D>(log: seq<WalOp<D>>, id: string, clock: ReplayClock)
    ensures var history := Journal(log, clock);
            NumberAll(Journal(log + [WalOp.Nack(id)], clock))
            == NumberStep(NumberAll(history), NextNumbers(history), Returned(id))
  {
    NackJournal(log, id, clock);
    NumberOneMore(Journal(log, clock), Returned(id));
  }

  lemma NackNumbered<D>(before: seq<Event<D>>, e: Event<D>, clock: ReplayClock)
    requires Nacks(before, e)
    ensures NumberedRun(before + [e], clock)
         == NumberStep(NumberedRun(before, clock), NextNumbers(Journal(Run(before).log, clock)), Returned(e.call.id))
  {
    NackLogged(before, e);
    NackNumbers(Run(before).log, e.call.id, clock);
  }

  lemma OtherLogged<D>(before: seq<Event<D>>, e: Event<D>) returns (entries: seq<WalOp<D>>)
    requires !Nacks(before, e)
    ensures Run(before + [e]).log == Run(before).log + entries
    ensures entries == [] || exists entry: WalOp<D> :: entries == [entry] && !entry.Nack?
  {
    RunLast(before, e);
    var n := Run(before);
    if e.Do? {
      entries := Execute(n.memory, e.call, e.appended).written;
      if entries != [] {
        var entry := PlanOf(n.memory, e.call).entry;
        assert entries == [entry] && !entry.Nack?;
      }
    } else {
      entries := [];
      assert n.log + [] == n.log;
    }
  }

  lemma ReturnsNothing<D>(entry: WalOp<D>, at: Readings)
    requires !entry.Nack?
    ensures forall e | e in EffectsOf(entry, at) :: !e.Returned?
  {
  }

  lemma OtherEventAscending<D>(before: seq<Event<D>>, e: Event<D>, clock: ReplayClock, queue: string)
    requires Ascending(Contents(NumberedRun(before, clock), queue)) && !Nacks(before, e)
    ensures Ascending(Contents(NumberedRun(before + [e], clock), queue))
  {
    var log := Run(before).log;
    var entries := OtherLogged(before, e);
    if entries == [] {
      assert log + entries == log;
    } else {
      JournalOneMore(log, entries[0], clock);
      ReturnsNothing(entries[0], clock(|log|));
      EffectsAscending(Journal(log, clock), EffectsOf(entries[0], clock(|log|)), queue);
    }
  }

  lemma EventAscending<D>(before: seq<Event<D>>, e: Event<D>, clock: ReplayClock, queue: string)
    requires Ascending(Contents(NumberedRun(before, clock), queue)) && !NackOvertakes(before, e, clock, queue)
    ensures Ascending(Contents(NumberedRun(before + [e], clock), queue))
  {
    if Nacks(before, e) {
      var history := Journal(Run(before).log, clock);
      NackNumbered(before, e, clock);
      HistoryFits(history, queue);
      StepAscending(NumberAll(history), NextNumbers(history), Returned(e.call.id), queue,
                    ArrivalHistory(history, queue), |FirstDeliveries(history, queue)|);
    } else {
      OtherEventAscending(before, e, clock, queue);
    }
  }

  ghost predicate NeverOvertakes<D>(events: seq<Event<D>>, clock: ReplayClock, queue: string) {
    forall j | 0 <= j < |events| :: !NackOvertakes(events[..j], events[j], clock, queue)
  }

  ghost predicate OldestFirstAt<D>(events: seq<Event<D>>, j: nat, clock: ReplayClock, queue: string)
    requires j <= |events|
  {
    FrontIsOldest(Contents(NumberedRun(events[..j], clock), queue))
  }

  ghost predicate AlwaysOldestFirst<D>(events: seq<Event<D>>, clock: ReplayClock, queue: string) {
    forall j | 0 <= j <= |events| :: OldestFirstAt(events, j, clock, queue)
  }

  lemma NeverOvertookBefore<D>(events: seq<Event<D>>, j: nat, clock: ReplayClock, queue: string)
    requires NeverOvertakes(events, clock, queue) && j <= |events|
    ensures NeverOvertakes(events[..j], clock, queue)
  {
    forall i | 0 <= i < j ensures !NackOvertakes(events[..j][..i], events[..j][i], clock, queue) {
      assert events[..j][..i] == events[..i];
    }
  }

  lemma {:induction false} AscendingWithoutOvertaking<D>(events: seq<Event<D>>, clock: ReplayClock, queue: string)
    requires NeverOvertakes(events, clock, queue)
    ensures Ascending(Contents(NumberedRun(events, clock), queue))
    decreases |events|
  {
    if events != [] {
      var n := |events| - 1;
      var before := events[..n];
      assert events == before + [events[n]];
      NeverOvertookBefore(events, n, clock, queue);
      AscendingWithoutOvertaking(before, clock, queue);
      EventAscending(before, events[n], clock, queue);
    }
  }

  lemma OvertakingNack<D>(before: seq<Event<D>>, e: Event<D>, clock: ReplayClock, queue: string)
    requires NackOvertakes(before, e, clock, queue)
    ensures !FrontIsOldest(Contents(NumberedRun(before + [e], clock), queue))
  {
    NackNumbered(before, e, clock);
    OvertakingReturn(NumberedRun(before, clock), NextNumbers(Journal(Run(before).log, clock)), e.call.id, queue);
  }

  lemma OldestWithoutOvertaking<D>(events: seq<Event<D>>, j: nat, clock: ReplayClock, queue: string)
    requires NeverOvertakes(events, clock, queue) && j <= |events|
    ensures OldestFirstAt(events, j, clock, queue)
  {
    NeverOvertookBefore(events, j, clock, queue);
    AscendingWithoutOvertaking(events[..j], clock, queue);
  }

  lemma OldestOvertaken<D>(events: seq<Event<D>>, j: nat, clock: ReplayClock, queue: string)
    requires j < |events| && NackOvertakes(events[..j], events[j], clock, queue)
    ensures !OldestFirstAt(events, j + 1, clock, queue)
  {
    var before, after := events[..j], events[..j + 1];
    assert after == before + [events[j]];
    OvertakingNack(before, events[j], clock, queue);
    assert !FrontIsOldest(Contents(NumberedRun(after, clock), queue));
  }

  lemma AlwaysNumbersMemory<D>(events: seq<Event<D>>, clock: ReplayClock)
    requires FreshIds(events) || NoAckFails(events)
    ensures forall j | 0 <= j <= |events| :: NumbersMemory(events[..j], clock)
  {
    forall j | 0 <= j <= |events| ensures NumbersMemory(events[..j], clock) {
      StillFresh(events, j);
      NumberedRunErased(events[..j], clock);
    }
  }

  // In every run, at every point what a dequeue of a queue would hand out is its oldest
  // message if and only if no nack puts a retry in front of an older message; then the
  // whole queue is in the order of arrival. The numbered queues and tasks are those of the
  // memory all along, unless task ids are drawn twice in a run where an ack fails to append.
  lemma OldestFirstIff<D>(events: seq<Event<D>>, clock: ReplayClock, queue: string)
    ensures AlwaysOldestFirst(events, clock, queue) <==> NeverOvertakes(events, clock, queue)
    ensures NeverOvertakes(events, clock, queue) ==> Ascending(Contents(NumberedRun(events, clock), queue))
    ensures FreshIds(events) || NoAckFails(events) ==>
              forall j | 0 <= j <= |events| :: NumbersMemory(events[..j], clock)
  {
    if FreshIds(events) || NoAckFails(events) {
      AlwaysNumbersMemory(events, clock);
    }
    if NeverOvertakes(events, clock, queue) {
      forall j | 0 <= j <= |events| ensures OldestFirstAt(events, j, clock, queue) {
        OldestWithoutOvertaking(events, j, clock, queue);
      }
      AscendingWithoutOvertaking(events, clock, queue);
    } else {
      var j :| 0 <= j < |events| && NackOvertakes(events[..j], events[j], clock, queue);
      OldestOvertaken(events, j, clock, queue);
    }
  }
}
