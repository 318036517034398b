// The attempts of a message are the times it was delivered, and decide where a nack puts it.

module DeliveryCounts {
  import opened QueueState
  import opened StorageCalls
  import opened CallMeanings
  import opened Replay
  import opened Recovery
  import opened WellFormedness
  import opened Payloads
  import opened Acknowledged

  // Whether this change delivers the message with this serial.
  function DeliversNow<D>(s: State<Stamped<D>>, e: Effect<D>, serial: nat): nat {
    if e.Delivered? && Contents(s, e.queue) != [] && s.queues[e.queue][0].data.serial == serial then 1 else 0
  }

  // How often a history delivers it, from whatever queues.
  function TimesDelivered<D>(es: seq<Effect<D>>, serial: nat): nat {
    if es == [] then 0
    else
      var before := es[..|es| - 1];
      TimesDelivered(before, serial) + DeliversNow(StampAll(before), es[|es| - 1], serial)
  }

  ghost predicate ItemCounted<D>(item: QueueItem<Stamped<D>>, es: seq<Effect<D>>) {
    item.attempts == TimesDelivered(es, item.data.serial)
  }

  ghost predicate TaskCounted<D>(task: InFlightTask<Stamped<D>>, es: seq<Effect<D>>) {
    task.attempts == TimesDelivered(es, task.data.serial)
  }

  ghost predicate AllCounted<D>(s: State<Stamped<D>>, es: seq<Effect<D>>) {
    && (forall q, i | q in s.queues && 0 <= i < |s.queues[q]| :: ItemCounted(s.queues[q][i], es))
    && forall id | id in s.inFlight :: TaskCounted(s.inFlight[id], es)
  }

  lemma OneMoreCounted<D>(es: seq<Effect<D>>, e: Effect<D>, serial: nat)
    ensures TimesDelivered(es + [e], serial) == TimesDelivered(es, serial) + DeliversNow(StampAll(es), e, serial)
  {
    assert (es + [e])[..|es|] == es;
  }

  // A message that has not arrived has not been delivered.
  lemma {:induction false} NotDeliveredYet<D>(es: seq<Effect<D>>, serial: nat)
    requires serial >= |es|
    ensures TimesDelivered(es, serial) == 0
    decreases |es|
  {
    if es != [] {
      var before, e := es[..|es| - 1], es[|es| - 1];
      NotDeliveredYet(before, serial);
      HistoryGenuine(before);
      if e.Delivered? && Contents(StampAll(before), e.queue) != [] {
        assert Genuine(StampAll(before).queues[e.queue][0].data, before);
      }
    }
  }

  // Once a message is out, nothing else in the state is it.
  lemma NoOther<D>(es: seq<Effect<D>>, id: string)
    requires id in StampAll(es).inFlight
    ensures var s := StampAll(es);
            NowhereHeld(Without(s, {id}), s.inFlight[id].data.serial)
  {
    var s := StampAll(es);
    var serial := s.inFlight[id].data.serial;
    HeldAtMostOnce(es, serial);
    SettledHolders(s, id);
    HeldNowhere(Apply(s, Settled(id)), serial);
  }

  lemma DeliveryCounted<D>(es: seq<Effect<D>>, e: Effect<D>)
    requires AllCounted(StampAll(es), es) && e.Delivered? && Contents(StampAll(es), e.queue) != []
    ensures AllCounted(StampAll(es + [e]), es + [e])
  {
    var s, t, longer := StampAll(es), StampAll(es + [e]), es + [e];
    StampOneMore(es, e);
    NoOther(longer, e.id);
    var front := s.queues[e.queue][0];
    var serial := front.data.serial;
    forall q, i | q in t.queues && 0 <= i < |t.queues[q]| ensures ItemCounted(t.queues[q][i], longer) {
      assert Without(t, {e.id}).queues[q][i].data.serial != serial;
      OneMoreCounted(es, e, t.queues[q][i].data.serial);
      assert ItemCounted(s.queues[q][if q == e.queue then i + 1 else i], es);
    }
    forall id | id in t.inFlight ensures TaskCounted(t.inFlight[id], longer) {
      OneMoreCounted(es, e, t.inFlight[id].data.serial);
      if id == e.id {
        assert ItemCounted(front, es);
      } else {
        assert Without(t, {e.id}).inFlight[id].data.serial != serial;
        assert TaskCounted(s.inFlight[id], es);
      }
    }
  }

  // Any other change delivers nothing and keeps the attempts of what it moves.
  lemma SameCounts<D>(es: seq<Effect<D>>, e: Effect<D>)
    requires !(e.Delivered? && Contents(StampAll(es), e.queue) != [])
    ensures forall serial :: TimesDelivered(es + [e], serial) == TimesDelivered(es, serial)
  {
    forall serial ensures TimesDelivered(es + [e], serial) == TimesDelivered(es, serial) {
      OneMoreCounted(es, e, serial);
    }
  }

  lemma StillCounted<D>(s: State<Stamped<D>>, es: seq<Effect<D>>, longer: seq<Effect<D>>)
    requires AllCounted(s, es) && forall serial :: TimesDelivered(longer, serial) == TimesDelivered(es, serial)
    ensures AllCounted(s, longer)
  {
    forall q, i | q in s.queues && 0 <= i < |s.queues[q]| ensures ItemCounted(s.queues[q][i], longer) {
      assert ItemCounted(s.queues[q][i], es);
    }
    forall id | id in s.inFlight ensures TaskCounted(s.inFlight[id], longer) {
      assert TaskCounted(s.inFlight[id], es);
    }
  }

  lemma MovedCounted<D>(s: State<Stamped<D>>, e: Effect<Stamped<D>>, es: seq<Effect<D>>)
    requires AllCounted(s, es) && !(e.Delivered? && Contents(s, e.queue) != [])
    requires e.Arrived? ==> TimesDelivered(es, e.data.serial) == 0
    ensures AllCounted(Apply(s, e), es)
  {
    if e.Returned? && e.id in s.inFlight {
      assert TaskCounted(s.inFlight[e.id], es);
      assert ItemCounted(Returning(s.inFlight[e.id]), es);
    } else if e.Arrived? {
      assert ItemCounted(Fresh(e.data), es);
    } else if e.Touched? && e.id in s.inFlight {
      assert TaskCounted(s.inFlight[e.id], es);
    }
  }

  lemma {:induction false} HistoryCounted<D>(es: seq<Effect<D>>)
    ensures AllCounted(StampAll(es), es)
    decreases |es|
  {
    if es != [] {
      var n := |es| - 1;
      var before, e := es[..n], es[n];
      assert es == before + [e];
      HistoryCounted(before);
      if e.Delivered? && Contents(StampAll(before), e.queue) != [] {
        DeliveryCounted(before, e);
      } else {
        SameCounts(before, e);
        StillCounted(StampAll(before), before, es);
        NotDeliveredYet(before, n);
        MovedCounted(StampAll(before), Stamp(e, n), es);
      }
    }
  }

  // ----- Main results -----

  // In every run, restarts included, the attempts of a message pending or in flight are the
  // number of its deliveries, through all queues it was in.
  lemma AttemptsAreDeliveries<D>(events: seq<Event<D>>, clock: ReplayClock)
    requires FreshIds(events) || NoAckFails(events)
    ensures StampsMemory(events, clock)
    ensures AllCounted(StampedRun(events, clock), Journal(Run(events).log, clock))
  {
    NoMessageTwice(events, clock, 0);
    HistoryCounted(Journal(Run(events).log, clock));
  }

  // Where a nack puts the message of a task that was delivered d times.
  ghost predicate PutBack<D>(s: State<D>, task: InFlightTask<D>, d: nat, t: State<D>) {
    var item := QueueItem(task.data, d);
    if d >= 5 then
      && Contents(t, task.queueName + "_dlq") == Contents(s, task.queueName + "_dlq") + [item]
      && SameQueuesBut(s, t, task.queueName + "_dlq")
    else
      && Contents(t, task.queueName) == [item] + Contents(s, task.queueName)
      && SameQueuesBut(s, t, task.queueName)
  }

  // In every run a logged nack puts the message at the back of the dead-letter queue if it
  // has been delivered five times or more, and else at the front of its queue.
  lemma NackByDeliveries<D>(before: seq<Event<D>>, id: string, clock: ReplayClock)
    requires FreshIds(before) || NoAckFails(before)
    requires id in Run(before).memory.inFlight
    ensures id in StampedRun(before, clock).inFlight
    ensures var serial := StampedRun(before, clock).inFlight[id].data.serial;
            var d := TimesDelivered(Journal(Run(before).log, clock), serial);
            PutBack(Run(before).memory, Run(before).memory.inFlight[id], d,
                    Run(before + [Do(Call.Nack(id), true)]).memory)
  {
    var s := Run(before).memory;
    AttemptsAreDeliveries(before, clock);
    assert id in MapState(Unstamp(), StampedRun(before, clock)).inFlight;
    assert TaskCounted(StampedRun(before, clock).inFlight[id], Journal(Run(before).log, clock));
    RunWellFormed(before);
    assert WellFormedTask(s, id, s.inFlight[id]);
    RunLast(before, Do(Call.Nack(id), true));
    NackMeaning(s, id);
  }
}
