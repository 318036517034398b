// What the statistics of a run say about its messages.

module Statistics {
  import opened QueueState
  import opened Replay
  import opened Recovery
  import opened Totals
  import opened Conservation
  import opened MemoryStorage

  function PendingInStats(): QueueStats -> int {
    (q: QueueStats) => q.pending
  }

  lemma {:induction false} AllCopies<D>(items: seq<QueueItem<D>>)
    ensures Copies(items, Any()) == |items|
  {
    if items != [] {
      AllCopies(items[1..]);
    }
  }

  lemma PendingTotal<D>(s: State<D>)
    ensures Total(StatsOf(s).queues, PendingInStats()) == Pending(s, Any())
  {
    var stats := StatsOf(s).queues;
    forall name | name in stats ensures PendingInStats()(stats[name]) == InQueue(Any())(s.queues[name]) {
      AllCopies(s.queues[name]);
    }
    TotalSame(stats, PendingInStats(), s.queues, InQueue(Any()));
  }

  lemma AllFlying<D>(tasks: map<string, InFlightTask<D>>)
    ensures Flying(tasks, Any()) == |tasks.Keys|
  {
    TotalOfOnes(tasks, InTask(Any()));
  }

  // In every run the pending counts of all queues and the total in flight add up to the
  // messages accepted, minus those acknowledged, minus those under lost acks.
  lemma StatsCountMessages<D>(events: seq<Event<D>>, clock: ReplayClock)
    requires FreshIds(events)
    ensures var stats := StatsOf(Run(events).memory);
            Total(stats.queues, PendingInStats()) + stats.totalInFlight
            == AcceptedCopies(events, Any()) - AckedCopies(events, Any()) - |LostAcks(events)|
  {
    var memory, recovered := Run(events).memory, ReplayLog(Run(events).log, clock);
    MemoryConserves(events, Any(), clock);
    PendingTotal(memory);
    AllFlying(memory.inFlight);
    AllFlying(recovered.inFlight - memory.inFlight.Keys);
    assert |memory.inFlight| == |memory.inFlight.Keys|;
  }
}
