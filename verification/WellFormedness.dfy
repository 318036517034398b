// No task in flight ever names a queue that does not exist.

module WellFormedness {
  import opened QueueState
  import opened StorageCalls
  import opened Replay
  import opened Recovery

  lemma {:induction false} InsertWellFormed<D>(s: State<D>, tasks: seq<InFlightTask<D>>)
    requires WellFormed(s)
    requires forall i | 0 <= i < |tasks| :: tasks[i].queueName in s.queues && tasks[i].attempts >= 1
    ensures WellFormed(s.(inFlight := Insert(s.inFlight, tasks)))
  {
    if tasks != [] {
      var n := |tasks| - 1;
      InsertWellFormed(s, tasks[..n]);
      assert tasks[n].queueName in s.queues;
    }
  }

  lemma TakeWellFormed<D>(s: State<D>, queue: string, ids: seq<string>, at: nat -> int)
    requires WellFormed(s) && queue in s.queues && |ids| <= |s.queues[queue]|
    ensures WellFormed(Take(s, queue, ids, at))
  {
    InsertWellFormed(s, LentAll(s.queues[queue][..|ids|], queue, ids, at));
  }

  lemma ExecuteWellFormed<D>(s: State<D>, call: Call<D>, appended: bool)
    requires WellFormed(s)
    ensures WellFormed(Execute(s, call, appended).state)
  {
    match call {
      case DequeueBatch(queue, count, draw, at) =>
        if queue in s.queues {
          TakeWellFormed(s, queue, FirstDraws(BatchSize(s, queue, count), draw), at);
        }
      case _ =>
    }
  }

  // Replaying any log at all gives a well-formed state.
  lemma {:induction false} AnyReplayWellFormed<D>(log: seq<WalOp<D>>, clock: ReplayClock)
    ensures WellFormed(ReplayLog(log, clock))
  {
    if log != [] {
      var n := |log| - 1;
      var s := ReplayLog(log[..n], clock);
      AnyReplayWellFormed(log[..n], clock);
      EntryIsCall(s, log[n], clock(n));
      ExecuteWellFormed(s, CallOfEntry(log[n], clock(n)), true);
    }
  }

  lemma {:induction false} RunWellFormed<D>(events: seq<Event<D>>)
    ensures WellFormed(Run(events).memory)
  {
    if events != [] {
      var before, last := events[..|events| - 1], events[|events| - 1];
      RunWellFormed(before);
      match last {
        case Do(call, appended) => ExecuteWellFormed(Run(before).memory, call, appended);
        case Restart(clock) => AnyReplayWellFormed(Run(before).log, clock);
      }
    }
  }

  // Some call is answered by "Original queue not found".
  ghost predicate QueueLost<D>(s: State<D>, call: Call<D>, appended: bool) {
    exists name :: Execute(s, call, appended).response == Err(OriginalQueueNotFound(name))
  }

  // A call is answered so exactly when it is a nack of a retry whose queue does not exist.
  lemma QueueLostIff<D>(s: State<D>, call: Call<D>, appended: bool)
    ensures QueueLost(s, call, appended) <==>
            && call.Nack? && call.id in s.inFlight && appended
            && !HasDestination(s, s.inFlight[call.id])
  {
    if call.Nack? && call.id in s.inFlight && appended && !HasDestination(s, s.inFlight[call.id]) {
      var name := s.inFlight[call.id].queueName;
      assert Execute(s, call, appended).response == Err(OriginalQueueNotFound(name));
    }
  }

  // So in a well-formed state no call ever is.
  lemma OriginalQueueIsFound<D>(s: State<D>, call: Call<D>, appended: bool)
    requires WellFormed(s)
    ensures !QueueLost(s, call, appended)
  {
    QueueLostIff(s, call, appended);
    if call.Nack? && call.id in s.inFlight {
      assert WellFormedTask(s, call.id, s.inFlight[call.id]);
    }
  }
}
