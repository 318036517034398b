// Batch calls against the sequences of single calls they stand for.

module Batches {
  import opened QueueState
  import opened StorageCalls
  import opened CallMeanings
  import opened Replay
  import opened Recovery

  function ExecuteAll<D>(s: State<D>, calls: seq<Call<D>>): State<D> {
    if calls == [] then s
    else Execute(ExecuteAll(s, calls[..|calls| - 1]), calls[|calls| - 1], true).state
  }

  // The tasks handed out by a sequence of calls, in order.
  function TasksOf<D>(r: Response<D>): seq<InFlightTask<D>> {
    match r
    case OneTask(Some(task)) => [task]
    case ManyTasks(tasks) => tasks
    case _ => []
  }

  function Handed<D>(s: State<D>, calls: seq<Call<D>>): seq<InFlightTask<D>> {
    if calls == [] then []
    else
      var before, last := calls[..|calls| - 1], calls[|calls| - 1];
      Handed(s, before) + TasksOf(Execute(ExecuteAll(s, before), last, true).response)
  }

  function SingleEnqueues<D>(queue: string, items: seq<D>): seq<Call<D>> {
    seq(|items|, i requires 0 <= i < |items| => Call.Enqueue(queue, items[i]))
  }

  function SingleDequeues<D>(queue: string, count: nat, draw: nat -> string, at: nat -> int): seq<Call<D>> {
    seq(count, i requires 0 <= i < count => Call.Dequeue(queue, draw(i), at(i)))
  }

  function SingleAcks<D>(ids: seq<string>): seq<Call<D>> {
    seq(|ids|, i requires 0 <= i < |ids| => Call.Ack(ids[i]))
  }

  lemma {:induction false} QueueBatchIsSingles<D>(s: State<D>, queue: string, items: seq<D>)
    ensures Execute(s, Call.EnqueueBatch(queue, items), true).state
         == ExecuteAll(s, SingleEnqueues(queue, items))
  {
    if items == [] {
      if queue in s.queues {
        assert s.queues[queue] + FreshAll(items) == s.queues[queue];
      }
    } else {
      var n := |items| - 1;
      QueueBatchIsSingles(s, queue, items[..n]);
      assert SingleEnqueues(queue, items)[..n] == SingleEnqueues(queue, items[..n]);
      if queue in s.queues {
        assert FreshAll(items) == FreshAll(items[..n]) + [Fresh(items[n])];
        assert s.queues[queue] + FreshAll(items)
            == s.queues[queue] + FreshAll(items[..n]) + [Fresh(items[n])];
      }
    }
  }

  lemma ForceOneMore<D>(s: State<D>, queue: string, ids: seq<string>, n: nat, at: Readings, one: Readings)
    requires n < |ids| && one(0) == at(n)
    ensures ForceDelivery(ForceDelivery(s, queue, ids[..n], at), queue, [ids[n]], one)
         == ForceDelivery(s, queue, ids[..n + 1], at)
  {
    if queue in s.queues {
      var before := ForceDelivery(s, queue, ids[..n], at);
      if n < |s.queues[queue]| {
        assert ids[..n][..n] == ids[..n] && ids[..n + 1][..n + 1] == ids[..n + 1];
        TakeOneMore(s, queue, ids, n, at);
        TakeNone(before, queue, one);
        TakeOneMore(before, queue, [ids[n]], 0, one);
        assert [ids[n]][..1] == [ids[n]] && [ids[n]][..0] == [];
      } else {
        var m := |s.queues[queue]|;
        assert ids[..n][..m] == ids[..n + 1][..m];
        assert before.queues[queue] == [];
        TakeNone(before, queue, one);
        assert [ids[n]][..0] == [];
      }
    }
  }

  lemma SingleIsForced<D>(s: State<D>, queue: string, id: string, now: int, one: Readings)
    requires one(0) == now
    ensures Execute(s, Call.Dequeue(queue, id, now), true).state == ForceDelivery(s, queue, [id], one)
  {
    if queue in s.queues {
      TakeNone(s, queue, one);
      assert [id][..0] == [] && [id][..1] == [id];
      if s.queues[queue] != [] {
        TakeOneMore(s, queue, [id], 0, one);
      }
    }
  }

  lemma BatchIsForced<D>(s: State<D>, queue: string, count: nat, draw: nat -> string, at: nat -> int)
    ensures Execute(s, Call.DequeueBatch(queue, count, draw, at), true).state
         == ForceDelivery(s, queue, FirstDraws(count, draw), at)
  {
    if queue in s.queues {
      var n := BatchSize(s, queue, count);
      assert FirstDraws(count, draw)[..n] == FirstDraws(n, draw);
      TakeNone(s, queue, at);
    }
  }

  lemma {:induction false} DequeuesAreForced<D>(
    s: State<D>, queue: string, count: nat, draw: nat -> string, at: nat -> int)
    ensures ExecuteAll(s, SingleDequeues(queue, count, draw, at))
         == ForceDelivery(s, queue, FirstDraws(count, draw), at)
  {
    if count == 0 {
      if queue in s.queues {
        TakeNone(s, queue, at);
      }
    } else {
      var n := count - 1;
      var ids := FirstDraws(count, draw);
      DequeuesAreForced(s, queue, n, draw, at);
      assert SingleDequeues<D>(queue, count, draw, at)[..n] == SingleDequeues(queue, n, draw, at);
      assert ids[..n] == FirstDraws(n, draw) && ids[..count] == ids;
      var one: Readings := _ => at(n);
      SingleIsForced(ForceDelivery(s, queue, ids[..n], at), queue, ids[n], at(n), one);
      ForceOneMore(s, queue, ids, n, at, one);
    }
  }

  lemma SingleHands<D>(s: State<D>, queue: string, id: string, now: int)
    ensures TasksOf(Execute(s, Call.Dequeue(queue, id, now), true).response)
         == if Contents(s, queue) == [] then [] else [Lent(Contents(s, queue)[0], queue, id, now)]
  {
  }

  // What a batch of this size hands out.
  function BatchTasks<D>(s: State<D>, queue: string, count: nat, draw: nat -> string, at: nat -> int)
    : seq<InFlightTask<D>>
  {
    var n := BatchSize(s, queue, count);
    LentAll(Contents(s, queue)[..n], queue, FirstDraws(n, draw), at)
  }

  lemma BatchHands<D>(s: State<D>, queue: string, count: nat, draw: nat -> string, at: nat -> int)
    ensures TasksOf(Execute(s, Call.DequeueBatch(queue, count, draw, at), true).response)
         == BatchTasks(s, queue, count, draw, at)
  {
  }

  lemma BatchTasksOneMore<D>(s: State<D>, queue: string, n: nat, draw: nat -> string, at: nat -> int)
    ensures BatchTasks(s, queue, n + 1, draw, at)
         == BatchTasks(s, queue, n, draw, at)
          + if n < |Contents(s, queue)| then [Lent(Contents(s, queue)[n], queue, draw(n), at(n))] else []
  {
  }

  lemma ForcedContents<D>(s: State<D>, queue: string, ids: seq<string>, at: Readings)
    ensures Contents(ForceDelivery(s, queue, ids, at), queue)
         == Contents(s, queue)[Min(|ids|, |Contents(s, queue)|)..]
  {
  }

  lemma HandedOneMore<D>(s: State<D>, queue: string, n: nat, draw: nat -> string, at: nat -> int)
    ensures Handed(s, SingleDequeues(queue, n + 1, draw, at))
         == Handed(s, SingleDequeues(queue, n, draw, at))
          + TasksOf(Execute(ExecuteAll(s, SingleDequeues(queue, n, draw, at)),
                            Call.Dequeue(queue, draw(n), at(n)), true).response)
  {
    assert SingleDequeues<D>(queue, n + 1, draw, at)[..n] == SingleDequeues(queue, n, draw, at);
  }

  lemma HandsNext<D>(s: State<D>, queue: string, n: nat, draw: nat -> string, at: nat -> int)
    ensures TasksOf(Execute(ForceDelivery(s, queue, FirstDraws(n, draw), at),
                            Call.Dequeue(queue, draw(n), at(n)), true).response)
         == if n < |Contents(s, queue)| then [Lent(Contents(s, queue)[n], queue, draw(n), at(n))] else []
  {
    SingleHands(ForceDelivery(s, queue, FirstDraws(n, draw), at), queue, draw(n), at(n));
    ForcedContents(s, queue, FirstDraws(n, draw), at);
  }

  lemma {:induction false} DequeuesHand<D>(
    s: State<D>, queue: string, count: nat, draw: nat -> string, at: nat -> int)
    ensures Handed(s, SingleDequeues(queue, count, draw, at)) == BatchTasks(s, queue, count, draw, at)
    decreases count
  {
    if count != 0 {
      var n := count - 1;
      DequeuesHand(s, queue, n, draw, at);
      HandedOneMore(s, queue, n, draw, at);
      DequeuesAreForced(s, queue, n, draw, at);
      HandsNext(s, queue, n, draw, at);
      BatchTasksOneMore(s, queue, n, draw, at);
    }
  }

  // For any count, also one larger than the queue: same state, same tasks in the same order.
  lemma DequeueBatchIsSingles<D>(s: State<D>, queue: string, count: nat, draw: nat -> string, at: nat -> int)
    ensures var batch := Execute(s, Call.DequeueBatch(queue, count, draw, at), true);
            var singles := SingleDequeues(queue, count, draw, at);
            batch.state == ExecuteAll(s, singles) && TasksOf(batch.response) == Handed(s, singles)
  {
    BatchIsForced(s, queue, count, draw, at);
    DequeuesAreForced(s, queue, count, draw, at);
    BatchHands(s, queue, count, draw, at);
    DequeuesHand(s, queue, count, draw, at);
  }

  lemma {:induction false} InsertHolds<D>(m: map<string, InFlightTask<D>>, tasks: seq<InFlightTask<D>>, i: nat)
    requires i < |tasks| && forall j, k | 0 <= j < k < |tasks| :: tasks[j].id != tasks[k].id
    ensures tasks[i].id in Insert(m, tasks) && Insert(m, tasks)[tasks[i].id] == tasks[i]
    decreases |tasks|
  {
    var n := |tasks| - 1;
    if i < n {
      InsertHolds(m, tasks[..n], i);
    }
  }

  // What a batch hands out is what it put in flight: the messages from the front of the
  // queue, in order, under the ids drawn, each with one more attempt.
  lemma HandedTasksAreInFlight<D>(s: State<D>, queue: string, count: nat, draw: nat -> string, at: nat -> int, i: nat)
    requires queue in s.queues && i < BatchSize(s, queue, count)
    requires Distinct(FirstDraws(BatchSize(s, queue, count), draw))
    ensures var o := Execute(s, Call.DequeueBatch(queue, count, draw, at), true);
            var tasks, item := TasksOf(o.response), s.queues[queue][i];
            && |tasks| == BatchSize(s, queue, count)
            && tasks[i].id == draw(i) && tasks[i].data == item.data
            && tasks[i].queueName == queue && tasks[i].attempts == item.attempts + 1
            && tasks[i].id in o.state.inFlight && o.state.inFlight[tasks[i].id] == tasks[i]
            && o.state.queues[queue] == s.queues[queue][|tasks|..]
  {
    var tasks := BatchTasks(s, queue, count, draw, at);
    BatchHands(s, queue, count, draw, at);
    InsertHolds(s.inFlight, tasks, i);
  }

  ghost predicate ReportsAbsent<D>(r: Response<D>, ids: seq<string>, tasks: map<string, InFlightTask<D>>) {
    && r.Err? && r.error.TasksNotFound?
    && AreAbsent(r.error.ids, ids, tasks)
    && forall id :: id in r.error.ids <==> id in ids && id !in tasks
  }

  lemma MissingReported<D>(tasks: map<string, InFlightTask<D>>, ids: seq<string>)
    ensures ReportsAbsent<D>(Err(TasksNotFound(Missing(tasks, ids))), ids, tasks)
  {
    MissingAreAbsent(tasks, ids);
    forall id: string ensures id in Missing(tasks, ids) <==> id in ids && id !in tasks {
      MissingIffAbsent(tasks, ids, id);
    }
  }

  // An ack of a batch succeeds exactly when all its tasks are in flight and the append
  // succeeds; otherwise it changes and logs nothing. If some are not in flight, the answer
  // names these and no others, in the order of the batch.
  lemma AckBatchIsAtomic<D>(s: State<D>, ids: seq<string>, appended: bool)
    ensures var o := Execute(s, Call.AckBatch(ids), appended);
            && (o.response == Done <==> appended && forall id | id in ids :: id in s.inFlight)
            && (o.response != Done ==> o.state == s && o.written == [])
            && (o.response == Done ==> o.state == ExecuteAll(s, SingleAcks(ids)))
            && ((exists id :: id in ids && id !in s.inFlight) ==> ReportsAbsent(o.response, ids, s.inFlight))
  {
    AckBatchOutcome(s, ids, appended);
    MissingNone(s.inFlight, ids);
    if Missing(s.inFlight, ids) == [] {
      AcksRemove(s, ids);
    } else {
      MissingReported(s.inFlight, ids);
    }
  }

  lemma {:induction false} AcksRemove<D>(s: State<D>, ids: seq<string>)
    ensures ExecuteAll(s, SingleAcks(ids)) == Without(s, IdSet(ids))
  {
    if ids == [] {
      assert s.inFlight - IdSet(ids) == s.inFlight;
    } else {
      var n := |ids| - 1;
      AcksRemove(s, ids[..n]);
      assert SingleAcks<D>(ids)[..n] == SingleAcks(ids[..n]);
      assert ids == ids[..n] + [ids[n]];
    }
  }

  // ----- The batch entry in the log -----

  // The readings of the entry at position k, dealt out one to each entry from k on.
  function DealtOut(clock: ReplayClock, k: nat): ReplayClock {
    (i: nat) => if i < k then clock(i) else ((_: nat) => clock(k)(i - k))
  }

  lemma {:induction false} ReplayReadsItsEntries<D>(log: seq<WalOp<D>>, clock: ReplayClock, clock': ReplayClock)
    requires forall i: nat | i < |log| :: clock(i) == clock'(i)
    ensures ReplayLog(log, clock) == ReplayLog(log, clock')
  {
    if log != [] {
      ReplayReadsItsEntries(log[..|log| - 1], clock, clock');
    }
  }

  lemma ReplayLast<D>(log: seq<WalOp<D>>, entry: WalOp<D>, clock: ReplayClock)
    ensures ReplayLog(log + [entry], clock) == ReplayEntry(ReplayLog(log, clock), entry, clock(|log|))
  {
    assert (log + [entry])[..|log|] == log;
  }

  function EnqueueEntries<D>(queue: string, items: seq<D>): seq<WalOp<D>> {
    seq(|items|, i requires 0 <= i < |items| => WalOp.Enqueue(queue, items[i]))
  }

  function DequeuedEntries<D>(queue: string, ids: seq<string>): seq<WalOp<D>> {
    seq(|ids|, i requires 0 <= i < |ids| => WalOp.Dequeued(queue, ids[i]))
  }

  // Replay of more entries, the first of them at position k of the log.
  function ReplayFrom<D>(s: State<D>, entries: seq<WalOp<D>>, clock: ReplayClock, k: nat): State<D> {
    if entries == [] then s
    else
      var n := |entries| - 1;
      ReplayEntry(ReplayFrom(s, entries[..n], clock, k), entries[n], clock(k + n))
  }

  lemma BothOneMore<D>(s: State<D>, more: seq<WalOp<D>>, clock: ReplayClock, k: nat,
                       shorter: seq<WalOp<D>>, longer: seq<WalOp<D>>)
    requires more != [] && longer == shorter + [more[|more| - 1]] && |shorter| == k + |more| - 1
    requires ReplayLog(shorter, clock) == ReplayFrom(s, more[..|more| - 1], clock, k)
    ensures ReplayLog(longer, clock) == ReplayFrom(s, more, clock, k)
  {
    ReplayLast(shorter, more[|more| - 1], clock);
  }

  lemma {:induction false} ReplayConcat<D>(log: seq<WalOp<D>>, more: seq<WalOp<D>>, clock: ReplayClock)
    ensures ReplayLog(log + more, clock) == ReplayFrom(ReplayLog(log, clock), more, clock, |log|)
    decreases |more|
  {
    if more == [] {
      assert log + more == log;
    } else {
      var before := more[..|more| - 1];
      ReplayConcat(log, before, clock);
      BothOneMore(ReplayLog(log, clock), more, clock, |log|, log + before, log + more);
    }
  }

  lemma EnqueuesLast<D>(s: State<D>, queue: string, items: seq<D>)
    requires items != []
    ensures ExecuteAll(s, SingleEnqueues(queue, items))
         == Execute(ExecuteAll(s, SingleEnqueues(queue, items[..|items| - 1])),
                    Call.Enqueue(queue, items[|items| - 1]), true).state
  {
    var n := |items| - 1;
    assert SingleEnqueues(queue, items)[..n] == SingleEnqueues(queue, items[..n]);
  }

  lemma EnqueueLast<D>(s: State<D>, queue: string, items: seq<D>, clock: ReplayClock, k: nat)
    requires items != []
    ensures ReplayFrom(s, EnqueueEntries(queue, items), clock, k)
         == Execute(ReplayFrom(s, EnqueueEntries(queue, items[..|items| - 1]), clock, k),
                    Call.Enqueue(queue, items[|items| - 1]), true).state
  {
    var n := |items| - 1;
    assert EnqueueEntries(queue, items)[..n] == EnqueueEntries(queue, items[..n]);
  }

  lemma {:induction false} EnqueueEntriesReplay<D>(
    s: State<D>, queue: string, items: seq<D>, clock: ReplayClock, k: nat)
    ensures ReplayFrom(s, EnqueueEntries(queue, items), clock, k) == ExecuteAll(s, SingleEnqueues(queue, items))
    decreases |items|
  {
    if items != [] {
      EnqueueEntriesReplay(s, queue, items[..|items| - 1], clock, k);
      EnqueueLast(s, queue, items, clock, k);
      EnqueuesLast(s, queue, items);
    }
  }

  lemma DequeuedLast<D>(s: State<D>, entries: seq<WalOp<D>>, last: WalOp<D>, clock: ReplayClock, k: nat)
    requires entries != [] && last == entries[|entries| - 1] && last.Dequeued?
    ensures var n := |entries| - 1;
            ReplayFrom(s, entries, clock, k)
            == ForceDelivery(ReplayFrom(s, entries[..n], clock, k), last.queue, [last.id], clock(k + n))
  {
    SingleEntryForces(ReplayFrom(s, entries[..|entries| - 1], clock, k), last, clock(k + |entries| - 1));
  }

  lemma SingleEntryForces<D>(s: State<D>, entry: WalOp<D>, at: Readings)
    requires entry.Dequeued?
    ensures ReplayEntry(s, entry, at) == ForceDelivery(s, entry.queue, [entry.id], at)
  {
  }

  lemma {:induction false} DequeuedEntriesReplay<D>(
    s: State<D>, queue: string, ids: seq<string>, at: Readings, clock: ReplayClock, k: nat)
    requires forall i: nat | k <= i < k + |ids| :: clock(i)(0) == at(i - k)
    ensures ReplayFrom(s, DequeuedEntries(queue, ids), clock, k) == ForceDelivery(s, queue, ids, at)
    decreases |ids|
  {
    if ids == [] {
      if queue in s.queues {
        TakeNone(s, queue, at);
      }
    } else {
      var n := |ids| - 1;
      DequeuedEntriesReplay(s, queue, ids[..n], at, clock, k);
      DequeuedLast(s, DequeuedEntries(queue, ids), WalOp.Dequeued(queue, ids[n]), clock, k);
      assert DequeuedEntries<D>(queue, ids)[..n] == DequeuedEntries(queue, ids[..n]);
      assert clock(k + n)(0) == at(n) && ids[..n + 1] == ids;
      ForceOneMore(s, queue, ids, n, at, clock(k + n));
    }
  }

  lemma EnqueuedBatchReplaysAsSingles<D>(log: seq<WalOp<D>>, entry: WalOp<D>, clock: ReplayClock)
    requires entry.EnqueueBatch?
    ensures ReplayLog(log + [entry], clock)
         == ReplayLog(log + EnqueueEntries(entry.queue, entry.items), DealtOut(clock, |log|))
  {
    var s, dealt := ReplayLog(log, clock), DealtOut(clock, |log|);
    ReplayReadsItsEntries(log, clock, dealt);
    ReplayLast(log, entry, clock);
    QueueBatchIsSingles(s, entry.queue, entry.items);
    ReplayConcat(log, EnqueueEntries(entry.queue, entry.items), dealt);
    EnqueueEntriesReplay(s, entry.queue, entry.items, dealt, |log|);
  }

  lemma BatchEntryForces<D>(s: State<D>, entry: WalOp<D>, at: Readings)
    requires entry.DequeuedBatch?
    ensures ReplayEntry(s, entry, at) == ForceDelivery(s, entry.queue, entry.ids, at)
  {
  }

  lemma BatchEntryReplays<D>(log: seq<WalOp<D>>, entry: WalOp<D>, clock: ReplayClock)
    requires entry.DequeuedBatch?
    ensures ReplayLog(log + [entry], clock)
         == ForceDelivery(ReplayLog(log, clock), entry.queue, entry.ids, clock(|log|))
  {
    ReplayLast(log, entry, clock);
    BatchEntryForces(ReplayLog(log, clock), entry, clock(|log|));
  }

  lemma SingleEntriesReplay<D>(
    log: seq<WalOp<D>>, entries: seq<WalOp<D>>, queue: string, ids: seq<string>, at: Readings, clock: ReplayClock)
    requires entries == DequeuedEntries(queue, ids)
    requires forall i: nat | |log| <= i < |log| + |ids| :: clock(i)(0) == at(i - |log|)
    ensures ReplayLog(log + entries, clock) == ForceDelivery(ReplayLog(log, clock), queue, ids, at)
  {
    ReplayConcat(log, entries, clock);
    DequeuedEntriesReplay(ReplayLog(log, clock), queue, ids, at, clock, |log|);
  }

  lemma BatchReplaysAs<D>(log: seq<WalOp<D>>, entry: WalOp<D>, entries: seq<WalOp<D>>,
                          clock: ReplayClock, dealt: ReplayClock)
    requires entry.DequeuedBatch? && entries == DequeuedEntries(entry.queue, entry.ids)
    requires dealt == DealtOut(clock, |log|)
    ensures ReplayLog(log + [entry], clock) == ReplayLog(log + entries, dealt)
  {
    ReplayReadsItsEntries(log, clock, dealt);
    BatchEntryReplays(log, entry, clock);
    SingleEntriesReplay(log, entries, entry.queue, entry.ids, clock(|log|), dealt);
  }

  lemma DequeuedBatchReplaysAsSingles<D>(log: seq<WalOp<D>>, entry: WalOp<D>, clock: ReplayClock)
    requires entry.DequeuedBatch?
    ensures ReplayLog(log + [entry], clock)
         == ReplayLog(log + DequeuedEntries(entry.queue, entry.ids), DealtOut(clock, |log|))
  {
    BatchReplaysAs(log, entry, DequeuedEntries(entry.queue, entry.ids), clock, DealtOut(clock, |log|));
  }
}
