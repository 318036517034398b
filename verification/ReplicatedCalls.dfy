// What applying an entry of the replicated log does and answers.

module ReplicatedCalls {
  import opened Wrappers
  import opened QueueState
  import opened StorageCalls
  import opened CallMeanings
  import opened Recovery
  import opened RaftTypes

  // The command does to the engine, and answers, what its name says.
  ghost predicate RequestDoes<D>(s: State<D>, request: ClientRequest<D>, draws: Draws, t: State<D>, r: Response<D>) {
    match request
    case CreateQueue(name) => CreateDoes(s, name, t, r)
    case Enqueue(queue, data) => EnqueueDoes(s, queue, [data], t, r)
    case Dequeue(queue) => DequeueDoes(s, queue, draws.ids(0), draws.at(0), t, r)
    case Ack(id) => AckDoes(s, id, t, r)
    case Nack(id) => NackDoes(s, id, t, r)
    case ExtendVisibility(id, _) => HeartbeatDoes(s, id, draws.at(0), t, r)
    case EnqueueBatch(queue, items) => EnqueueDoes(s, queue, items, t, r)
    case DequeueBatch(queue, count) => DequeueBatchDoes(s, queue, count, draws.ids, draws.at, t, r)
    case AckBatch(ids) => AckBatchDoes(s, ids, t, r)
  }

  // The entry is recorded as last applied; if it holds a command, the command is carried
  // out, and otherwise the engine is left alone.
  ghost predicate Serves<D>(before: Replica<D>, e: Entry<D>, draws: Draws, after: Replica<D>, r: Response<D>) {
    && after.lastApplied == Some(e.logId)
    && match e.payload
       case Normal(request) => RequestDoes(before.state, request, draws, after.state, r)
       case Blank => after.state == before.state && r == Done
       case Membership => after.state == before.state && r == Done
  }

  // One entry after the other is served, and answered in its place.
  ghost predicate ServedThrough<D>(
    trace: seq<Replica<D>>, start: Replica<D>, entries: seq<Entry<D>>, supply: Supply, end: Applied<D>)
  {
    && |trace| == |entries| + 1 && trace[0] == start && trace[|entries|] == end.replica
    && |end.responses| == |entries|
    && forall k | 0 <= k < |entries| ::
         Serves(trace[k], entries[k], supply(entries[k].logId.index), trace[k + 1], end.responses[k])
  }

  lemma OneServed<D>(r: Replica<D>, e: Entry<D>, supply: Supply)
    ensures var one := ApplyOne(r, e, supply);
            && |one.responses| == 1
            && Serves(r, e, supply(e.logId.index), one.replica, one.responses[0])
  {
    if e.payload.Normal? {
      ExecuteDoes(r.state, CallOf(e.payload.request, supply(e.logId.index)));
    }
  }

  // However many entries of whatever kind are applied to whatever node, each of them is
  // served and answered.
  lemma {:induction false} EntriesServed<D>(r: Replica<D>, entries: seq<Entry<D>>, supply: Supply)
    returns (trace: seq<Replica<D>>)
    ensures ServedThrough(trace, r, entries, supply, ApplyEntries(r, entries, supply))
    decreases |entries|
  {
    if entries == [] {
      trace := [r];
    } else {
      var n := |entries| - 1;
      var before := ApplyEntries(r, entries[..n], supply);
      var one := ApplyOne(before.replica, entries[n], supply);
      var shorter := EntriesServed(r, entries[..n], supply);
      OneServed(before.replica, entries[n], supply);
      trace := shorter + [one.replica];
      forall k | 0 <= k < |entries|
        ensures Serves(trace[k], entries[k], supply(entries[k].logId.index), trace[k + 1],
                       (before.responses + one.responses)[k])
      {
        if k < n {
          assert entries[..n][k] == entries[k];
          assert Serves(shorter[k], entries[..n][k], supply(entries[..n][k].logId.index), shorter[k + 1],
                        before.responses[k]);
        }
      }
    }
  }

  // ----- A replica that applies the commands of a run -----

  // The command a call stands for, and what it draws and reads.
  function RequestOf<D>(call: Call<D>): ClientRequest<D> {
    match call
    case CreateQueue(name) => ClientRequest.CreateQueue(name)
    case Enqueue(queue, data) => ClientRequest.Enqueue(queue, data)
    case Dequeue(queue, _, _) => ClientRequest.Dequeue(queue)
    case Ack(id) => ClientRequest.Ack(id)
    case Nack(id) => ClientRequest.Nack(id)
    case ExtendVisibility(id, duration, _) => ClientRequest.ExtendVisibility(id, duration)
    case EnqueueBatch(queue, items) => ClientRequest.EnqueueBatch(queue, items)
    case DequeueBatch(queue, count, _, _) => ClientRequest.DequeueBatch(queue, count)
    case AckBatch(ids) => ClientRequest.AckBatch(ids)
  }

  ghost predicate SuppliesCall<D>(draws: Draws, call: Call<D>) {
    match call
    case Dequeue(_, id, now) => draws.ids(0) == id && draws.at(0) == now
    case DequeueBatch(_, _, draw, at) => draws == Draws(draw, at)
    case ExtendVisibility(_, _, now) => draws.at(0) == now
    case _ => true
  }

  // The run whose calls all append.
  function RunOf<D>(calls: seq<Call<D>>): seq<Event<D>> {
    seq(|calls|, i requires 0 <= i < |calls| => Do(calls[i], true))
  }

  function AnswersOf<D>(calls: seq<Call<D>>): seq<Response<D>> {
    if calls == [] then []
    else
      var n := |calls| - 1;
      AnswersOf(calls[..n]) + [Execute(Run(RunOf(calls[..n])).memory, calls[n], true).response]
  }

  ghost predicate Replicates<D>(entries: seq<Entry<D>>, calls: seq<Call<D>>, supply: Supply) {
    && |entries| == |calls|
    && forall k | 0 <= k < |calls| ::
         && entries[k].payload == Normal(RequestOf(calls[k]))
         && SuppliesCall(supply(entries[k].logId.index), calls[k])
  }

  lemma CommandIsCall<D>(call: Call<D>, draws: Draws)
    requires SuppliesCall(draws, call)
    ensures CallOf(RequestOf(call), draws) == call
  {
  }

  lemma CommandApplied<D>(r: Replica<D>, e: Entry<D>, call: Call<D>, supply: Supply)
    requires e.payload == Normal(RequestOf(call)) && SuppliesCall(supply(e.logId.index), call)
    ensures var o := Execute(r.state, call, true);
            ApplyOne(r, e, supply) == Applied(Replica(o.state, Some(e.logId)), [o.response])
  {
    CommandIsCall(call, supply(e.logId.index));
  }

  lemma RunOfOneMore<D>(calls: seq<Call<D>>, call: Call<D>, longer: seq<Call<D>>)
    requires longer == calls + [call]
    ensures var o := Execute(Run(RunOf(calls)).memory, call, true);
            && Run(RunOf(longer)).memory == o.state
            && AnswersOf(longer) == AnswersOf(calls) + [o.response]
  {
    assert longer[..|calls|] == calls;
    assert RunOf(longer) == RunOf(calls) + [Do(call, true)];
    RunLast(RunOf(calls), Do(call, true));
  }

  // A new replica that applies the commands of some calls has the state of the single
  // server that executes the calls, and gives its answers.
  lemma {:induction false} ReplicaFollowsServer<D>(entries: seq<Entry<D>>, calls: seq<Call<D>>, supply: Supply)
    requires Replicates(entries, calls, supply)
    ensures var applied := ApplyEntries(Replica(Empty(), None), entries, supply);
            applied.replica.state == Run(RunOf(calls)).memory && applied.responses == AnswersOf(calls)
    decreases |calls|
  {
    if calls != [] {
      var n := |calls| - 1;
      var before := ApplyEntries(Replica(Empty(), None), entries[..n], supply);
      ReplicaFollowsServer(entries[..n], calls[..n], supply);
      CommandApplied(before.replica, entries[n], calls[n], supply);
      RunOfOneMore(calls[..n], calls[n], calls);
    }
  }
}
