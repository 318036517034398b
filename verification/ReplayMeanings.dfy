// What replaying one entry of the write-ahead log does to any state.

module ReplayMeanings {
  import opened QueueState
  import opened StorageCalls
  import opened CallMeanings
  import opened Replay

  // The entry is carried out as the call that wrote it was, under the logged ids and the
  // clock of the replay, and whatever it answers is dropped.
  ghost predicate Repeats<D>(s: State<D>, entry: WalOp<D>, at: Readings, t: State<D>, r: Response<D>) {
    match entry
    case CreateQueue(name) => CreateDoes(s, name, t, r)
    case Enqueue(queue, data) => EnqueueDoes(s, queue, [data], t, r)
    case EnqueueBatch(queue, items) => EnqueueDoes(s, queue, items, t, r)
    case Dequeued(queue, id) => DequeueDoes(s, queue, id, at(0), t, r)
    case DequeuedBatch(queue, ids) => DequeueBatchDoes(s, queue, |ids|, Drawing(ids), at, t, r)
    case Ack(id) => AckDoes(s, id, t, r)
    case AckBatch(ids) => AckBatchDoes(s, ids, t, r)
    case Nack(id) => NackDoes(s, id, t, r)
    case ExtendVisibility(id, _) => HeartbeatDoes(s, id, at(0), t, r)
  }

  // Whoever wrote the log and whatever state it is replayed on.
  lemma EntryRepeated<D>(s: State<D>, entry: WalOp<D>, at: Readings) returns (r: Response<D>)
    ensures Repeats(s, entry, at, ReplayEntry(s, entry, at), r)
  {
    EntryIsCall(s, entry, at);
    ExecuteDoes(s, CallOfEntry(entry, at));
    r := Execute(s, CallOfEntry(entry, at), true).response;
  }
}
