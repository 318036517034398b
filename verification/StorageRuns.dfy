// The storage object and its log file over a whole run.

module StorageRuns {
  import opened QueueState
  import opened StorageCalls
  import opened Replay
  import opened Recovery
  import opened WalFile
  import opened MemoryStorage

  method Perform<D>(storage: InMemoryStorage<D>, call: Call<D>, appended: bool) returns (r: Response<D>)
    requires storage.wal != null
    modifies storage`queues, storage`inFlight, storage.wal
    ensures storage.wal == old(storage.wal)
    ensures var o := Execute(old(storage.Memory()), call, appended);
            && storage.Memory() == o.state && r == o.response
            && storage.wal.file == old(storage.wal.file) + Render(storage.wal.codec, o.written)
  {
    match call {
      case CreateQueue(name) => r := storage.CreateQueue(name, appended);
      case Enqueue(queue, data) => r := storage.Queue(queue, data, appended);
      case Dequeue(queue, id, now) => r := storage.Dequeue(queue, id, now, appended);
      case Ack(id) => r := storage.Ack(id, appended);
      case Nack(id) => r := storage.Nack(id, appended);
      case ExtendVisibility(id, duration, now) => r := storage.ExtendVisibility(id, duration, now, appended);
      case EnqueueBatch(queue, items) => r := storage.QueueBatch(queue, items, appended);
      case DequeueBatch(queue, count, draw, at) => r := storage.DequeueBatch(queue, count, draw, at, appended);
      case AckBatch(ids) => r := storage.AckBatch(ids, appended);
    }
  }

  // Reopening the file of a log replays the log.
  ghost predicate Restores<D>(log: seq<WalOp<D>>, codec: Codec<WalOp<D>>, readable: nat, clock: ReplayClock) {
    ReplayLog(Readable(ReadBack(codec, Render(codec, log), readable)), clock) == ReplayLog(log, clock)
  }

  // So it does during a run whose whole log can be read.
  lemma FileRestores<D>(before: seq<Event<D>>, events: seq<Event<D>>, codec: Codec<WalOp<D>>, readable: nat,
                        clock: ReplayClock)
    requires before <= events && CanBeRead(events, codec, readable)
    ensures Restores(Run(before).log, codec, readable, clock)
  {
    var log := Run(before).log;
    assert events[..|before|] == before;
    LogOfPrefix(events, |before|);
    assert forall i | 0 <= i < |log| :: log[i] == Run(events).log[i];
    ReadBackRendered(codec, log, readable);
    assert UpTo(log, readable) == log;
  }

  ghost predicate CanBeRead<D>(events: seq<Event<D>>, codec: Codec<WalOp<D>>, readable: nat) {
    AllLawful(codec, Run(events).log) && readable >= |Run(events).log|
  }

  // The storage object stands where the run does.
  ghost predicate Follows<D>(storage: InMemoryStorage<D>, events: seq<Event<D>>, codec: Codec<WalOp<D>>)
    reads storage, storage.wal
  {
    && storage.wal != null && storage.wal.codec == codec
    && storage.Memory() == Run(events).memory
    && storage.wal.file == Render(codec, Run(events).log)
  }

  // One call, or one restart on the same file.
  method TakeStep<D>(storage: InMemoryStorage<D>, ghost before: seq<Event<D>>, e: Event<D>,
                     ghost events: seq<Event<D>>, codec: Codec<WalOp<D>>, readable: nat)
    returns (next: InMemoryStorage<D>)
    requires Follows(storage, before, codec)
    requires before <= events && CanBeRead(events, codec, readable)
    modifies storage`queues, storage`inFlight, storage.wal
    ensures if e.Restart? then fresh(next) && next.wal != null && fresh(next.wal)
            else next == storage && next.wal == old(storage.wal)
    ensures Follows(next, before + [e], codec)
  {
    RunLast(before, e);
    match e {
      case Do(call, appended) =>
        var _ := Perform(storage, call, appended);
        FileGrows(before, e, codec);
        next := storage;
      case Restart(clock) =>
        FileRestores(before, events, codec, readable, clock);
        next := InMemoryStorage<D>.NewPersistent(codec, storage.wal.file, readable, clock);
    }
  }

  // A storage that performs the calls of a run, with the append outcomes of the run, and is
  // reopened on its own file at every restart, has the memory and the file of the run.
  method Drive<D>(events: seq<Event<D>>, codec: Codec<WalOp<D>>, readable: nat, start: ReplayClock)
    returns (storage: InMemoryStorage<D>)
    requires CanBeRead(events, codec, readable)
    ensures storage.wal != null && storage.wal.codec == codec
    ensures storage.Memory() == Run(events).memory
    ensures storage.wal.file == Render(codec, Run(events).log)
  {
    storage := InMemoryStorage<D>.NewPersistent(codec, "", readable, start);
    ghost var done: seq<Event<D>> := [];
    for i := 0 to |events|
      invariant fresh(storage) && storage.wal != null && fresh(storage.wal)
      invariant done == events[..i] && Follows(storage, done, codec)
    {
      storage := TakeStep(storage, done, events[i], events, codec, readable);
      done := done + [events[i]];
    }
    assert done == events;
  }

  lemma FileGrows<D>(events: seq<Event<D>>, e: Event<D>, codec: Codec<WalOp<D>>)
    requires e.Do?
    ensures Run(events + [e]).memory == Execute(Run(events).memory, e.call, e.appended).state
    ensures Render(codec, Run(events + [e]).log)
         == Render(codec, Run(events).log)
            + Render(codec, Execute(Run(events).memory, e.call, e.appended).written)
  {
    RunLast(events, e);
    FileFollowsRun(events, e.call, e.appended, codec);
  }
}
