// The storage object: its maps are changed in place, its log is appended to, and every
// method is proved against the call semantics of StorageCalls.

module MemoryStorage {
  import opened Wrappers
  import opened QueueState
  import opened StorageCalls
  import opened WalFile
  import opened Sweep
  import opened Replay
  import opened Recovery
  import opened Totals
  import opened WellFormedness

  datatype QueueStats = QueueStats(pending: nat, inFlight: nat)

  datatype Stats = Stats(totalInFlight: nat, queues: map<string, QueueStats>)

  function CountNamed<D>(tasks: map<string, InFlightTask<D>>, queue: string): nat {
    |set id | id in tasks && tasks[id].queueName == queue|
  }

  function StatsOf<D>(s: State<D>): Stats {
    Stats(|s.inFlight|,
          map name | name in s.queues :: QueueStats(|s.queues[name]|, CountNamed(s.inFlight, name)))
  }

  // Every queue with the number of its items and of the tasks delivered from it.
  ghost predicate TellsCounts<D>(stats: Stats, queues: map<string, seq<QueueItem<D>>>,
                                 inFlight: map<string, InFlightTask<D>>)
  {
    && stats.totalInFlight == |inFlight| && stats.queues.Keys == queues.Keys
    && forall name | name in queues ::
         && stats.queues[name].pending == |queues[name]|
         && stats.queues[name].inFlight == |set id | id in inFlight && inFlight[id].queueName == name|
  }

  lemma StatsTellCounts<D>(s: State<D>)
    ensures TellsCounts(StatsOf(s), s.queues, s.inFlight)
  {
  }

  function InFlightInStats(): QueueStats -> int {
    (q: QueueStats) => q.inFlight
  }

  // Without a log no append fails.
  function Fates(appended: nat -> bool, volatile: bool): nat -> bool {
    (i: nat) => appended(i) || volatile
  }

  function Readable<E>(r: Result<seq<E>, string>): seq<E> {
    match r
    case Success(entries) => entries
    case Failure(_) => []
  }

  class InMemoryStorage<D> {
    var queues: map<string, seq<QueueItem<D>>>
    var inFlight: map<string, InFlightTask<D>>
    var wal: WalManager?<WalOp<D>>

    function Memory(): State<D>
      reads this
    {
      State(queues, inFlight)
    }

    // The state after the call, its answer and what it added to the log file. Without a
    // log every append counts as a success.
    twostate predicate Performed(new o: Outcome<D>, new r: Response<D>)
      reads this, wal
    {
      && Memory() == o.state
      && r == o.response
      && Logged(o.written)
    }

    twostate predicate Logged(new written: seq<WalOp<D>>)
      reads this, wal
    {
      && wal == old(wal)
      && (wal != null ==> wal.file == old(wal.file) + Render(wal.codec, written))
    }

    constructor ()
      ensures Memory() == Empty() && wal == null
    {
      queues, inFlight, wal := map[], map[], null;
    }

    constructor Over(queues: map<string, seq<QueueItem<D>>>, inFlight: map<string, InFlightTask<D>>,
                     wal: WalManager<WalOp<D>>)
      ensures Memory() == State(queues, inFlight) && this.wal == wal
    {
      this.queues, this.inFlight, this.wal := queues, inFlight, wal;
    }

    method CreateQueue(name: string, appended: bool) returns (r: Response<D>)
      modifies `queues, wal
      ensures Performed(Execute(old(Memory()), Call.CreateQueue(name), appended || wal == null), r)
    {
      if name in queues {
        return Err(QueueExists(name));
      }
      if wal != null {
        var ok := wal.Append(WalOp.CreateQueue(name), appended);
        if !ok {
          return Err(WalFailed);
        }
      }
      queues := queues[name := []];
      return Done;
    }

    method Queue(queue: string, data: D, appended: bool) returns (r: Response<D>)
      modifies `queues, wal
      ensures Performed(Execute(old(Memory()), Call.Enqueue(queue, data), appended || wal == null), r)
    {
      if queue !in queues {
        return Err(QueueNotFound(queue));
      }
      if wal != null {
        var ok := wal.Append(WalOp.Enqueue(queue, data), appended);
        if !ok {
          return Err(WalFailed);
        }
      }
      queues := queues[queue := queues[queue] + [QueueItem(data, 0)]];
      return Done;
    }

    method Dequeue(queue: string, id: string, now: int, appended: bool) returns (r: Response<D>)
      modifies `queues, `inFlight, wal
      ensures Performed(Execute(old(Memory()), Call.Dequeue(queue, id, now), appended || wal == null), r)
    {
      if queue !in queues {
        return Err(QueueNotFound(queue));
      }
      if queues[queue] == [] {
        return OneTask(None);
      }
      var item := queues[queue][0];
      queues := queues[queue := queues[queue][1..]];
      if wal != null {
        var ok := wal.Append(WalOp.Dequeued(queue, id), appended);
        if !ok {
          queues := queues[queue := [item] + queues[queue]];
          assert [item] + old(queues)[queue][1..] == old(queues)[queue];
          assert queues == old(queues);
          return Err(WalFailed);
        }
      }
      var task := InFlightTask(id, item.data, now, queue, item.attempts + 1);
      inFlight := inFlight[task.id := task];
      return OneTask(Some(task));
    }

    method Ack(id: string, appended: bool) returns (r: Response<D>)
      modifies `inFlight, wal
      ensures Performed(Execute(old(Memory()), Call.Ack(id), appended || wal == null), r)
    {
      if id !in inFlight {
        return Err(TaskNotFound);
      }
      inFlight := inFlight - {id};
      if wal != null {
        var ok := wal.Append(WalOp.Ack(id), appended);
        if !ok {
          return Err(WalFailed);
        }
      }
      return Done;
    }

    method Nack(id: string, appended: bool) returns (r: Response<D>)
      modifies `queues, `inFlight, wal
      ensures Performed(Execute(old(Memory()), Call.Nack(id), appended || wal == null), r)
    {
      if id !in inFlight {
        return Err(TaskNotFound);
      }
      var task := inFlight[id];
      inFlight := inFlight - {id};
      if wal != null {
        var ok := wal.Append(WalOp.Nack(id), appended);
        if !ok {
          inFlight := inFlight[id := task];
          assert inFlight == old(inFlight);
          return Err(WalFailed);
        }
      }
      if task.attempts >= MAX_ATTEMPTS {
        var dlq := DlqName(task.queueName);
        if dlq !in queues {
          queues := queues[dlq := []];
        }
        queues := queues[dlq := queues[dlq] + [QueueItem(task.data, task.attempts)]];
      } else if task.queueName in queues {
        queues := queues[task.queueName := [QueueItem(task.data, task.attempts)] + queues[task.queueName]];
      } else {
        return Err(OriginalQueueNotFound(task.queueName));
      }
      return Done;
    }

    method ExtendVisibility(id: string, duration: nat, now: int, appended: bool) returns (r: Response<D>)
      modifies `inFlight, wal
      ensures Performed(Execute(old(Memory()), Call.ExtendVisibility(id, duration, now), appended || wal == null), r)
    {
      if id !in inFlight {
        return Err(TaskNotFound);
      }
      if wal != null {
        var ok := wal.Append(WalOp.ExtendVisibility(id, duration), appended);
        if !ok {
          return Err(WalFailed);
        }
      }
      inFlight := inFlight[id := inFlight[id].(consumedAt := now)];
      return Done;
    }

    method QueueBatch(queue: string, items: seq<D>, appended: bool) returns (r: Response<D>)
      modifies `queues, wal
      ensures Performed(Execute(old(Memory()), Call.EnqueueBatch(queue, items), appended || wal == null), r)
    {
      if queue !in queues {
        return Err(QueueNotFound(queue));
      }
      if wal != null {
        var ok := wal.Append(WalOp.EnqueueBatch(queue, items), appended);
        if !ok {
          return Err(WalFailed);
        }
      }
      assert FreshAll(items[..0]) == [];
      assert queues[queue] + [] == queues[queue];
      for i := 0 to |items|
        modifies `queues
        invariant queue in queues
        invariant queues == old(queues)[queue := old(queues)[queue] + FreshAll(items[..i])]
      {
        queues := queues[queue := queues[queue] + [QueueItem(items[i], 0)]];
        assert old(queues)[queue] + FreshAll(items[..i + 1])
            == old(queues)[queue] + FreshAll(items[..i]) + [QueueItem(items[i], 0)];
      }
      assert items[..|items|] == items;
      return Done;
    }

    method DequeueBatch(queue: string, count: nat, draw: nat -> string, at: nat -> int, appended: bool)
      returns (r: Response<D>)
      modifies `queues, `inFlight, wal
      ensures Performed(Execute(old(Memory()), Call.DequeueBatch(queue, count, draw, at), appended || wal == null), r)
    {
      if queue !in queues {
        return Err(QueueNotFound(queue));
      }
      if queues[queue] == [] {
        return ManyTasks([]);
      }
      ghost var stock := queues[queue];
      var popped := PopUpTo(queue, count);
      if popped == [] {
        assert stock[0..] == stock;
        return ManyTasks([]);
      }
      var ids := DrawIds(|popped|, draw);
      if wal != null {
        var ok := wal.Append(WalOp.DequeuedBatch(queue, ids), appended);
        if !ok {
          PushBackFront(queue, popped);
          assert popped + stock[|popped|..] == stock;
          assert queues == old(queues);
          return Err(WalFailed);
        }
      }
      var tasks := LendAll(queue, popped, ids, at);
      return ManyTasks(tasks);
    }

    // Pops `count` items, fewer when the queue runs dry.
    method PopUpTo(queue: string, count: nat) returns (popped: seq<QueueItem<D>>)
      requires queue in queues
      modifies `queues
      ensures |popped| == BatchSize(old(Memory()), queue, count)
      ensures popped == old(queues)[queue][..|popped|]
      ensures queues == old(queues)[queue := old(queues)[queue][|popped|..]]
    {
      ghost var stock := queues[queue];
      popped := [];
      while |popped| < count && queues[queue] != []
        invariant queue in queues && |popped| <= BatchSize(old(Memory()), queue, count)
        invariant popped == stock[..|popped|]
        invariant queues == old(queues)[queue := stock[|popped|..]]
        decreases count - |popped|
      {
        popped, queues := popped + [queues[queue][0]], queues[queue := queues[queue][1..]];
      }
    }

    static method DrawIds(n: nat, draw: nat -> string) returns (ids: seq<string>)
      ensures ids == FirstDraws(n, draw)
    {
      ids := [];
      for i := 0 to n
        invariant |ids| == i && forall j: nat | j < i :: ids[j] == draw(j)
      {
        ids := ids + [draw(i)];
      }
    }

    // Records a popped batch as in flight, one task after the other.
    method LendAll(queue: string, popped: seq<QueueItem<D>>, ids: seq<string>, at: nat -> int)
      returns (tasks: seq<InFlightTask<D>>)
      requires |ids| == |popped|
      modifies `inFlight
      ensures tasks == LentAll(popped, queue, ids, at)
      ensures inFlight == Insert(old(inFlight), tasks)
    {
      tasks := [];
      for i := 0 to |popped|
        invariant tasks == LentAll(popped[..i], queue, ids[..i], at)
        invariant inFlight == Insert(old(inFlight), tasks)
      {
        var task := InFlightTask(ids[i], popped[i].data, at(i), queue, popped[i].attempts + 1);
        inFlight := inFlight[ids[i] := task];
        assert (tasks + [task])[..i] == tasks;
        tasks := tasks + [task];
      }
      assert popped[..|popped|] == popped && ids[..|popped|] == ids;
    }

    // The compensation of a failed batch: the last item popped goes back first.
    method PushBackFront(queue: string, popped: seq<QueueItem<D>>)
      requires queue in queues
      modifies `queues
      ensures queues == old(queues)[queue := popped + old(queues)[queue]]
    {
      var left := |popped|;
      assert popped[left..] + queues[queue] == queues[queue];
      while left > 0
        invariant 0 <= left <= |popped| && queue in queues
        invariant queues == old(queues)[queue := popped[left..] + old(queues)[queue]]
      {
        left := left - 1;
        assert popped[left..] == [popped[left]] + popped[left + 1..];
        assert popped[left..] + old(queues)[queue] == [popped[left]] + (popped[left + 1..] + old(queues)[queue]);
        queues := queues[queue := [popped[left]] + queues[queue]];
      }
    }

    method AckBatch(ids: seq<string>, appended: bool) returns (r: Response<D>)
      modifies `inFlight, wal
      ensures Performed(Execute(old(Memory()), Call.AckBatch(ids), appended || wal == null), r)
    {
      var missing := FindMissing(ids);
      if missing != [] {
        return Err(TasksNotFound(missing));
      }
      if wal != null {
        var ok := wal.Append(WalOp.AckBatch(ids), appended);
        if !ok {
          return Err(WalFailed);
        }
      }
      RemoveAll(ids);
      return Done;
    }

    method FindMissing(ids: seq<string>) returns (missing: seq<string>)
      ensures missing == Missing(inFlight, ids)
    {
      missing := [];
      for i := 0 to |ids|
        invariant missing == Missing(inFlight, ids[..i])
      {
        assert ids[..i + 1][..i] == ids[..i];
        if ids[i] !in inFlight {
          missing := missing + [ids[i]];
        }
      }
      assert ids[..|ids|] == ids;
    }

    method RemoveAll(ids: seq<string>)
      modifies `inFlight
      ensures inFlight == old(inFlight) - IdSet(ids)
    {
      for i := 0 to |ids|
        invariant inFlight == old(inFlight) - IdSet(ids[..i])
      {
        assert ids[..i + 1] == ids[..i] + [ids[i]];
        inFlight := inFlight - {ids[i]};
      }
      assert ids[..|ids|] == ids;
    }

    // Rebuilds a storage from its log file. A log that cannot be read counts as empty.
    static method NewPersistent(codec: Codec<WalOp<D>>, file: string, readable: nat, clock: ReplayClock)
      returns (storage: InMemoryStorage<D>)
      ensures fresh(storage) && storage.wal != null && fresh(storage.wal)
      ensures storage.wal.codec == codec && storage.wal.file == file
      ensures storage.Memory() == ReplayLog(Readable(ReadBack(codec, file, readable)), clock)
    {
      var result := WalManager.Replay(codec, file, readable);
      var entries := match result case Success(all) => all case Failure(_) => [];
      var replayed := new InMemoryStorage<D>();
      replayed.ReplayEntries(entries, clock);
      var manager := new WalManager(codec, file);
      storage := new InMemoryStorage.Over(replayed.queues, replayed.inFlight, manager);
    }

    method ReplayEntries(entries: seq<WalOp<D>>, clock: ReplayClock)
      requires wal == null && Memory() == Empty()
      modifies `queues, `inFlight
      ensures Memory() == ReplayLog(entries, clock)
    {
      for i := 0 to |entries|
        invariant Memory() == ReplayLog(entries[..i], clock)
      {
        ReplayOne(entries[i], clock(i));
        assert entries[..i + 1][..i] == entries[..i];
      }
      assert entries[..|entries|] == entries;
    }

    // One turn of the replay loop; the results of the calls are discarded.
    method ReplayOne(entry: WalOp<D>, at: Readings)
      requires wal == null
      modifies `queues, `inFlight
      ensures Memory() == ReplayEntry(old(Memory()), entry, at)
    {
      match entry {
        case CreateQueue(name) => var _ := CreateQueue(name, true);
        case Enqueue(queue, data) => var _ := Queue(queue, data, true);
        case Dequeued(queue, id) => ForceOne(queue, [id], at);
        case Ack(id) => var _ := Ack(id, true);
        case AckBatch(ids) => var _ := AckBatch(ids, true);
        case Nack(id) => var _ := Nack(id, true);
        case ExtendVisibility(id, _) => var _ := ExtendVisibility(id, 0, at(0), true);
        case EnqueueBatch(queue, items) => var _ := QueueBatch(queue, items, true);
        case DequeuedBatch(queue, ids) => ForceOne(queue, ids, at);
      }
    }

    // Delivers one item under each logged id, skipping the ids left when the queue is empty.
    method ForceOne(queue: string, ids: seq<string>, at: Readings)
      requires wal == null
      modifies `queues, `inFlight
      ensures Memory() == ForceDelivery(old(Memory()), queue, ids, at)
    {
      if queue !in queues {
        return;
      }
      ghost var s := Memory();
      assert Take(s, queue, [], at) == s by {
        assert s.queues[queue][0..] == s.queues[queue];
        assert LentAll(s.queues[queue][..0], queue, [], at) == [];
      }
      for i := 0 to |ids|
        invariant queue in queues
        invariant Memory() == Take(s, queue, ids[..Min(i, |s.queues[queue]|)], at)
      {
        if queues[queue] != [] {
          TakeOneMore(s, queue, ids, i, at);
          var item := queues[queue][0];
          queues := queues[queue := queues[queue][1..]];
          var task := InFlightTask(ids[i], item.data, at(i), queue, item.attempts + 1);
          inFlight := inFlight[task.id := task];
        }
      }
    }

    // The queues and in-flight tasks as plain maps.
    method GetSnapshotData() returns (queues: map<string, seq<QueueItem<D>>>, inFlight: map<string, InFlightTask<D>>)
      ensures State(queues, inFlight) == Memory()
    {
      queues, inFlight := this.queues, this.inFlight;
    }

    method RestoreFromSnapshot(queues: map<string, seq<QueueItem<D>>>, inFlight: map<string, InFlightTask<D>>)
      modifies this`queues, this`inFlight
      ensures Memory() == State(queues, inFlight)
    {
      RestoreQueues(queues);
      RestoreInFlight(inFlight);
    }

    method RestoreQueues(saved: map<string, seq<QueueItem<D>>>)
      modifies `queues
      ensures queues == saved
    {
      queues := map[];
      var left := saved.Keys;
      while left != {}
        invariant left <= saved.Keys
        invariant queues == saved - left
        decreases |left|
      {
        var name :| name in left;
        queues := queues[name := saved[name]];
        left := left - {name};
      }
    }

    method RestoreInFlight(saved: map<string, InFlightTask<D>>)
      modifies `inFlight
      ensures inFlight == saved
    {
      inFlight := map[];
      var left := saved.Keys;
      while left != {}
        invariant left <= saved.Keys
        invariant inFlight == saved - left
        decreases |left|
      {
        var id :| id in left;
        inFlight := inFlight[id := saved[id]];
        left := left - {id};
      }
    }

    // order is the order in which the in-flight map happens to be iterated over.
    method ScanExpiredTasks(timeout: nat, now: int, order: seq<string>) returns (expired: seq<string>)
      requires Enumerates(order, inFlight.Keys)
      ensures expired == Scan(inFlight, order, timeout, now)
    {
      expired := [];
      assert forall id | id in order :: id in inFlight;
      for i := 0 to |order|
        invariant forall id | id in order[..i] :: id in inFlight
        invariant expired == Scan(inFlight, order[..i], timeout, now)
      {
        assert order[..i + 1] == order[..i] + [order[i]];
        assert order[..i + 1][..i] == order[..i];
        if now - inFlight[order[i]].consumedAt > timeout * NANOS_PER_SECOND {
          expired := expired + [order[i]];
        }
      }
      assert order[..|order|] == order;
    }

    method CleanupExpiredTasks(timeout: nat, now: int, order: seq<string>, appended: nat -> bool) returns (count: nat)
      requires Enumerates(order, inFlight.Keys)
      modifies `queues, `inFlight, wal
      ensures var w := NackAll(old(Memory()), Scan(old(inFlight), order, timeout, now),
                               Fates(appended, old(wal) == null));
              Memory() == w.state && count == w.count && Logged(w.written)
    {
      ghost var start, ok := Memory(), Fates(appended, wal == null);
      var expired := ScanExpiredTasks(timeout, now, order);
      count := SweepAll(expired, appended, start, ok);
    }

    // The nacks of a cleanup, one after the other.
    method SweepAll(expired: seq<string>, appended: nat -> bool, ghost start: State<D>, ghost ok: nat -> bool)
      returns (count: nat)
      requires Memory() == start && ok == Fates(appended, wal == null)
      modifies `queues, `inFlight, wal
      ensures var w := NackAll(start, expired, ok);
              Memory() == w.state && count == w.count && Logged(w.written)
    {
      count := 0;
      ghost var file := if wal == null then "" else wal.file;
      ghost var w := NackAll(start, [], ok);
      for i := 0 to |expired|
        invariant w == NackAll(start, expired[..i], ok) && wal == old(wal)
        invariant Memory() == w.state && count == w.count
        invariant wal != null ==> wal.file == file + Render(wal.codec, w.written)
      {
        NackAllNext(start, expired, i, ok);
        var swept := SweepOne(expired[i], appended(i), w, file);
        w := NackOne(w, expired[i], ok(i));
        if swept {
          count := count + 1;
        }
      }
      assert expired[..|expired|] == expired;
    }

    // One nack of a cleanup, after the nacks summed up in `before`; the log file held
    // `file` before the cleanup.
    method SweepOne(id: string, appended: bool, ghost before: Swept<D>, ghost file: string) returns (swept: bool)
      requires Memory() == before.state
      requires wal != null ==> wal.file == file + Render(wal.codec, before.written)
      modifies `queues, `inFlight, wal
      ensures var w := NackOne(before, id, appended || wal == null);
              && Memory() == w.state && w.count == before.count + (if swept then 1 else 0)
              && wal == old(wal)
              && (wal != null ==> wal.file == file + Render(wal.codec, w.written))
    {
      ghost var fate := appended || wal == null;
      var r := Nack(id, appended);
      NackOneWrites(before, id, fate);
      if wal != null {
        RenderOnto(wal.codec, file, before.written, Execute(before.state, Call.Nack(id), fate).written);
      }
      return r == Done;
    }

    method GetStats() returns (stats: Stats)
      ensures stats == StatsOf(Memory())
      ensures TellsCounts(stats, queues, inFlight)
    {
      var total := |inFlight|;
      var queueStats := map[];
      var names := queues.Keys;
      while names != {}
        invariant names <= queues.Keys
        invariant queueStats == StatsOf(Memory()).queues - names
        decreases |names|
      {
        var name :| name in names;
        queueStats := queueStats[name := QueueStats(|queues[name]|, CountNamed(inFlight, name))];
        names := names - {name};
      }
      StatsTellCounts(Memory());
      return Stats(total, queueStats);
    }
  }

  // ----- Statistics add up -----

  ghost function NamedIn<D>(tasks: map<string, InFlightTask<D>>, names: set<string>): set<string> {
    set id | id in tasks && tasks[id].queueName in names
  }

  lemma NamedInSplit<D>(tasks: map<string, InFlightTask<D>>, names: set<string>, name: string)
    requires name in names
    ensures |NamedIn(tasks, names)| == CountNamed(tasks, name) + |NamedIn(tasks, names - {name})|
  {
    var named := set id | id in tasks && tasks[id].queueName == name;
    var others := NamedIn(tasks, names - {name});
    assert NamedIn(tasks, names) == named + others && named !! others;
  }

  lemma {:induction false} CountsAddUp<D>(tasks: map<string, InFlightTask<D>>, stats: map<string, QueueStats>)
    requires forall name | name in stats :: stats[name].inFlight == CountNamed(tasks, name)
    ensures Total(stats, InFlightInStats()) == |NamedIn(tasks, stats.Keys)|
    decreases |stats|
  {
    if stats.Keys == {} {
      assert NamedIn(tasks, stats.Keys) == {};
    } else {
      var name :| name in stats;
      CountsAddUp(tasks, stats - {name});
      TotalRemove(stats, name, InFlightInStats());
      NamedInSplit(tasks, stats.Keys, name);
      assert (stats - {name}).Keys == stats.Keys - {name};
    }
  }

  // In every well-formed state the in-flight counts of the queues sum to the total.
  lemma StatsAddUp<D>(s: State<D>)
    requires WellFormed(s)
    ensures Total(StatsOf(s).queues, InFlightInStats()) == StatsOf(s).totalInFlight
  {
    CountsAddUp(s.inFlight, StatsOf(s).queues);
    forall id | id in s.inFlight ensures s.inFlight[id].queueName in s.queues {
      assert WellFormedTask(s, id, s.inFlight[id]);
    }
    assert NamedIn(s.inFlight, StatsOf(s).queues.Keys) == s.inFlight.Keys;
    assert |s.inFlight.Keys| == |s.inFlight|;
  }

  // No reference dangles: the counts add up and no nack misses its queue.
  ghost predicate NothingDangles<D>(s: State<D>) {
    && Total(StatsOf(s).queues, InFlightInStats()) == StatsOf(s).totalInFlight
    && forall id, appended :: !QueueLost(s, Call.Nack(id), appended)
  }

  lemma WellFormedDangles<D>(s: State<D>)
    requires WellFormed(s)
    ensures NothingDangles(s)
  {
    StatsAddUp(s);
    forall id, appended ensures !QueueLost(s, Call.Nack(id), appended) {
      OriginalQueueIsFound(s, Call.Nack(id), appended);
    }
  }

  // In every run, even with reused task ids, failing appends and restarts, and after
  // replaying any log at all.
  lemma NothingDanglesInRuns<D>(events: seq<Event<D>>, log: seq<WalOp<D>>, clock: ReplayClock)
    ensures NothingDangles(Run(events).memory)
    ensures NothingDangles(ReplayLog(log, clock))
  {
    RunWellFormed(events);
    WellFormedDangles(Run(events).memory);
    AnyReplayWellFormed(log, clock);
    WellFormedDangles(ReplayLog(log, clock));
  }

  // ----- Recovery, from the text of the log file -----

  // The file of a run grows by what each call writes, as the methods above say of theirs.
  lemma FileFollowsRun<D>(events: seq<Event<D>>, call: Call<D>, appended: bool, codec: Codec<WalOp<D>>)
    ensures Render(codec, Run(events + [Do(call, appended)]).log)
         == Render(codec, Run(events).log) + Render(codec, Execute(Run(events).memory, call, appended).written)
  {
    RunLast(events, Do(call, appended));
    RenderConcat(codec, Run(events).log, Execute(Run(events).memory, call, appended).written);
  }

  // A storage opened on the file of a run, all of it readable, has the queues of the
  // run's memory and its in-flight tasks plus exactly those whose ack was lost.
  lemma RecoveryFromFile<D>(events: seq<Event<D>>, codec: Codec<WalOp<D>>, readable: nat, clock: ReplayClock)
    requires FreshIds(events) && AllLawful(codec, Run(events).log)
    requires readable >= |Run(events).log|
    ensures var file := Render(codec, Run(events).log);
            Simulates(Run(events).memory, ReplayLog(Readable(ReadBack(codec, file, readable)), clock), LostAcks(events))
  {
    var log := Run(events).log;
    ReadBackRendered(codec, log, readable);
    assert UpTo(log, readable) == log;
    LostAckSimulation(events, clock);
  }

  // A reader that stops early still recovers a state the run went through.
  lemma RecoveryFromPartOfFile<D>(events: seq<Event<D>>, codec: Codec<WalOp<D>>, readable: nat, clock: ReplayClock)
    returns (j: nat)
    requires NoAckFails(events) && AllLawful(codec, Run(events).log)
    ensures j <= |events|
    ensures var file := Render(codec, Run(events).log);
            SameUpToStamps(Run(events[..j]).memory, ReplayLog(Readable(ReadBack(codec, file, readable)), clock))
  {
    var log := Run(events).log;
    ReadBackRendered(codec, log, readable);
    var k := |UpTo(log, readable)|;
    assert UpTo(log, readable) == log[..k];
    if k == 0 {
      j := 0;
    } else {
      j := PrefixRecovery(events, clock, k);
    }
  }

  // One line that is neither blank nor an entry, and the storage starts empty.
  lemma UnreadableLineLosesAll<D>(codec: Codec<WalOp<D>>, file: string, readable: nat, clock: ReplayClock)
    requires exists line :: line in UpTo(Lines(file), readable) && !Blank(line) && codec.decode(line).Failure?
    ensures ReplayLog(Readable(ReadBack(codec, file, readable)), clock) == Empty()
  {
    ReadableIffAllLinesDecode(codec, file, readable);
  }
}
