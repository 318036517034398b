// What each of the nine calls does and answers, field by field, and which error it gives.

module CallMeanings {
  import opened Wrappers
  import opened QueueState
  import opened StorageCalls

  // ----- What stays as it was -----

  ghost predicate SameQueuesBut<D>(s: State<D>, t: State<D>, queue: string) {
    forall q | q != queue ::
      (q in s.queues <==> q in t.queues) && (q in s.queues ==> t.queues[q] == s.queues[q])
  }

  ghost predicate SameTasksBut<D>(s: State<D>, t: State<D>, id: string) {
    forall i | i != id ::
      (i in s.inFlight <==> i in t.inFlight) && (i in s.inFlight ==> t.inFlight[i] == s.inFlight[i])
  }

  // ----- The calls, from state s to state t with answer r -----

  ghost predicate CreateDoes<D>(s: State<D>, name: string, t: State<D>, r: Response<D>) {
    if name in s.queues then t == s && r == Err(QueueExists(name))
    else
      && r == Done
      && name in t.queues && t.queues[name] == []
      && SameQueuesBut(s, t, name) && t.inFlight == s.inFlight
  }

  // The new messages are at the back, in order, never delivered.
  ghost predicate EnqueueDoes<D>(s: State<D>, queue: string, items: seq<D>, t: State<D>, r: Response<D>) {
    if queue !in s.queues then t == s && r == Err(QueueNotFound(queue))
    else
      && r == Done
      && queue in t.queues && |t.queues[queue]| == |s.queues[queue]| + |items|
      && s.queues[queue] <= t.queues[queue]
      && (forall i | 0 <= i < |items| :: t.queues[queue][|s.queues[queue]| + i] == QueueItem(items[i], 0))
      && SameQueuesBut(s, t, queue) && t.inFlight == s.inFlight
  }

  // The task hands out the item, with one delivery more.
  ghost predicate HandsOut<D>(task: InFlightTask<D>, item: QueueItem<D>, queue: string, id: string, now: int) {
    && task.id == id && task.data == item.data && task.consumedAt == now
    && task.queueName == queue && task.attempts == item.attempts + 1
  }

  ghost predicate DequeueDoes<D>(s: State<D>, queue: string, id: string, now: int, t: State<D>, r: Response<D>) {
    if queue !in s.queues then t == s && r == Err(QueueNotFound(queue))
    else if s.queues[queue] == [] then t == s && r == OneTask(None)
    else
      && r.OneTask? && r.task.Some? && HandsOut(r.task.value, s.queues[queue][0], queue, id, now)
      && id in t.inFlight && t.inFlight[id] == r.task.value && SameTasksBut(s, t, id)
      && queue in t.queues && t.queues[queue] == s.queues[queue][1..] && SameQueuesBut(s, t, queue)
  }

  ghost predicate LastWith<D>(tasks: seq<InFlightTask<D>>, i: nat, id: string) {
    i < |tasks| && tasks[i].id == id && forall j | i < j < |tasks| :: tasks[j].id != id
  }

  // Under this id there is the last task handed out with it, or what there was before.
  ghost predicate InFlightAt<D>(before: map<string, InFlightTask<D>>, tasks: seq<InFlightTask<D>>,
                                after: map<string, InFlightTask<D>>, id: string)
  {
    if exists i: nat :: LastWith(tasks, i, id) then
      id in after && exists i: nat :: LastWith(tasks, i, id) && after[id] == tasks[i]
    else
      && (forall i | 0 <= i < |tasks| :: tasks[i].id != id)
      && (id in before <==> id in after) && (id in before ==> after[id] == before[id])
  }

  ghost predicate DequeueBatchDoes<D>(s: State<D>, queue: string, count: nat, draw: nat -> string, at: nat -> int,
                                      t: State<D>, r: Response<D>)
  {
    if queue !in s.queues then t == s && r == Err(QueueNotFound(queue))
    else
      var items := s.queues[queue];
      && r.ManyTasks? && |r.tasks| == (if count < |items| then count else |items|)
      && (forall i | 0 <= i < |r.tasks| :: HandsOut(r.tasks[i], items[i], queue, draw(i), at(i)))
      && (forall id :: InFlightAt(s.inFlight, r.tasks, t.inFlight, id))
      && queue in t.queues && t.queues[queue] == items[|r.tasks|..] && SameQueuesBut(s, t, queue)
  }

  ghost predicate AckDoes<D>(s: State<D>, id: string, t: State<D>, r: Response<D>) {
    if id !in s.inFlight then t == s && r == Err(TaskNotFound)
    else
      && r == Done
      && id !in t.inFlight && SameTasksBut(s, t, id) && t.queues == s.queues
  }

  // Five deliveries or more: the back of the dead-letter queue, which there may be none of
  // yet. Fewer: the front of the queue the task came from.
  ghost predicate NackDoes<D>(s: State<D>, id: string, t: State<D>, r: Response<D>) {
    if id !in s.inFlight then t == s && r == Err(TaskNotFound)
    else
      var task := s.inFlight[id];
      var item := QueueItem(task.data, task.attempts);
      && id !in t.inFlight && SameTasksBut(s, t, id)
      && if task.attempts >= 5 then
           var dlq := task.queueName + "_dlq";
           && r == Done
           && dlq in t.queues && t.queues[dlq] == (if dlq in s.queues then s.queues[dlq] else []) + [item]
           && SameQueuesBut(s, t, dlq)
         else if task.queueName in s.queues then
           && r == Done
           && task.queueName in t.queues && t.queues[task.queueName] == [item] + s.queues[task.queueName]
           && SameQueuesBut(s, t, task.queueName)
         else
           r == Err(OriginalQueueNotFound(task.queueName)) && t.queues == s.queues
  }

  ghost predicate HeartbeatDoes<D>(s: State<D>, id: string, now: int, t: State<D>, r: Response<D>) {
    if id !in s.inFlight then t == s && r == Err(TaskNotFound)
    else
      && r == Done
      && id in t.inFlight && t.inFlight[id] == s.inFlight[id].(consumedAt := now)
      && SameTasksBut(s, t, id) && t.queues == s.queues
  }

  // The absent ones among the ids, in their order and as often as they occur.
  ghost predicate AreAbsent<D>(absent: seq<string>, ids: seq<string>, tasks: map<string, InFlightTask<D>>) {
    exists at: seq<nat> :: AbsentAt(at, absent, ids, tasks)
  }

  ghost predicate AbsentAt<D>(
    at: seq<nat>, absent: seq<string>, ids: seq<string>, tasks: map<string, InFlightTask<D>>)
  {
    && |at| == |absent|
    && (forall k | 0 <= k < |at| :: at[k] < |ids| && absent[k] == ids[at[k]])
    && (forall j, k | 0 <= j < k < |at| :: at[j] < at[k])
    && forall p: nat | p < |ids| :: p in at <==> ids[p] !in tasks
  }

  ghost predicate AckBatchDoes<D>(s: State<D>, ids: seq<string>, t: State<D>, r: Response<D>) {
    if forall id | id in ids :: id in s.inFlight then
      && r == Done && t.queues == s.queues
      && (forall id :: id in t.inFlight <==> id in s.inFlight && id !in ids)
      && forall id | id in t.inFlight :: t.inFlight[id] == s.inFlight[id]
    else
      && t == s
      && r.Err? && r.error.TasksNotFound? && AreAbsent(r.error.ids, ids, s.inFlight)
  }

  ghost predicate Does<D>(s: State<D>, call: Call<D>, t: State<D>, r: Response<D>) {
    match call
    case CreateQueue(name) => CreateDoes(s, name, t, r)
    case Enqueue(queue, data) => EnqueueDoes(s, queue, [data], t, r)
    case EnqueueBatch(queue, items) => EnqueueDoes(s, queue, items, t, r)
    case Dequeue(queue, id, now) => DequeueDoes(s, queue, id, now, t, r)
    case DequeueBatch(queue, count, draw, at) => DequeueBatchDoes(s, queue, count, draw, at, t, r)
    case Ack(id) => AckDoes(s, id, t, r)
    case Nack(id) => NackDoes(s, id, t, r)
    case ExtendVisibility(id, _, now) => HeartbeatDoes(s, id, now, t, r)
    case AckBatch(ids) => AckBatchDoes(s, ids, t, r)
  }

  // ----- Proofs -----

  lemma PresentNext<D>(at: seq<nat>, absent: seq<string>, ids: seq<string>, tasks: map<string, InFlightTask<D>>)
    requires ids != [] && AbsentAt(at, absent, ids[..|ids| - 1], tasks) && ids[|ids| - 1] in tasks
    ensures AbsentAt(at, absent, ids, tasks)
  {
    var n := |ids| - 1;
    forall p: nat | p < |ids| ensures p in at <==> ids[p] !in tasks {
      assert p < n ==> (p in at <==> ids[..n][p] !in tasks);
      assert forall k | 0 <= k < |at| :: at[k] < n;
    }
  }

  lemma AbsentNext<D>(at: seq<nat>, absent: seq<string>, ids: seq<string>, tasks: map<string, InFlightTask<D>>)
    requires ids != [] && AbsentAt(at, absent, ids[..|ids| - 1], tasks) && ids[|ids| - 1] !in tasks
    ensures AbsentAt(at + [|ids| - 1], absent + [ids[|ids| - 1]], ids, tasks)
  {
    var n := |ids| - 1;
    forall p: nat | p < |ids| ensures p in at + [n] <==> ids[p] !in tasks {
      assert p < n ==> (p in at <==> ids[..n][p] !in tasks);
    }
  }

  lemma {:induction false} MissingAt<D>(tasks: map<string, InFlightTask<D>>, ids: seq<string>) returns (at: seq<nat>)
    ensures AbsentAt(at, Missing(tasks, ids), ids, tasks)
    decreases |ids|
  {
    at := [];
    if ids != [] {
      var n := |ids| - 1;
      at := MissingAt(tasks, ids[..n]);
      if ids[n] in tasks {
        PresentNext(at, Missing(tasks, ids[..n]), ids, tasks);
      } else {
        AbsentNext(at, Missing(tasks, ids[..n]), ids, tasks);
        at := at + [n];
      }
    }
  }

  lemma MissingAreAbsent<D>(tasks: map<string, InFlightTask<D>>, ids: seq<string>)
    ensures AreAbsent(Missing(tasks, ids), ids, tasks)
  {
    var at := MissingAt(tasks, ids);
  }

  lemma AckBatchOutcome<D>(s: State<D>, ids: seq<string>, appended: bool)
    ensures Execute(s, Call.AckBatch(ids), appended) ==
            if Missing(s.inFlight, ids) != [] then Outcome(s, [], Err(TasksNotFound(Missing(s.inFlight, ids))))
            else if appended then Outcome(Without(s, IdSet(ids)), [WalOp.AckBatch(ids)], Done)
            else Outcome(s, [], Err(WalFailed))
  {
  }

  lemma AckBatchMeaning<D>(s: State<D>, ids: seq<string>)
    ensures var o := Execute(s, Call.AckBatch(ids), true); AckBatchDoes(s, ids, o.state, o.response)
  {
    AckBatchOutcome(s, ids, true);
    MissingNone(s.inFlight, ids);
    if Missing(s.inFlight, ids) == [] {
      RemovedIds(s.inFlight, ids);
    } else {
      MissingAreAbsent(s.inFlight, ids);
    }
  }

  lemma RemovedIds<D>(tasks: map<string, InFlightTask<D>>, ids: seq<string>)
    ensures forall id :: id in tasks - IdSet(ids) <==> id in tasks && id !in ids
    ensures forall id | id in tasks - IdSet(ids) :: (tasks - IdSet(ids))[id] == tasks[id]
  {
  }

  lemma {:induction false} InsertedAt<D>(before: map<string, InFlightTask<D>>, tasks: seq<InFlightTask<D>>, id: string)
    ensures InFlightAt(before, tasks, Insert(before, tasks), id)
    decreases |tasks|
  {
    if tasks != [] {
      var n := |tasks| - 1;
      if tasks[n].id == id {
        assert LastWith(tasks, n, id);
      } else {
        InsertedAt(before, tasks[..n], id);
        forall i: nat ensures LastWith(tasks, i, id) <==> LastWith(tasks[..n], i, id) {
          LastWithBefore(tasks, i, id);
        }
      }
    }
  }

  lemma LastWithBefore<D>(tasks: seq<InFlightTask<D>>, i: nat, id: string)
    requires tasks != [] && tasks[|tasks| - 1].id != id
    ensures LastWith(tasks, i, id) <==> LastWith(tasks[..|tasks| - 1], i, id)
  {
    var n := |tasks| - 1;
    assert forall j | 0 <= j < n :: tasks[..n][j] == tasks[j];
    if LastWith(tasks[..n], i, id) {
      forall j | i < j < |tasks| ensures tasks[j].id != id {
        assert j < n ==> tasks[..n][j].id != id;
      }
    }
  }

  lemma DequeueBatchMeaning<D>(s: State<D>, queue: string, count: nat, draw: nat -> string, at: nat -> int)
    ensures var o := Execute(s, Call.DequeueBatch(queue, count, draw, at), true);
            DequeueBatchDoes(s, queue, count, draw, at, o.state, o.response)
  {
    if queue in s.queues {
      var items, n := s.queues[queue], BatchSize(s, queue, count);
      var o := Execute(s, Call.DequeueBatch(queue, count, draw, at), true);
      assert items[0..] == items;
      forall id ensures InFlightAt(s.inFlight, o.response.tasks, o.state.inFlight, id) {
        InsertedAt(s.inFlight, LentAll(items[..n], queue, FirstDraws(n, draw), at), id);
      }
    }
  }

  lemma EnqueueMeaning<D>(s: State<D>, queue: string, data: D)
    ensures var o := Execute(s, Call.Enqueue(queue, data), true);
            EnqueueDoes(s, queue, [data], o.state, o.response)
  {
  }

  lemma EnqueueBatchMeaning<D>(s: State<D>, queue: string, items: seq<D>)
    ensures var o := Execute(s, Call.EnqueueBatch(queue, items), true);
            EnqueueDoes(s, queue, items, o.state, o.response)
  {
  }

  lemma DequeueMeaning<D>(s: State<D>, queue: string, id: string, now: int)
    ensures var o := Execute(s, Call.Dequeue(queue, id, now), true);
            DequeueDoes(s, queue, id, now, o.state, o.response)
  {
  }

  lemma NackMeaning<D>(s: State<D>, id: string)
    ensures var o := Execute(s, Call.Nack(id), true); NackDoes(s, id, o.state, o.response)
  {
  }

  // Every call does what its name says, in every state, when its append succeeds.
  lemma ExecuteDoes<D>(s: State<D>, call: Call<D>)
    ensures var o := Execute(s, call, true); Does(s, call, o.state, o.response)
  {
    match call {
      case Enqueue(queue, data) => EnqueueMeaning(s, queue, data);
      case EnqueueBatch(queue, items) => EnqueueBatchMeaning(s, queue, items);
      case Dequeue(queue, id, now) => DequeueMeaning(s, queue, id, now);
      case DequeueBatch(queue, count, draw, at) => DequeueBatchMeaning(s, queue, count, draw, at);
      case Nack(id) => NackMeaning(s, id);
      case AckBatch(ids) => AckBatchMeaning(s, ids);
      case _ =>
    }
  }

  // A call that would be refused, or has nothing to deliver, never comes to append. Any
  // other call whose append fails says so, and only an ack has let its task go.
  lemma FailedAppendDoes<D>(s: State<D>, call: Call<D>)
    ensures var o := Execute(s, call, false);
            if Applies(s, call) && !NothingToDeliver(s, call) then
              && o.response == Err(WalFailed)
              && if call.Ack? then AckDoes(s, call.id, o.state, Done) else o.state == s
            else Does(s, call, o.state, o.response)
  {
    ExecuteDoes(s, call);
    if call.AckBatch? {
      MissingNone(s.inFlight, call.ids);
    }
  }

  // ----- There is only one way to do it -----

  lemma SameQueues<D>(s: State<D>, t: State<D>, u: State<D>, queue: string)
    requires SameQueuesBut(s, t, queue) && SameQueuesBut(s, u, queue)
    requires queue in t.queues && queue in u.queues && t.queues[queue] == u.queues[queue]
    ensures t.queues == u.queues
  {
    assert forall q :: q in t.queues <==> q in u.queues;
  }

  lemma SameTasks<D>(s: State<D>, t: State<D>, u: State<D>, id: string)
    requires SameTasksBut(s, t, id) && SameTasksBut(s, u, id)
    requires (id in t.inFlight <==> id in u.inFlight)
    requires id in t.inFlight ==> t.inFlight[id] == u.inFlight[id]
    ensures t.inFlight == u.inFlight
  {
    assert forall i :: i in t.inFlight <==> i in u.inFlight;
  }

  lemma EnqueueOnly<D>(
    s: State<D>, queue: string, items: seq<D>, t: State<D>, r: Response<D>, u: State<D>, v: Response<D>)
    requires EnqueueDoes(s, queue, items, t, r) && EnqueueDoes(s, queue, items, u, v)
    ensures t == u && r == v
  {
    if queue in s.queues {
      var n := |s.queues[queue]|;
      forall k | 0 <= k < |t.queues[queue]| ensures t.queues[queue][k] == u.queues[queue][k] {
        if k >= n {
          assert t.queues[queue][n + (k - n)] == QueueItem(items[k - n], 0) == u.queues[queue][n + (k - n)];
        }
      }
      SameQueues(s, t, u, queue);
    }
  }

  lemma DequeueOnly<D>(
    s: State<D>, queue: string, id: string, now: int, t: State<D>, r: Response<D>, u: State<D>, v: Response<D>)
    requires DequeueDoes(s, queue, id, now, t, r) && DequeueDoes(s, queue, id, now, u, v)
    ensures t == u && r == v
  {
    if queue in s.queues && s.queues[queue] != [] {
      SameQueues(s, t, u, queue);
      SameTasks(s, t, u, id);
    }
  }

  lemma BatchOnly<D>(before: map<string, InFlightTask<D>>, tasks: seq<InFlightTask<D>>,
                     m: map<string, InFlightTask<D>>, n: map<string, InFlightTask<D>>)
    requires forall id :: InFlightAt(before, tasks, m, id) && InFlightAt(before, tasks, n, id)
    ensures m == n
  {
    forall id ensures (id in m <==> id in n) && (id in m ==> m[id] == n[id]) {
      assert InFlightAt(before, tasks, m, id) && InFlightAt(before, tasks, n, id);
    }
  }

  lemma DequeueBatchOnly<D>(s: State<D>, queue: string, count: nat, draw: nat -> string, at: nat -> int,
                            t: State<D>, r: Response<D>, u: State<D>, v: Response<D>)
    requires DequeueBatchDoes(s, queue, count, draw, at, t, r) && DequeueBatchDoes(s, queue, count, draw, at, u, v)
    ensures t == u && r == v
  {
    if queue in s.queues {
      forall i | 0 <= i < |r.tasks| ensures r.tasks[i] == v.tasks[i] {
        assert HandsOut(r.tasks[i], s.queues[queue][i], queue, draw(i), at(i));
        assert HandsOut(v.tasks[i], s.queues[queue][i], queue, draw(i), at(i));
      }
      assert r.tasks == v.tasks;
      BatchOnly(s.inFlight, r.tasks, t.inFlight, u.inFlight);
      SameQueues(s, t, u, queue);
    }
  }

  lemma NackOnly<D>(s: State<D>, id: string, t: State<D>, r: Response<D>, u: State<D>, v: Response<D>)
    requires NackDoes(s, id, t, r) && NackDoes(s, id, u, v)
    ensures t == u && r == v
  {
    if id in s.inFlight {
      SameTasks(s, t, u, id);
      var task := s.inFlight[id];
      if task.attempts >= 5 {
        SameQueues(s, t, u, task.queueName + "_dlq");
      } else if task.queueName in s.queues {
        SameQueues(s, t, u, task.queueName);
      }
    }
  }

  lemma {:induction false} AbsentOnly<D>(
    a: seq<nat>, x: seq<string>, b: seq<nat>, y: seq<string>, ids: seq<string>, tasks: map<string, InFlightTask<D>>)
    requires AbsentAt(a, x, ids, tasks) && AbsentAt(b, y, ids, tasks)
    ensures x == y
    decreases |ids|
  {
    if ids == [] {
      assert a == [] && b == [];
    } else {
      var n := |ids| - 1;
      if ids[n] in tasks {
        AbsentShorter(a, x, ids, tasks);
        AbsentShorter(b, y, ids, tasks);
        AbsentOnly(a, x, b, y, ids[..n], tasks);
      } else {
        AbsentLast(a, x, ids, tasks);
        AbsentLast(b, y, ids, tasks);
        AbsentOnly(a[..|a| - 1], x[..|x| - 1], b[..|b| - 1], y[..|y| - 1], ids[..n], tasks);
        assert x == x[..|x| - 1] + [ids[n]] && y == y[..|y| - 1] + [ids[n]];
      }
    }
  }

  lemma AbsentShorter<D>(a: seq<nat>, x: seq<string>, ids: seq<string>, tasks: map<string, InFlightTask<D>>)
    requires ids != [] && ids[|ids| - 1] in tasks && AbsentAt(a, x, ids, tasks)
    ensures AbsentAt(a, x, ids[..|ids| - 1], tasks)
  {
    forall k | 0 <= k < |a| ensures a[k] < |ids| - 1 {
      assert a[k] in a;
    }
  }

  lemma AbsentLast<D>(a: seq<nat>, x: seq<string>, ids: seq<string>, tasks: map<string, InFlightTask<D>>)
    requires ids != [] && ids[|ids| - 1] !in tasks && AbsentAt(a, x, ids, tasks)
    ensures a != [] && x[|x| - 1] == ids[|ids| - 1]
    ensures AbsentAt(a[..|a| - 1], x[..|x| - 1], ids[..|ids| - 1], tasks)
  {
    var n, m := |ids| - 1, |a| - 1;
    assert n in a;
    var k :| 0 <= k < |a| && a[k] == n;
    assert a[m] <= n;
    assert k == m;
    forall p: nat | p < n ensures p in a[..m] <==> ids[..n][p] !in tasks {
      assert p in a <==> ids[p] !in tasks;
      assert a == a[..m] + [a[m]];
    }
  }

  lemma AckBatchOnly<D>(s: State<D>, ids: seq<string>, t: State<D>, r: Response<D>, u: State<D>, v: Response<D>)
    requires AckBatchDoes(s, ids, t, r) && AckBatchDoes(s, ids, u, v)
    ensures t == u && r == v
  {
    if forall id | id in ids :: id in s.inFlight {
      assert t.inFlight == u.inFlight;
    } else {
      var a :| AbsentAt(a, r.error.ids, ids, s.inFlight);
      var b :| AbsentAt(b, v.error.ids, ids, s.inFlight);
      AbsentOnly(a, r.error.ids, b, v.error.ids, ids, s.inFlight);
    }
  }

  lemma OtherOnly<D>(s: State<D>, call: Call<D>, t: State<D>, r: Response<D>, u: State<D>, v: Response<D>)
    requires call.CreateQueue? || call.Ack? || call.ExtendVisibility?
    requires Does(s, call, t, r) && Does(s, call, u, v)
    ensures t == u && r == v
  {
    match call {
      case CreateQueue(name) =>
        if name !in s.queues {
          SameQueues(s, t, u, name);
        }
      case Ack(id) =>
        if id in s.inFlight {
          SameTasks(s, t, u, id);
        }
      case ExtendVisibility(id, _, _) =>
        if id in s.inFlight {
          SameTasks(s, t, u, id);
        }
    }
  }

  // What a call does and answers is exactly this, and nothing else.
  lemma DoesExactly<D>(s: State<D>, call: Call<D>, t: State<D>, r: Response<D>)
    ensures Does(s, call, t, r) <==>
            t == Execute(s, call, true).state && r == Execute(s, call, true).response
  {
    var o := Execute(s, call, true);
    ExecuteDoes(s, call);
    if Does(s, call, t, r) {
      match call {
        case Enqueue(queue, data) => EnqueueOnly(s, queue, [data], t, r, o.state, o.response);
        case EnqueueBatch(queue, items) => EnqueueOnly(s, queue, items, t, r, o.state, o.response);
        case Dequeue(queue, id, now) => DequeueOnly(s, queue, id, now, t, r, o.state, o.response);
        case DequeueBatch(queue, count, draw, at) =>
          DequeueBatchOnly(s, queue, count, draw, at, t, r, o.state, o.response);
        case Nack(id) => NackOnly(s, id, t, r, o.state, o.response);
        case AckBatch(ids) => AckBatchOnly(s, ids, t, r, o.state, o.response);
        case _ => OtherOnly(s, call, t, r, o.state, o.response);
      }
    }
  }

  // ----- What is logged -----

  function IdsOf<D>(tasks: seq<InFlightTask<D>>): seq<string> {
    seq(|tasks|, i requires 0 <= i < |tasks| => tasks[i].id)
  }

  // The entry that tells what the call did, from what it was given and answered.
  function TellingEntry<D>(call: Call<D>, r: Response<D>): WalOp<D> {
    match call
    case CreateQueue(name) => WalOp.CreateQueue(name)
    case Enqueue(queue, data) => WalOp.Enqueue(queue, data)
    case EnqueueBatch(queue, items) => WalOp.EnqueueBatch(queue, items)
    case Dequeue(queue, id, _) => Dequeued(queue, id)
    case DequeueBatch(queue, _, _, _) => DequeuedBatch(queue, if r.ManyTasks? then IdsOf(r.tasks) else [])
    case Ack(id) => WalOp.Ack(id)
    case Nack(id) => WalOp.Nack(id)
    case ExtendVisibility(id, duration, _) => WalOp.ExtendVisibility(id, duration)
    case AckBatch(ids) => WalOp.AckBatch(ids)
  }

  lemma LogsExactly<D>(s: State<D>, call: Call<D>, appended: bool)
    ensures var o := Execute(s, call, appended);
            o.written == if appended && Applies(s, call) && !NothingToDeliver(s, call)
                         then [TellingEntry(call, o.response)] else []
  {
    match call {
      case AckBatch(ids) => MissingNone(s.inFlight, ids);
      case DequeueBatch(queue, count, draw, at) =>
        if queue in s.queues {
          var n := BatchSize(s, queue, count);
          assert IdsOf(LentAll(s.queues[queue][..n], queue, FirstDraws(n, draw), at)) == FirstDraws(n, draw);
        }
      case _ =>
    }
  }
}
