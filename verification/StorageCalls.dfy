// What each storage call answers, logs and changes, as a function of the state.
//
// Task ids drawn and clock readings taken inside a call are inputs of the call, and
// so is the fate of its log append.

module StorageCalls {
  import opened Wrappers
  import opened QueueState

  datatype Error =
    | QueueExists(name: string)
    | QueueNotFound(name: string)
    | TaskNotFound
    | TasksNotFound(ids: seq<string>)
    | OriginalQueueNotFound(name: string)
    | WalFailed

  datatype Response<D> =
    | Done
    | OneTask(task: Option<InFlightTask<D>>)
    | ManyTasks(tasks: seq<InFlightTask<D>>)
    | Err(error: Error)

  datatype WalOp<D> =
    | CreateQueue(name: string)
    | Enqueue(queue: string, data: D)
    | EnqueueBatch(queue: string, items: seq<D>)
    | Dequeued(queue: string, id: string)
    | DequeuedBatch(queue: string, ids: seq<string>)
    | Ack(id: string)
    | AckBatch(ids: seq<string>)
    | Nack(id: string)
    | ExtendVisibility(id: string, duration: nat)

  // draw(i) and at(i) are the i-th identifier drawn and the i-th clock reading of the call.
  datatype Call<D> =
    | CreateQueue(name: string)
    | Enqueue(queue: string, data: D)
    | Dequeue(queue: string, id: string, now: int)
    | Ack(id: string)
    | Nack(id: string)
    | ExtendVisibility(id: string, duration: nat, now: int)
    | EnqueueBatch(queue: string, items: seq<D>)
    | DequeueBatch(queue: string, count: nat, draw: nat -> string, at: nat -> int)
    | AckBatch(ids: seq<string>)

  function IdSet(ids: seq<string>): set<string> {
    set id | id in ids
  }

  // Either the call is answered on the spot, with nothing logged or changed, or it
  // commits an entry to the log: `done` and `response` if the append succeeds,
  // `undone` (and an error) if it fails.
  datatype Plan<D> =
    | Answer(response: Response<D>)
    | Commit(entry: WalOp<D>, done: State<D>, response: Response<D>, undone: State<D>)

  function Min(a: nat, b: nat): nat {
    if a <= b then a else b
  }

  // The ids of a list that are not in flight, in order.
  function Missing<D>(tasks: map<string, InFlightTask<D>>, ids: seq<string>): seq<string> {
    if ids == [] then []
    else
      var n := |ids| - 1;
      Missing(tasks, ids[..n]) + if ids[n] in tasks then [] else [ids[n]]
  }

  function FirstDraws(n: nat, draw: nat -> string): (ids: seq<string>)
    ensures |ids| == n
    ensures forall i: nat | i < n :: ids[i] == draw(i)
  {
    seq(n, i requires 0 <= i < n => draw(i))
  }

  function BatchSize<D>(s: State<D>, queue: string, count: nat): nat {
    Min(count, |Contents(s, queue)|)
  }

  function PlanOf<D>(s: State<D>, call: Call<D>): Plan<D> {
    match call
    case CreateQueue(name) =>
      if name in s.queues then Answer(Err(QueueExists(name)))
      else Commit(WalOp.CreateQueue(name), SetQueue(s, name, []), Done, s)
    case Enqueue(queue, data) =>
      if queue !in s.queues then Answer(Err(QueueNotFound(queue)))
      else Commit(WalOp.Enqueue(queue, data),
                  SetQueue(s, queue, s.queues[queue] + [Fresh(data)]), Done, s)
    case EnqueueBatch(queue, items) =>
      if queue !in s.queues then Answer(Err(QueueNotFound(queue)))
      else Commit(WalOp.EnqueueBatch(queue, items),
                  SetQueue(s, queue, s.queues[queue] + FreshAll(items)), Done, s)
    case Dequeue(queue, id, now) =>
      if queue !in s.queues then Answer(Err(QueueNotFound(queue)))
      else if s.queues[queue] == [] then Answer(OneTask(None))
      else
        var task := Lent(s.queues[queue][0], queue, id, now);
        Commit(WalOp.Dequeued(queue, id),
               State(s.queues[queue := s.queues[queue][1..]], s.inFlight[id := task]),
               OneTask(Some(task)), s)
    case DequeueBatch(queue, count, draw, at) =>
      if queue !in s.queues then Answer(Err(QueueNotFound(queue)))
      else
        var n := BatchSize(s, queue, count);
        if n == 0 then Answer(ManyTasks([]))
        else Commit(WalOp.DequeuedBatch(queue, FirstDraws(n, draw)),
                    Take(s, queue, FirstDraws(n, draw), at),
                    ManyTasks(LentAll(s.queues[queue][..n], queue, FirstDraws(n, draw), at)), s)
    case Ack(id) =>
      if id !in s.inFlight then Answer(Err(TaskNotFound))
      // A failed append does not bring the task back.
      else Commit(WalOp.Ack(id), Without(s, {id}), Done, Without(s, {id}))
    case AckBatch(ids) =>
      var missing := Missing(s.inFlight, ids);
      if missing != [] then Answer(Err(TasksNotFound(missing)))
      else Commit(WalOp.AckBatch(ids), Without(s, IdSet(ids)), Done, s)
    case Nack(id) =>
      if id !in s.inFlight then Answer(Err(TaskNotFound))
      else
        var task, held := s.inFlight[id], Without(s, {id});
        Commit(WalOp.Nack(id), Requeue(held, task),
               if HasDestination(held, task) then Done
               else Err(OriginalQueueNotFound(task.queueName)), s)
    case ExtendVisibility(id, duration, now) =>
      if id !in s.inFlight then Answer(Err(TaskNotFound))
      else Commit(WalOp.ExtendVisibility(id, duration),
                  s.(inFlight := s.inFlight[id := s.inFlight[id].(consumedAt := now)]), Done, s)
  }

  // `written` is the part of the log this call added: nothing or one entry.
  datatype Outcome<D> = Outcome(state: State<D>, written: seq<WalOp<D>>, response: Response<D>)

  // `appended` says whether the append succeeds; a storage without a log behaves as
  // if every append did.
  function Execute<D>(s: State<D>, call: Call<D>, appended: bool): Outcome<D> {
    match PlanOf(s, call)
    case Answer(response) => Outcome(s, [], response)
    case Commit(entry, done, response, undone) =>
      if appended then Outcome(done, [entry], response)
      else Outcome(undone, [], Err(WalFailed))
  }

  lemma {:induction false} MissingIffAbsent<D>(tasks: map<string, InFlightTask<D>>, ids: seq<string>, id: string)
    ensures id in Missing(tasks, ids) <==> id in ids && id !in tasks
  {
    if ids != [] {
      var n := |ids| - 1;
      MissingIffAbsent(tasks, ids[..n], id);
      assert id in ids <==> id in ids[..n] || id == ids[n];
    }
  }

  lemma MissingNone<D>(tasks: map<string, InFlightTask<D>>, ids: seq<string>)
    ensures Missing(tasks, ids) == [] <==> forall id | id in ids :: id in tasks
  {
    forall id: string
      ensures id in Missing(tasks, ids) <==> id in ids && id !in tasks
    {
      MissingIffAbsent(tasks, ids, id);
    }
    if Missing(tasks, ids) != [] {
      assert Missing(tasks, ids)[0] in Missing(tasks, ids);
    }
  }

  // A failed append leaves everything as it was, except that an ack has let its task go.
  // That the methods undo what they did before the append is proved where they are.
  lemma FailedAppendChangesNothing<D>(s: State<D>, call: Call<D>)
    ensures var o := Execute(s, call, false);
            && o.written == []
            && (o.state == s <==> !(call.Ack? && call.id in s.inFlight))
            && (call.Ack? ==> o.state == Without(s, {call.id}))
  {
    if call.Ack? && call.id in s.inFlight {
      assert call.id !in Without(s, {call.id}).inFlight;
    }
  }

  // What a call names is there (for a creation: is not there yet).
  predicate Applies<D>(s: State<D>, call: Call<D>) {
    match call
    case CreateQueue(name) => name !in s.queues
    case Enqueue(queue, _) => queue in s.queues
    case EnqueueBatch(queue, _) => queue in s.queues
    case Dequeue(queue, _, _) => queue in s.queues
    case DequeueBatch(queue, _, _, _) => queue in s.queues
    case Ack(id) => id in s.inFlight
    case Nack(id) => id in s.inFlight
    case ExtendVisibility(id, _, _) => id in s.inFlight
    case AckBatch(ids) => forall id | id in ids :: id in s.inFlight
  }

  // A dequeue with nothing to deliver does not touch the log.
  predicate NothingToDeliver<D>(s: State<D>, call: Call<D>) {
    match call
    case Dequeue(queue, _, _) => Contents(s, queue) == []
    case DequeueBatch(queue, count, _, _) => BatchSize(s, queue, count) == 0
    case _ => false
  }

  // A call fails exactly when what it names is missing, or its append fails; it writes to
  // the log exactly when it succeeds and is not a dequeue with nothing to deliver. An empty
  // batch is logged, though it changes nothing.
  lemma FailsExactlyWhen<D>(s: State<D>, call: Call<D>, appended: bool)
    requires WellFormed(s)
    ensures var o := Execute(s, call, appended);
            && (o.response.Err? <==> !Applies(s, call) || (!appended && !NothingToDeliver(s, call)))
            && (o.written == [] <==> o.response.Err? || NothingToDeliver(s, call))
            && (o.written == [] && !(call.Ack? && Applies(s, call)) ==> o.state == s)
  {
    match call {
      case AckBatch(ids) => MissingNone(s.inFlight, ids);
      case Nack(id) =>
        if id in s.inFlight {
          assert WellFormedTask(s, id, s.inFlight[id]);
        }
      case _ =>
    }
  }
}
