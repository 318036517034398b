// Log entries, commands and what applying them does to the queue engine.

module RaftTypes {
  import opened Wrappers
  import opened QueueState
  import opened StorageCalls
  import opened BigEndian

  datatype LogId = LogId(term: nat, node: nat, index: U64)

  datatype ClientRequest<D> =
    | CreateQueue(name: string)
    | Enqueue(queue: string, data: D)
    | Dequeue(queue: string)
    | Ack(id: string)
    | Nack(id: string)
    | ExtendVisibility(id: string, duration: nat)
    | EnqueueBatch(queue: string, items: seq<D>)
    | DequeueBatch(queue: string, count: nat)
    | AckBatch(ids: seq<string>)

  datatype Payload<D> = Blank | Normal(request: ClientRequest<D>) | Membership

  datatype Entry<D> = Entry(logId: LogId, payload: Payload<D>)

  // The identifiers drawn and the clock readings taken while one entry is applied, and
  // those of every log position.
  datatype Draws = Draws(ids: nat -> string, at: nat -> int)
  type Supply = nat -> Draws

  function CallOf<D>(request: ClientRequest<D>, draws: Draws): Call<D> {
    match request
    case CreateQueue(name) => Call.CreateQueue(name)
    case Enqueue(queue, data) => Call.Enqueue(queue, data)
    case Dequeue(queue) => Call.Dequeue(queue, draws.ids(0), draws.at(0))
    case Ack(id) => Call.Ack(id)
    case Nack(id) => Call.Nack(id)
    case ExtendVisibility(id, duration) => Call.ExtendVisibility(id, duration, draws.at(0))
    case EnqueueBatch(queue, items) => Call.EnqueueBatch(queue, items)
    case DequeueBatch(queue, count) => Call.DequeueBatch(queue, count, draws.ids, draws.at)
    case AckBatch(ids) => Call.AckBatch(ids)
  }

  // The replicated part of a node: the queue engine and the last entry applied to it.
  datatype Replica<D> = Replica(state: State<D>, lastApplied: Option<LogId>)

  datatype Applied<D> = Applied(replica: Replica<D>, responses: seq<Response<D>>)

  function ApplyOne<D>(r: Replica<D>, e: Entry<D>, supply: Supply): Applied<D> {
    match e.payload
    case Blank => Applied(Replica(r.state, Some(e.logId)), [Done])
    case Membership => Applied(Replica(r.state, Some(e.logId)), [Done])
    case Normal(request) =>
      var o := Execute(r.state, CallOf(request, supply(e.logId.index)), true);
      Applied(Replica(o.state, Some(e.logId)), [o.response])
  }

  function ApplyEntries<D>(r: Replica<D>, entries: seq<Entry<D>>, supply: Supply): Applied<D> {
    if entries == [] then Applied(r, [])
    else
      var before := ApplyEntries(r, entries[..|entries| - 1], supply);
      var last := ApplyOne(before.replica, entries[|entries| - 1], supply);
      Applied(last.replica, before.responses + last.responses)
  }
}
