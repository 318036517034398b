// Crash recovery: the log read back through a second implementation of the state
// machine, which forces the logged task ids and discards every result.

module Replay {
  import opened QueueState
  import opened StorageCalls

  // The clock readings taken while one entry, or a whole log, is replayed.
  type Readings = nat -> int
  type ReplayClock = nat -> Readings

  function AfterCall<D>(s: State<D>, call: Call<D>): State<D> {
    Execute(s, call, true).state
  }

  // Pops an item for each logged id, as long as there are any.
  function ForceDelivery<D>(s: State<D>, queue: string, ids: seq<string>, at: Readings): State<D> {
    if queue in s.queues then
      Take(s, queue, ids[..Min(|ids|, |s.queues[queue]|)], at)
    else s
  }

  function ReplayEntry<D>(s: State<D>, entry: WalOp<D>, at: Readings): State<D> {
    match entry
    case CreateQueue(name) => AfterCall(s, Call.CreateQueue(name))
    case Enqueue(queue, data) => AfterCall(s, Call.Enqueue(queue, data))
    case Dequeued(queue, id) => ForceDelivery(s, queue, [id], at)
    case Ack(id) => AfterCall(s, Call.Ack(id))
    case AckBatch(ids) => AfterCall(s, Call.AckBatch(ids))
    case Nack(id) => AfterCall(s, Call.Nack(id))
    case ExtendVisibility(id, _) => AfterCall(s, Call.ExtendVisibility(id, 0, at(0)))
    case EnqueueBatch(queue, items) => AfterCall(s, Call.EnqueueBatch(queue, items))
    case DequeuedBatch(queue, ids) => ForceDelivery(s, queue, ids, at)
  }

  function ReplayLog<D>(log: seq<WalOp<D>>, clock: ReplayClock): State<D> {
    if log == [] then Empty()
    else
      var n := |log| - 1;
      ReplayEntry(ReplayLog(log[..n], clock), log[n], clock(n))
  }

  // ----- An entry repeats a call -----

  // The ids of a logged delivery, as the identifiers drawn by the delivery repeated.
  function Drawing(ids: seq<string>): nat -> string {
    (i: nat) => if i < |ids| then ids[i] else ""
  }

  // The call that an entry repeats.
  function CallOfEntry<D>(entry: WalOp<D>, at: Readings): Call<D> {
    match entry
    case CreateQueue(name) => Call.CreateQueue(name)
    case Enqueue(queue, data) => Call.Enqueue(queue, data)
    case EnqueueBatch(queue, items) => Call.EnqueueBatch(queue, items)
    case Dequeued(queue, id) => Call.Dequeue(queue, id, at(0))
    case DequeuedBatch(queue, ids) => Call.DequeueBatch(queue, |ids|, Drawing(ids), at)
    case Ack(id) => Call.Ack(id)
    case AckBatch(ids) => Call.AckBatch(ids)
    case Nack(id) => Call.Nack(id)
    case ExtendVisibility(id, duration) => Call.ExtendVisibility(id, duration, at(0))
  }

  lemma DeliveryRepeats<D>(s: State<D>, queue: string, id: string, at: Readings)
    ensures ForceDelivery(s, queue, [id], at) == Execute(s, Call.Dequeue(queue, id, at(0)), true).state
  {
    if queue in s.queues {
      if s.queues[queue] == [] {
        TakeNone(s, queue, at);
      } else {
        TakeOne(s, queue, id, at);
      }
    }
  }

  lemma TakeNone<D>(s: State<D>, queue: string, at: Readings)
    requires queue in s.queues
    ensures Take(s, queue, [], at) == s && LentAll(s.queues[queue][..0], queue, [], at) == []
  {
    assert s.queues[queue][0..] == s.queues[queue];
    assert LentAll(s.queues[queue][..0], queue, [], at) == [];
  }

  lemma TakeOne<D>(s: State<D>, queue: string, id: string, at: Readings)
    requires Contents(s, queue) != []
    ensures Take(s, queue, [id], at)
         == State(s.queues[queue := s.queues[queue][1..]],
                  s.inFlight[id := Lent(s.queues[queue][0], queue, id, at(0))])
  {
    var one := LentAll(s.queues[queue][..1], queue, [id], at);
    assert one[..0] == [] && Insert(s.inFlight, one[..0]) == s.inFlight;
  }

  lemma BatchRepeats<D>(s: State<D>, queue: string, ids: seq<string>, at: Readings)
    ensures ForceDelivery(s, queue, ids, at)
         == Execute(s, Call.DequeueBatch(queue, |ids|, Drawing(ids), at), true).state
  {
    if queue in s.queues {
      var n := Min(|ids|, |s.queues[queue]|);
      assert ids[..n] == FirstDraws(n, Drawing(ids));
      if n == 0 {
        TakeNone(s, queue, at);
      }
    }
  }

  lemma EntryIsCall<D>(s: State<D>, entry: WalOp<D>, at: Readings)
    ensures ReplayEntry(s, entry, at) == Execute(s, CallOfEntry(entry, at), true).state
  {
    match entry {
      case Dequeued(queue, id) => DeliveryRepeats(s, queue, id, at);
      case DequeuedBatch(queue, ids) => BatchRepeats(s, queue, ids, at);
      case _ =>
    }
  }

  // ----- What replay accepts -----

  // Replaying this entry hides no failure: the discarded result is Ok, and a logged
  // delivery finds an item for every id.
  ghost predicate Accepted<D>(s: State<D>, entry: WalOp<D>) {
    match entry
    case CreateQueue(name) => Execute(s, Call.CreateQueue(name), true).response == Done
    case Enqueue(queue, data) => Execute(s, Call.Enqueue(queue, data), true).response == Done
    case EnqueueBatch(queue, items) =>
      Execute(s, Call.EnqueueBatch(queue, items), true).response == Done
    case Dequeued(queue, id) => queue in s.queues && s.queues[queue] != []
    case DequeuedBatch(queue, ids) => queue in s.queues && |ids| <= |s.queues[queue]|
    case Ack(id) => Execute(s, Call.Ack(id), true).response == Done
    case AckBatch(ids) => Execute(s, Call.AckBatch(ids), true).response == Done
    case Nack(id) => Execute(s, Call.Nack(id), true).response == Done
    case ExtendVisibility(id, duration) =>
      forall now :: Execute(s, Call.ExtendVisibility(id, duration, now), true).response == Done
  }

  ghost predicate AllAccepted<D>(log: seq<WalOp<D>>, clock: ReplayClock) {
    forall i | 0 <= i < |log| :: Accepted(ReplayLog(log[..i], clock), log[i])
  }

  // ----- An accepted entry is a list of elementary changes -----

  function Arrivals<D>(queue: string, items: seq<D>): seq<Effect<D>> {
    seq(|items|, i requires 0 <= i < |items| => Arrived(queue, items[i]))
  }

  function Deliveries<D>(queue: string, ids: seq<string>, at: Readings): seq<Effect<D>> {
    seq(|ids|, i requires 0 <= i < |ids| => Delivered(queue, ids[i], at(i)))
  }

  function Settlements<D>(ids: seq<string>): seq<Effect<D>> {
    seq(|ids|, i requires 0 <= i < |ids| => Settled(ids[i]))
  }

  function EffectsOf<D>(entry: WalOp<D>, at: Readings): seq<Effect<D>> {
    match entry
    case CreateQueue(name) => [Opened(name)]
    case Enqueue(queue, data) => [Arrived(queue, data)]
    case EnqueueBatch(queue, items) => Arrivals(queue, items)
    case Dequeued(queue, id) => [Delivered(queue, id, at(0))]
    case DequeuedBatch(queue, ids) => Deliveries(queue, ids, at)
    case Ack(id) => [Settled(id)]
    case AckBatch(ids) => Settlements(ids)
    case Nack(id) => [Returned(id)]
    case ExtendVisibility(id, _) => [Touched(id, at(0))]
  }

  function Journal<D>(log: seq<WalOp<D>>, clock: ReplayClock): seq<Effect<D>> {
    if log == [] then []
    else
      var n := |log| - 1;
      Journal(log[..n], clock) + EffectsOf(log[n], clock(n))
  }

  lemma JournalOneMore<D>(log: seq<WalOp<D>>, entry: WalOp<D>, clock: ReplayClock)
    ensures Journal(log + [entry], clock) == Journal(log, clock) + EffectsOf(entry, clock(|log|))
  {
    assert (log + [entry])[..|log|] == log;
  }

  lemma JournalGrows<D>(log: seq<WalOp<D>>, clock: ReplayClock)
    requires log != []
    ensures Journal(log[..|log| - 1], clock) <= Journal(log, clock)
  {
  }

  lemma PrefixOfPrefix<T>(a: seq<T>, b: seq<T>, c: seq<T>)
    requires a <= b <= c
    ensures a <= c
  {
  }

  // A longer log has a longer journal.
  lemma {:induction false} JournalPrefix<D>(log: seq<WalOp<D>>, longer: seq<WalOp<D>>, clock: ReplayClock)
    requires log <= longer
    ensures Journal(log, clock) <= Journal(longer, clock)
    decreases |longer|
  {
    if |log| == |longer| {
      assert log == longer;
    } else {
      var shorter := longer[..|longer| - 1];
      JournalPrefix(log, shorter, clock);
      JournalGrows(longer, clock);
      PrefixOfPrefix(Journal(log, clock), Journal(shorter, clock), Journal(longer, clock));
    }
  }

  lemma {:induction false} ArrivalsAppend<D>(s: State<D>, queue: string, items: seq<D>)
    requires queue in s.queues
    ensures ApplyAll(s, Arrivals(queue, items))
         == SetQueue(s, queue, s.queues[queue] + FreshAll(items))
  {
    if items == [] {
      assert s.queues[queue] + FreshAll(items) == s.queues[queue];
    } else {
      var n := |items| - 1;
      ArrivalsAppend(s, queue, items[..n]);
      assert Arrivals(queue, items)[..n] == Arrivals(queue, items[..n]);
      assert FreshAll(items) == FreshAll(items[..n]) + [Fresh(items[n])];
      assert s.queues[queue] + FreshAll(items)
          == (s.queues[queue] + FreshAll(items[..n])) + [Fresh(items[n])];
    }
  }

  lemma {:induction false} DeliveriesTake<D>(s: State<D>, queue: string, ids: seq<string>, at: Readings)
    requires queue in s.queues && |ids| <= |s.queues[queue]|
    ensures ApplyAll(s, Deliveries(queue, ids, at)) == Take(s, queue, ids, at)
  {
    var items := s.queues[queue];
    if ids == [] {
      assert items[0..] == items;
      assert LentAll(items[..0], queue, ids, at) == [];
    } else {
      var n := |ids| - 1;
      DeliveriesTake(s, queue, ids[..n], at);
      assert Deliveries<D>(queue, ids, at)[..n] == Deliveries(queue, ids[..n], at);
      var tasks := LentAll(items[..n + 1], queue, ids, at);
      assert tasks[..n] == LentAll(items[..n], queue, ids[..n], at);
      assert items[n..][1..] == items[n + 1..];
      assert s.queues[queue := items[n..]][queue := items[n + 1..]] == s.queues[queue := items[n + 1..]];
    }
  }

  // What one more forced delivery changes.
  lemma TakeOneMore<D>(s: State<D>, queue: string, ids: seq<string>, i: nat, at: nat -> int)
    requires queue in s.queues && i < |ids| && i < |s.queues[queue]|
    ensures var before, after := Take(s, queue, ids[..i], at), Take(s, queue, ids[..i + 1], at);
            && before.queues[queue] == s.queues[queue][i..]
            && after.queues == before.queues[queue := s.queues[queue][i + 1..]]
            && after.inFlight == before.inFlight[ids[i] := Lent(s.queues[queue][i], queue, ids[i], at(i))]
  {
    var items := s.queues[queue];
    var tasks := LentAll(items[..i + 1], queue, ids[..i + 1], at);
    assert tasks[..i] == LentAll(items[..i], queue, ids[..i], at);
  }

  lemma {:induction false} SettlementsRemove<D>(s: State<D>, ids: seq<string>)
    ensures ApplyAll(s, Settlements(ids)) == Without(s, IdSet(ids))
  {
    if ids != [] {
      var n := |ids| - 1;
      SettlementsRemove(s, ids[..n]);
      assert Settlements<D>(ids)[..n] == Settlements(ids[..n]);
      assert ids == ids[..n] + [ids[n]];
      assert IdSet(ids) == IdSet(ids[..n]) + {ids[n]};
    } else {
      assert IdSet(ids) == {};
    }
  }

  lemma OneEffect<D>(s: State<D>, e: Effect<D>)
    ensures ApplyAll(s, [e]) == Apply(s, e)
  {
    assert [e][..0] == [];
  }

  lemma ReplayIsEffects<D>(s: State<D>, entry: WalOp<D>, at: Readings)
    requires Accepted(s, entry)
    ensures ReplayEntry(s, entry, at) == ApplyAll(s, EffectsOf(entry, at))
  {
    match entry {
      case EnqueueBatch(queue, items) => ArrivalsAppend(s, queue, items);
      case Dequeued(queue, id) =>
        assert Deliveries<D>(queue, [id], at) == EffectsOf(entry, at);
        DeliveriesTake(s, queue, [id], at);
      case DequeuedBatch(queue, ids) =>
        assert ids[..|ids|] == ids;
        DeliveriesTake(s, queue, ids, at);
      case AckBatch(ids) => SettlementsRemove(s, ids);
      case _ => OneEffect(s, EffectsOf(entry, at)[0]);
    }
  }

  lemma {:induction false} ReplayIsJournal<D>(log: seq<WalOp<D>>, clock: ReplayClock)
    requires AllAccepted(log, clock)
    ensures ReplayLog(log, clock) == ApplyAll(Empty(), Journal(log, clock))
  {
    if log != [] {
      var n := |log| - 1;
      AcceptedPrefix(log, n, clock);
      ReplayIsJournal(log[..n], clock);
      ReplayIsEffects(ReplayLog(log[..n], clock), log[n], clock(n));
      ApplyAllConcat(Empty(), Journal(log[..n], clock), EffectsOf(log[n], clock(n)));
    }
  }

  lemma AcceptedPrefix<D>(log: seq<WalOp<D>>, k: nat, clock: ReplayClock)
    requires AllAccepted(log, clock) && k <= |log|
    ensures AllAccepted(log[..k], clock)
  {
    forall i | 0 <= i < k ensures Accepted(ReplayLog(log[..k][..i], clock), log[..k][i]) {
      assert log[..k][..i] == log[..i];
    }
  }
}
