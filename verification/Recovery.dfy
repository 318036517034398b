// Runs of a persistent storage, with failing appends and restarts, and the theorem that
// replaying the log agrees with the memory of the run.

module Recovery {
  import opened QueueState
  import opened StorageCalls
  import opened Replay

  // A storage call with the fate of its log append, or a restart that rebuilds the memory.
  datatype Event<D> = Do(call: Call<D>, appended: bool) | Restart(clock: ReplayClock)

  datatype Node<D> = Node(memory: State<D>, log: seq<WalOp<D>>)

  function StepNode<D>(n: Node<D>, e: Event<D>): Node<D> {
    match e
    case Do(call, appended) =>
      var o := Execute(n.memory, call, appended);
      Node(o.state, n.log + o.written)
    case Restart(clock) => Node(ReplayLog(n.log, clock), n.log)
  }

  // A run starts with an empty log.
  function Run<D>(events: seq<Event<D>>): Node<D> {
    if events == [] then Node(Empty(), [])
    else StepNode(Run(events[..|events| - 1]), events[|events| - 1])
  }

  lemma RunLast<D>(events: seq<Event<D>>, e: Event<D>)
    ensures Run(events + [e]) == StepNode(Run(events), e)
  {
    assert (events + [e])[..|events|] == events;
  }

  // ----- Task ids -----

  function Drawn<D>(s: State<D>, call: Call<D>): seq<string> {
    match call
    case Dequeue(queue, id, _) => if Contents(s, queue) != [] then [id] else []
    case DequeueBatch(queue, count, draw, _) => FirstDraws(BatchSize(s, queue, count), draw)
    case _ => []
  }

  function UsedIds<D>(events: seq<Event<D>>): set<string> {
    if events == [] then {}
    else
      var before, last := events[..|events| - 1], events[|events| - 1];
      UsedIds(before) +
      match last
      case Do(call, _) => IdSet(Drawn(Run(before).memory, call))
      case Restart(_) => {}
  }

  ghost predicate Distinct<T>(s: seq<T>) {
    forall i, j | 0 <= i < j < |s| :: s[i] != s[j]
  }

  // No id is drawn twice in the run; an id drawn by a call whose append fails counts.
  ghost predicate FreshIds<D>(events: seq<Event<D>>) {
    events == [] ||
    var before, last := events[..|events| - 1], events[|events| - 1];
    && FreshIds(before)
    && (last.Do? ==>
          var ids := Drawn(Run(before).memory, last.call);
          Distinct(ids) && forall id | id in ids :: id !in UsedIds(before))
  }

  function LostAfter<D>(n: Node<D>, lost: set<string>, e: Event<D>): set<string> {
    match e
    case Do(call, appended) =>
      if call.Ack? && !appended && call.id in n.memory.inFlight then lost + {call.id} else lost
    case Restart(_) => {}
  }

  // The tasks whose ack append failed since the last restart.
  function LostAcks<D>(events: seq<Event<D>>): set<string> {
    if events == [] then {}
    else
      var before, last := events[..|events| - 1], events[|events| - 1];
      LostAfter(Run(before), LostAcks(before), last)
  }

  // ----- The simulation -----

  ghost predicate Covers<D>(m: map<string, InFlightTask<D>>, r: map<string, InFlightTask<D>>, lost: set<string>) {
    && r.Keys == m.Keys + lost
    && m.Keys !! lost
    && forall id | id in m :: SameTask(m[id], r[id])
  }

  // The recovered state has the same queues, and in flight exactly the tasks in memory
  // plus those whose ack was lost.
  ghost predicate Simulates<D>(memory: State<D>, recovered: State<D>, lost: set<string>) {
    memory.queues == recovered.queues && Covers(memory.inFlight, recovered.inFlight, lost)
  }

  // Equal but for consumption times, which replay restamps.
  ghost predicate SameUpToStamps<D>(s: State<D>, t: State<D>) {
    Simulates(s, t, {})
  }

  lemma {:induction false} InsertCovers<D>(
    m: map<string, InFlightTask<D>>, r: map<string, InFlightTask<D>>, lost: set<string>,
    ms: seq<InFlightTask<D>>, rs: seq<InFlightTask<D>>)
    requires Covers(m, r, lost) && |ms| == |rs|
    requires forall i | 0 <= i < |ms| :: SameTask(ms[i], rs[i]) && ms[i].id !in lost
    ensures Covers(Insert(m, ms), Insert(r, rs), lost)
  {
    if ms != [] {
      var n := |ms| - 1;
      InsertCovers(m, r, lost, ms[..n], rs[..n]);
      assert SameTask(ms[n], rs[n]) && ms[n].id !in lost;
    }
  }

  // The memory commits an entry that replay accepts and repeats.
  ghost predicate CommitRepeated<D>(
    memory: State<D>, recovered: State<D>, lost: set<string>, call: Call<D>, at: Readings)
    requires PlanOf(memory, call).Commit?
  {
    var plan := PlanOf(memory, call);
    Accepted(recovered, plan.entry) &&
    Simulates(plan.done, ReplayEntry(recovered, plan.entry, at), lost)
  }

  lemma QueueCallRepeated<D>(memory: State<D>, recovered: State<D>, lost: set<string>, call: Call<D>, at: Readings)
    requires Simulates(memory, recovered, lost) && PlanOf(memory, call).Commit?
    requires call.CreateQueue? || call.Enqueue? || call.EnqueueBatch?
    ensures CommitRepeated(memory, recovered, lost, call, at)
  {
  }

  lemma TaskCallRepeated<D>(memory: State<D>, recovered: State<D>, lost: set<string>, call: Call<D>, at: Readings)
    requires Simulates(memory, recovered, lost) && WellFormed(recovered) && PlanOf(memory, call).Commit?
    requires call.Ack? || call.AckBatch? || call.ExtendVisibility?
    ensures CommitRepeated(memory, recovered, lost, call, at)
  {
    if call.AckBatch? {
      MissingNone(memory.inFlight, call.ids);
      MissingNone(recovered.inFlight, call.ids);
    }
  }

  lemma NackRepeated<D>(memory: State<D>, recovered: State<D>, lost: set<string>, call: Call<D>, at: Readings)
    requires Simulates(memory, recovered, lost) && WellFormed(recovered) && PlanOf(memory, call).Commit?
    requires call.Nack?
    ensures CommitRepeated(memory, recovered, lost, call, at)
  {
    assert WellFormedTask(recovered, call.id, recovered.inFlight[call.id]);
  }

  lemma DeliveryRepeated<D>(memory: State<D>, recovered: State<D>, lost: set<string>, call: Call<D>, at: Readings)
    requires Simulates(memory, recovered, lost) && PlanOf(memory, call).Commit?
    requires call.Dequeue? || call.DequeueBatch?
    requires forall id | id in Drawn(memory, call) :: id !in lost
    ensures CommitRepeated(memory, recovered, lost, call, at)
  {
    match call {
      case Dequeue(queue, id, now) =>
        assert [id][..1] == [id];
        TakeSimulates(memory, recovered, lost, queue, [id], _ => now, at);
        assert Insert(memory.inFlight, []) == memory.inFlight;
        var one := LentAll(memory.queues[queue][..1], queue, [id], _ => now);
        assert one[..0] == [];
      case DequeueBatch(queue, count, draw, now) =>
        var ids := FirstDraws(BatchSize(memory, queue, count), draw);
        assert ids[..|ids|] == ids;
        TakeSimulates(memory, recovered, lost, queue, ids, now, at);
    }
  }

  lemma CommitSimulates<D>(memory: State<D>, recovered: State<D>, lost: set<string>, call: Call<D>, at: Readings)
    requires Simulates(memory, recovered, lost) && WellFormed(recovered)
    requires PlanOf(memory, call).Commit?
    requires forall id | id in Drawn(memory, call) :: id !in lost
    ensures CommitRepeated(memory, recovered, lost, call, at)
  {
    match call {
      case CreateQueue(_) => QueueCallRepeated(memory, recovered, lost, call, at);
      case Enqueue(_, _) => QueueCallRepeated(memory, recovered, lost, call, at);
      case EnqueueBatch(_, _) => QueueCallRepeated(memory, recovered, lost, call, at);
      case Dequeue(_, _, _) => DeliveryRepeated(memory, recovered, lost, call, at);
      case DequeueBatch(_, _, _, _) => DeliveryRepeated(memory, recovered, lost, call, at);
      case Nack(_) => NackRepeated(memory, recovered, lost, call, at);
      case _ => TaskCallRepeated(memory, recovered, lost, call, at);
    }
  }

  lemma TakeSimulates<D>(
    memory: State<D>, recovered: State<D>, lost: set<string>,
    queue: string, ids: seq<string>, now: Readings, at: Readings)
    requires Simulates(memory, recovered, lost)
    requires queue in memory.queues && |ids| <= |memory.queues[queue]|
    requires forall id | id in ids :: id !in lost
    ensures Simulates(Take(memory, queue, ids, now), Take(recovered, queue, ids, at), lost)
  {
    var items := memory.queues[queue][..|ids|];
    var ms, rs := LentAll(items, queue, ids, now), LentAll(items, queue, ids, at);
    forall i | 0 <= i < |ids| ensures SameTask(ms[i], rs[i]) && ms[i].id !in lost {
      assert ids[i] in ids;
    }
    InsertCovers(memory.inFlight, recovered.inFlight, lost, ms, rs);
  }

  lemma ForceDeliveryUpToStamps<D>(
    s: State<D>, t: State<D>, queue: string, ids: seq<string>, at: Readings, at': Readings)
    requires SameUpToStamps(s, t)
    ensures SameUpToStamps(ForceDelivery(s, queue, ids, at), ForceDelivery(t, queue, ids, at'))
  {
    if queue in s.queues {
      TakeSimulates(s, t, {}, queue, ids[..Min(|ids|, |s.queues[queue]|)], at, at');
    }
  }

  lemma QueueEntryUpToStamps<D>(s: State<D>, t: State<D>, entry: WalOp<D>, at: Readings, at': Readings)
    requires SameUpToStamps(s, t)
    requires entry.CreateQueue? || entry.Enqueue? || entry.EnqueueBatch?
    ensures SameUpToStamps(ReplayEntry(s, entry, at), ReplayEntry(t, entry, at'))
  {
  }

  lemma TaskEntryUpToStamps<D>(s: State<D>, t: State<D>, entry: WalOp<D>, at: Readings, at': Readings)
    requires SameUpToStamps(s, t)
    requires entry.Ack? || entry.AckBatch? || entry.ExtendVisibility?
    ensures SameUpToStamps(ReplayEntry(s, entry, at), ReplayEntry(t, entry, at'))
  {
    if entry.AckBatch? {
      MissingNone(s.inFlight, entry.ids);
      MissingNone(t.inFlight, entry.ids);
    }
  }

  lemma NackUpToStamps<D>(s: State<D>, t: State<D>, id: string, at: Readings, at': Readings)
    requires SameUpToStamps(s, t)
    ensures SameUpToStamps(ReplayEntry(s, WalOp.Nack(id), at), ReplayEntry(t, WalOp.Nack(id), at'))
  {
  }

  // Replay depends on the clock in the consumption times only.
  lemma {:induction false} ReplayUpToStamps<D>(log: seq<WalOp<D>>, clock: ReplayClock, clock': ReplayClock)
    ensures SameUpToStamps(ReplayLog(log, clock), ReplayLog(log, clock'))
  {
    if log != [] {
      var n := |log| - 1;
      var s, t := ReplayLog(log[..n], clock), ReplayLog(log[..n], clock');
      ReplayUpToStamps(log[..n], clock, clock');
      match log[n] {
        case Dequeued(queue, id) => ForceDeliveryUpToStamps(s, t, queue, [id], clock(n), clock'(n));
        case DequeuedBatch(queue, ids) => ForceDeliveryUpToStamps(s, t, queue, ids, clock(n), clock'(n));
        case CreateQueue(_) => QueueEntryUpToStamps(s, t, log[n], clock(n), clock'(n));
        case Enqueue(_, _) => QueueEntryUpToStamps(s, t, log[n], clock(n), clock'(n));
        case EnqueueBatch(_, _) => QueueEntryUpToStamps(s, t, log[n], clock(n), clock'(n));
        case Nack(id) => NackUpToStamps(s, t, id, clock(n), clock'(n));
        case _ => TaskEntryUpToStamps(s, t, log[n], clock(n), clock'(n));
      }
    }
  }

  // ----- What a run keeps -----

  lemma AppendAccepted<D>(log: seq<WalOp<D>>, entry: WalOp<D>, clock: ReplayClock)
    requires AllAccepted(log, clock) && Accepted(ReplayLog(log, clock), entry)
    ensures AllAccepted(log + [entry], clock)
    ensures ReplayLog(log + [entry], clock) == ReplayEntry(ReplayLog(log, clock), entry, clock(|log|))
  {
    var longer := log + [entry];
    assert longer[..|log|] == log;
    forall i | 0 <= i < |longer| ensures Accepted(ReplayLog(longer[..i], clock), longer[i]) {
      if i < |log| {
        assert longer[..i] == log[..i];
      }
    }
  }

  lemma AcceptedLast<D>(log: seq<WalOp<D>>, entry: WalOp<D>, clock: ReplayClock)
    requires AllAccepted(log + [entry], clock)
    ensures Accepted(ReplayLog(log, clock), entry)
    ensures ReplayLog(log + [entry], clock) == ReplayEntry(ReplayLog(log, clock), entry, clock(|log|))
  {
    assert (log + [entry])[..|log|] == log && (log + [entry])[|log|] == entry;
  }

  lemma ReplayWellFormed<D>(log: seq<WalOp<D>>, clock: ReplayClock)
    requires AllAccepted(log, clock)
    ensures WellFormed(ReplayLog(log, clock))
  {
    ReplayIsJournal(log, clock);
    ApplyAllKeepsWellFormed(Empty(), Journal(log, clock));
  }

  ghost predicate Recoverable<D>(n: Node<D>, lost: set<string>, clock: ReplayClock) {
    AllAccepted(n.log, clock) && Simulates(n.memory, ReplayLog(n.log, clock), lost)
  }

  lemma CommitRecoverable<D>(n: Node<D>, lost: set<string>, call: Call<D>, clock: ReplayClock)
    requires Recoverable(n, lost, clock) && PlanOf(n.memory, call).Commit?
    requires forall id | id in Drawn(n.memory, call) :: id !in lost
    ensures var plan := PlanOf(n.memory, call);
            Recoverable(Node(plan.done, n.log + [plan.entry]), lost, clock)
  {
    ReplayWellFormed(n.log, clock);
    CommitSimulates(n.memory, ReplayLog(n.log, clock), lost, call, clock(|n.log|));
    AppendAccepted(n.log, PlanOf(n.memory, call).entry, clock);
  }

  lemma RestartRecoverable<D>(n: Node<D>, lost: set<string>, clock: ReplayClock, clock': ReplayClock)
    requires Recoverable(n, lost, clock)
    ensures Recoverable(Node(ReplayLog(n.log, clock'), n.log), {}, clock)
  {
    ReplayUpToStamps(n.log, clock', clock);
  }

  // A call that logs nothing leaves the memory alone, but for an ack whose append failed.
  lemma UnloggedRecoverable<D>(n: Node<D>, lost: set<string>, call: Call<D>, appended: bool, clock: ReplayClock)
    requires Recoverable(n, lost, clock)
    requires PlanOf(n.memory, call).Answer? || !appended
    ensures Execute(n.memory, call, appended).written == []
    ensures Recoverable(Node(Execute(n.memory, call, appended).state, n.log),
                        LostAfter(n, lost, Do(call, appended)), clock)
  {
  }

  // Every step keeps the simulation, with the lost acks counted since the last restart.
  lemma StepRecoverable<D>(n: Node<D>, lost: set<string>, e: Event<D>, clock: ReplayClock)
    requires Recoverable(n, lost, clock)
    requires e.Do? ==> forall id | id in Drawn(n.memory, e.call) :: id !in lost
    ensures Recoverable(StepNode(n, e), LostAfter(n, lost, e), clock)
  {
    match e {
      case Restart(clock') => RestartRecoverable(n, lost, clock, clock');
      case Do(call, appended) =>
        if PlanOf(n.memory, call).Commit? && appended {
          CommitRecoverable(n, lost, call, clock);
        } else {
          UnloggedRecoverable(n, lost, call, appended, clock);
          assert n.log + [] == n.log;
        }
    }
  }

  lemma {:induction false} InsertKeys<D>(m: map<string, InFlightTask<D>>, more: seq<InFlightTask<D>>)
    ensures Insert(m, more).Keys == m.Keys + set t | t in more :: t.id
  {
    if more != [] {
      var n := |more| - 1;
      InsertKeys(m, more[..n]);
      assert more == more[..n] + [more[n]];
    }
  }

  lemma TakeKeys<D>(s: State<D>, queue: string, ids: seq<string>, at: Readings)
    requires queue in s.queues && |ids| <= |s.queues[queue]|
    ensures Take(s, queue, ids, at).inFlight.Keys <= s.inFlight.Keys + IdSet(ids)
  {
    var tasks := LentAll(s.queues[queue][..|ids|], queue, ids, at);
    InsertKeys(s.inFlight, tasks);
    forall t | t in tasks ensures t.id in ids {
      var i :| 0 <= i < |tasks| && tasks[i] == t;
      assert t.id == ids[i];
    }
  }

  lemma ExecuteKeys<D>(s: State<D>, call: Call<D>, appended: bool)
    ensures Execute(s, call, appended).state.inFlight.Keys
         <= s.inFlight.Keys + IdSet(Drawn(s, call))
  {
    if call.DequeueBatch? && BatchSize(s, call.queue, call.count) > 0 {
      TakeKeys(s, call.queue, Drawn(s, call), call.at);
    }
  }

  // No ack of the run has a failing append.
  ghost predicate NoAckFails<D>(events: seq<Event<D>>) {
    forall e | e in events :: e.Do? && e.call.Ack? ==> e.appended
  }

  lemma {:induction false} StillFresh<D>(events: seq<Event<D>>, j: nat)
    requires j <= |events|
    ensures FreshIds(events) ==> FreshIds(events[..j])
    ensures NoAckFails(events) ==> NoAckFails(events[..j])
    decreases |events|
  {
    if j == |events| {
      assert events[..j] == events;
    } else {
      var before := events[..|events| - 1];
      assert before[..j] == events[..j];
      assert forall e | e in before :: e in events;
      StillFresh(before, j);
    }
  }

  lemma {:induction false} RunRecoverable<D>(events: seq<Event<D>>, clock: ReplayClock)
    requires FreshIds(events) || NoAckFails(events)
    ensures Recoverable(Run(events), LostAcks(events), clock)
    ensures NoAckFails(events) ==> LostAcks(events) == {}
    ensures ReplayLog(Run(events).log, clock).inFlight.Keys <= UsedIds(events)
  {
    if events != [] {
      var before, last := events[..|events| - 1], events[|events| - 1];
      assert forall e | e in before :: e in events;
      assert last in events;
      RunRecoverable(before, clock);
      var n := Run(before);
      if last.Do? {
        ExecuteKeys(n.memory, last.call, last.appended);
      }
      StepRecoverable(n, LostAcks(before), last, clock);
    }
  }

  // ----- Main results -----

  // Replaying the log of a run with failing ack appends gives the queues of the memory,
  // and its in-flight tasks plus exactly those whose ack was lost since the last restart.
  lemma LostAckSimulation<D>(events: seq<Event<D>>, clock: ReplayClock)
    requires FreshIds(events)
    ensures var n := Run(events);
            Simulates(n.memory, ReplayLog(n.log, clock), LostAcks(events)) &&
            (SameUpToStamps(n.memory, ReplayLog(n.log, clock)) <==> LostAcks(events) == {})
  {
    RunRecoverable(events, clock);
  }

  // When no ack append fails, whatever other appends do and wherever the restarts are,
  // replaying the log gives the memory back. Nothing is asked of the task ids.
  lemma RecoveryExact<D>(events: seq<Event<D>>, clock: ReplayClock)
    requires NoAckFails(events)
    ensures SameUpToStamps(Run(events).memory, ReplayLog(Run(events).log, clock))
  {
    RunRecoverable(events, clock);
  }

  // On a log this storage wrote, replay discards no failure.
  lemma ReplayHidesNoFailure<D>(events: seq<Event<D>>, clock: ReplayClock, i: nat)
    requires FreshIds(events) || NoAckFails(events)
    requires i < |Run(events).log|
    ensures Accepted(ReplayLog(Run(events).log[..i], clock), Run(events).log[i])
  {
    RunRecoverable(events, clock);
  }

  lemma LogGrows<D>(n: Node<D>, e: Event<D>)
    ensures n.log <= StepNode(n, e).log && |StepNode(n, e).log| <= |n.log| + 1
  {
  }

  lemma {:induction false} LogOfPrefix<D>(events: seq<Event<D>>, j: nat)
    requires j <= |events|
    ensures Run(events[..j]).log <= Run(events).log
    decreases |events|
  {
    if j == |events| {
      assert events[..j] == events;
    } else {
      var n := |events| - 1;
      LogGrows(Run(events[..n]), events[n]);
      LogOfPrefix(events[..n], j);
      assert events[..n][..j] == events[..j];
    }
  }

  // The k-th entry was written by the j-th event: before it the log has k-1 entries.
  lemma {:induction false} WriterOf<D>(events: seq<Event<D>>, k: nat) returns (j: nat)
    requires 0 < k <= |Run(events).log|
    ensures 0 < j <= |events|
    ensures Run(events[..j]).log == Run(events).log[..k]
    ensures Run(events[..j - 1]).log == Run(events).log[..k - 1]
    decreases |events|
  {
    var before := events[..|events| - 1];
    LogGrows(Run(before), events[|events| - 1]);
    if k <= |Run(before).log| {
      j := WriterOf(before, k);
      assert before[..j] == events[..j] && before[..j - 1] == events[..j - 1];
    } else {
      j := |events|;
      assert events[..j] == events;
    }
  }

  // Replaying the first k entries gives the state the run had just after the event that
  // wrote the k-th entry.
  lemma PrefixRecovery<D>(events: seq<Event<D>>, clock: ReplayClock, k: nat) returns (j: nat)
    requires NoAckFails(events)
    requires 0 < k <= |Run(events).log|
    ensures 0 < j <= |events|
    ensures Run(events[..j]).log == Run(events).log[..k]
    ensures Run(events[..j - 1]).log == Run(events).log[..k - 1]
    ensures SameUpToStamps(Run(events[..j]).memory, ReplayLog(Run(events).log[..k], clock))
  {
    j := WriterOf(events, k);
    RecoveryExact(events[..j], clock);
  }
}
