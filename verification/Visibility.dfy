// Consumption times over whole runs: what a heartbeat protects, and what a restart does
// to the age of a task.

module Visibility {
  import opened QueueState
  import opened StorageCalls
  import opened Replay
  import opened Recovery
  import opened Sweep

  // A condition on the consumption time of a task.
  type Condition = (string, int) -> bool

  function NotBefore(t: int): Condition {
    (_, r) => r >= t
  }

  function NotAfter(t: int): Condition {
    (_, r) => r <= t
  }

  ghost predicate StampsMeet<D>(tasks: map<string, InFlightTask<D>>, p: Condition) {
    forall id | id in tasks :: p(id, tasks[id].consumedAt)
  }

  ghost predicate ReadingMeets(now: int, p: Condition) {
    forall id: string :: p(id, now)
  }

  // Every clock reading of the event would meet the condition for every task.
  ghost predicate ReadingsMeet<D>(e: Event<D>, p: Condition) {
    match e
    case Do(call, _) => CallReadingsMeet(call, p)
    case Restart(clock) => forall i: nat, j: nat :: ReadingMeets(clock(i)(j), p)
  }

  ghost predicate CallReadingsMeet<D>(call: Call<D>, p: Condition) {
    match call
    case Dequeue(_, _, now) => ReadingMeets(now, p)
    case DequeueBatch(_, _, _, at) => forall i: nat :: ReadingMeets(at(i), p)
    case ExtendVisibility(_, _, now) => ReadingMeets(now, p)
    case _ => true
  }

  lemma {:induction false} InsertStamps<D>(m: map<string, InFlightTask<D>>, more: seq<InFlightTask<D>>, p: Condition)
    requires StampsMeet(m, p)
    requires forall i | 0 <= i < |more| :: ReadingMeets(more[i].consumedAt, p)
    ensures StampsMeet(Insert(m, more), p)
  {
    if more != [] {
      var n := |more| - 1;
      InsertStamps(m, more[..n], p);
      assert ReadingMeets(more[n].consumedAt, p);
    }
  }

  lemma TakeStamps<D>(s: State<D>, queue: string, ids: seq<string>, at: nat -> int, p: Condition)
    requires queue in s.queues && |ids| <= |s.queues[queue]|
    requires StampsMeet(s.inFlight, p) && forall i: nat :: ReadingMeets(at(i), p)
    ensures StampsMeet(Take(s, queue, ids, at).inFlight, p)
  {
    InsertStamps(s.inFlight, LentAll(s.queues[queue][..|ids|], queue, ids, at), p);
  }

  lemma ExecuteStamps<D>(s: State<D>, call: Call<D>, appended: bool, p: Condition)
    requires StampsMeet(s.inFlight, p) && CallReadingsMeet(call, p)
    ensures StampsMeet(Execute(s, call, appended).state.inFlight, p)
  {
    match call {
      case DequeueBatch(queue, count, draw, at) =>
        if queue in s.queues {
          TakeStamps(s, queue, FirstDraws(BatchSize(s, queue, count), draw), at, p);
        }
      case _ =>
    }
  }

  lemma {:induction false} ReplayStamps<D>(log: seq<WalOp<D>>, clock: ReplayClock, p: Condition)
    requires forall i: nat, j: nat :: ReadingMeets(clock(i)(j), p)
    ensures StampsMeet(ReplayLog(log, clock).inFlight, p)
  {
    if log != [] {
      var n := |log| - 1;
      var s := ReplayLog(log[..n], clock);
      ReplayStamps(log[..n], clock, p);
      EntryIsCall(s, log[n], clock(n));
      ExecuteStamps(s, CallOfEntry(log[n], clock(n)), true, p);
    }
  }

  lemma {:induction false} RunStamps<D>(before: seq<Event<D>>, after: seq<Event<D>>, p: Condition)
    requires StampsMeet(Run(before).memory.inFlight, p)
    requires forall e | e in after :: ReadingsMeet(e, p)
    ensures StampsMeet(Run(before + after).memory.inFlight, p)
  {
    var all := before + after;
    if after == [] {
      assert all == before;
    } else {
      var last := after[|after| - 1];
      assert all[..|all| - 1] == before + after[..|after| - 1] && all[|all| - 1] == last;
      RunStamps(before, after[..|after| - 1], p);
      assert last in after;
      var n := Run(all[..|all| - 1]);
      match last {
        case Do(call, appended) => ExecuteStamps(n.memory, call, appended, p);
        case Restart(clock) => ReplayStamps(n.log, clock, p);
      }
    }
  }

  // ----- Main results -----

  // A task heartbeated at t is not expired at or before t plus the timeout, whatever
  // happens in between, restarts included, as long as the clock does not run backwards.
  lemma HeartbeatProtects<D>(
    before: seq<Event<D>>, id: string, duration: nat, t: int, after: seq<Event<D>>, timeout: nat, now: int)
    requires id in Run(before).memory.inFlight
    requires forall e | e in after :: ReadingsMeet(e, NotBefore(t))
    requires now <= t + timeout * 1_000_000_000
    ensures id !in ExpiredIds(
              Run(before + [Do(Call.ExtendVisibility(id, duration, t), true)] + after).memory, timeout, now)
  {
    var p: Condition := (i, r) => i == id ==> r >= t;
    var beat := before + [Do(Call.ExtendVisibility(id, duration, t), true)];
    assert beat[..|beat| - 1] == before;
    forall e | e in after ensures ReadingsMeet(e, p) {
      var late := NotBefore(t);
      assert forall r :: ReadingMeets(r, late) ==> late("", r);
      Weaker(e, late, p);
    }
    RunStamps(beat, after, p);
  }

  // Right after a heartbeat at t the task is expired exactly when the timeout is over: the
  // duration the heartbeat asked for plays no part.
  lemma HeartbeatIgnoresDuration<D>(s: State<D>, id: string, duration: nat, t: int, timeout: nat, now: int)
    requires id in s.inFlight
    ensures var beaten := Execute(s, Call.ExtendVisibility(id, duration, t), true).state;
            id in ExpiredIds(beaten, timeout, now) <==> now > t + timeout * 1_000_000_000
  {
  }

  // What a heartbeat is documented to give: the task does not expire for the duration.
  ghost predicate ProtectsFor<D>(s: State<D>, id: string, duration: nat, t: int, timeout: nat) {
    forall now | t <= now <= t + duration * 1_000_000_000 ::
      id !in ExpiredIds(Execute(s, Call.ExtendVisibility(id, duration, t), true).state, timeout, now)
  }

  lemma ProtectsForIff<D>(s: State<D>, id: string, duration: nat, t: int, timeout: nat)
    requires id in s.inFlight
    ensures ProtectsFor(s, id, duration, t, timeout) <==> duration <= timeout
  {
    var end := t + duration * 1_000_000_000;
    HeartbeatIgnoresDuration(s, id, duration, t, timeout, end);
    assert end > t + timeout * 1_000_000_000 <==> duration > timeout;
    forall now | t <= now <= end
      ensures id in ExpiredIds(Execute(s, Call.ExtendVisibility(id, duration, t), true).state, timeout, now)
              ==> duration > timeout
    {
      HeartbeatIgnoresDuration(s, id, duration, t, timeout, now);
    }
  }

  lemma Weaker<D>(e: Event<D>, p: Condition, q: Condition)
    requires ReadingsMeet(e, p)
    requires forall r :: ReadingMeets(r, p) ==> ReadingMeets(r, q)
    ensures ReadingsMeet(e, q)
  {
  }

  // A cleanup leaves every task that is not expired where it is, whatever its appends do.
  lemma {:induction false} NackAllSpares<D>(s: State<D>, ids: seq<string>, appended: nat -> bool, id: string)
    requires id in s.inFlight && id !in ids
    ensures var w := NackAll(s, ids, appended);
            id in w.state.inFlight && w.state.inFlight[id] == s.inFlight[id]
  {
    if ids != [] {
      NackAllSpares(s, ids[..|ids| - 1], appended, id);
    }
  }

  lemma CleanupSparesHeartbeat<D>(
    before: seq<Event<D>>, id: string, duration: nat, t: int, after: seq<Event<D>>,
    order: seq<string>, timeout: nat, now: int, appended: nat -> bool)
    requires id in Run(before).memory.inFlight
    requires forall e | e in after :: ReadingsMeet(e, NotBefore(t))
    requires now <= t + timeout * 1_000_000_000
    requires var s := Run(before + [Do(Call.ExtendVisibility(id, duration, t), true)] + after).memory;
             Enumerates(order, s.inFlight.Keys) && id in s.inFlight
    ensures var s := Run(before + [Do(Call.ExtendVisibility(id, duration, t), true)] + after).memory;
            var w := NackAll(s, Scan(s.inFlight, order, timeout, now), appended);
            id in w.state.inFlight && w.state.inFlight[id] == s.inFlight[id]
  {
    var s := Run(before + [Do(Call.ExtendVisibility(id, duration, t), true)] + after).memory;
    HeartbeatProtects(before, id, duration, t, after, timeout, now);
    ScanIsExpired(s, order, timeout, now);
    NackAllSpares(s, Scan(s.inFlight, order, timeout, now), appended, id);
  }

  // Recovery never makes a task older: what is expired after a restart was expired before.
  lemma RecoveryExpiresNothing<D>(events: seq<Event<D>>, clock: ReplayClock, t: int, timeout: nat, now: int)
    requires FreshIds(events) || NoAckFails(events)
    requires forall e | e in events :: ReadingsMeet(e, NotAfter(t))
    requires forall i: nat, j: nat :: ReadingMeets(clock(i)(j), NotBefore(t))
    ensures ExpiredIds(ReplayLog(Run(events).log, clock), timeout, now) - LostAcks(events)
         <= ExpiredIds(Run(events).memory, timeout, now)
  {
    RunRecoverable(events, clock);
    assert [] + events == events;
    RunStamps([], events, NotAfter(t));
    ReplayStamps(Run(events).log, clock, NotBefore(t));
  }
}
