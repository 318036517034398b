// The cleanup of expired tasks: scan the in-flight tasks in some order, then nack each
// expired one.

module Sweep {
  import opened QueueState
  import opened StorageCalls
  import opened Recovery

  const NANOS_PER_SECOND := 1_000_000_000

  predicate Expired<D>(task: InFlightTask<D>, timeout: nat, now: int) {
    now - task.consumedAt > timeout * NANOS_PER_SECOND
  }

  // The expired ones among the tasks, in the order in which the map is iterated over.
  function Scan<D>(tasks: map<string, InFlightTask<D>>, order: seq<string>, timeout: nat, now: int): seq<string>
    requires forall id | id in order :: id in tasks
  {
    if order == [] then []
    else
      var n := |order| - 1;
      Scan(tasks, order[..n], timeout, now) + if Expired(tasks[order[n]], timeout, now) then [order[n]] else []
  }

  // The state after a list of nacks, what they logged and how many were answered Ok.
  datatype Swept<D> = Swept(state: State<D>, written: seq<WalOp<D>>, count: nat)

  function NackOne<D>(before: Swept<D>, id: string, appended: bool): Swept<D> {
    var o := Execute(before.state, Call.Nack(id), appended);
    Swept(o.state, before.written + o.written, before.count + if o.response == Done then 1 else 0)
  }

  function NackAll<D>(s: State<D>, ids: seq<string>, appended: nat -> bool): Swept<D> {
    if ids == [] then Swept(s, [], 0)
    else
      var n := |ids| - 1;
      NackOne(NackAll(s, ids[..n], appended), ids[n], appended(n))
  }

  lemma NackOneWrites<D>(before: Swept<D>, id: string, appended: bool)
    ensures var o, w := Execute(before.state, Call.Nack(id), appended), NackOne(before, id, appended);
            && w.state == o.state && w.written == before.written + o.written
            && w.count == before.count + if o.response == Done then 1 else 0
  {
  }

  lemma NackAllNext<D>(s: State<D>, ids: seq<string>, i: nat, appended: nat -> bool)
    requires i < |ids|
    ensures NackAll(s, ids[..i + 1], appended) == NackOne(NackAll(s, ids[..i], appended), ids[i], appended(i))
  {
    assert ids[..i + 1][..i] == ids[..i];
  }

  // order lists every key exactly once, as the iteration over a map does.
  ghost predicate Enumerates(order: seq<string>, keys: set<string>) {
    Distinct(order) && forall id :: id in order <==> id in keys
  }

  function ExpiredIds<D>(s: State<D>, timeout: nat, now: int): set<string> {
    set id | id in s.inFlight && Expired(s.inFlight[id], timeout, now)
  }

  // How many of these tasks a nack turns into item x of a queue.
  ghost function Landing<D>(s: State<D>, ids: set<string>, queue: string, x: QueueItem<D>): nat {
    |set id | id in ids && id in s.inFlight
      && Destination(s.inFlight[id]) == queue && Returning(s.inFlight[id]) == x|
  }

  lemma {:induction false} ScanFinds<D>(
    tasks: map<string, InFlightTask<D>>, order: seq<string>, timeout: nat, now: int, id: string)
    requires forall i | i in order :: i in tasks
    ensures id in Scan(tasks, order, timeout, now) <==> id in order && Expired(tasks[id], timeout, now)
    decreases |order|
  {
    if order != [] {
      var n := |order| - 1;
      ScanFinds(tasks, order[..n], timeout, now, id);
      assert id in order <==> id in order[..n] || id == order[n];
    }
  }

  // The expired ones and no others, in the order of iteration.
  lemma {:induction false} ScanInOrder<D>(
    tasks: map<string, InFlightTask<D>>, order: seq<string>, timeout: nat, now: int) returns (at: seq<nat>)
    requires forall id | id in order :: id in tasks
    ensures var expired := Scan(tasks, order, timeout, now);
            && |at| == |expired|
            && (forall k | 0 <= k < |at| :: at[k] < |order| && expired[k] == order[at[k]])
            && (forall j, k | 0 <= j < k < |at| :: at[j] < at[k])
            && forall p: nat | p < |order| ::
                 p in at <==> now - tasks[order[p]].consumedAt > timeout * 1_000_000_000
    decreases |order|
  {
    at := [];
    if order != [] {
      var n := |order| - 1;
      var before := ScanInOrder(tasks, order[..n], timeout, now);
      at := before + if Expired(tasks[order[n]], timeout, now) then [n] else [];
      forall p: nat | p < |order|
        ensures p in at <==> now - tasks[order[p]].consumedAt > timeout * 1_000_000_000
      {
        assert p < n ==> order[..n][p] == order[p];
        assert n !in before;
      }
    }
  }

  lemma {:induction false} ScanDistinct<D>(
    tasks: map<string, InFlightTask<D>>, order: seq<string>, timeout: nat, now: int)
    requires Distinct(order) && forall i | i in order :: i in tasks
    ensures Distinct(Scan(tasks, order, timeout, now))
    decreases |order|
  {
    if order != [] {
      var n := |order| - 1;
      ScanDistinct(tasks, order[..n], timeout, now);
      ScanFinds(tasks, order[..n], timeout, now, order[n]);
    }
  }

  lemma ScanIsExpired<D>(s: State<D>, order: seq<string>, timeout: nat, now: int)
    requires Distinct(order) && forall id | id in order :: id in s.inFlight
    ensures var expired := Scan(s.inFlight, order, timeout, now);
            && Distinct(expired)
            && forall id :: id in expired <==> id in order && Expired(s.inFlight[id], timeout, now)
  {
    ScanDistinct(s.inFlight, order, timeout, now);
    forall id: string
      ensures id in Scan(s.inFlight, order, timeout, now) <==> id in order && Expired(s.inFlight[id], timeout, now)
    {
      ScanFinds(s.inFlight, order, timeout, now, id);
    }
  }

  // What a sweep over distinct in-flight ids does, whatever their order.
  ghost predicate SweptExactly<D(!new)>(s: State<D>, ids: set<string>, w: Swept<D>) {
    && w.state.inFlight == s.inFlight - ids
    && w.count == |ids|
    && w.state.queues.Keys == s.queues.Keys + Destinations(s, ids)
    && forall queue, x ::
         multiset(Contents(w.state, queue))[x] == multiset(Contents(s, queue))[x] + Landing(s, ids, queue, x)
  }

  lemma RequeueAddsOne<D>(s: State<D>, task: InFlightTask<D>, queue: string, x: QueueItem<D>)
    requires HasDestination(s, task)
    ensures multiset(Contents(Requeue(s, task), queue))[x] == multiset(Contents(s, queue))[x]
          + (if Destination(task) == queue && Returning(task) == x then 1 else 0)
  {
  }

  lemma LandingAddsOne<D>(s: State<D>, ids: set<string>, id: string, queue: string, x: QueueItem<D>)
    requires id in s.inFlight && id !in ids
    ensures Landing(s, ids + {id}, queue, x) == Landing(s, ids, queue, x)
          + (if Destination(s.inFlight[id]) == queue && Returning(s.inFlight[id]) == x then 1 else 0)
  {
    var smaller := set i | i in ids && i in s.inFlight
      && Destination(s.inFlight[i]) == queue && Returning(s.inFlight[i]) == x;
    var larger := set i | i in ids + {id} && i in s.inFlight
      && Destination(s.inFlight[i]) == queue && Returning(s.inFlight[i]) == x;
    if Destination(s.inFlight[id]) == queue && Returning(s.inFlight[id]) == x {
      assert larger == smaller + {id};
    } else {
      assert larger == smaller;
    }
  }

  lemma NackOneRequeues<D>(s: State<D>, earlier: set<string>, before: Swept<D>, id: string)
    requires WellFormed(s) && before.state.inFlight == s.inFlight - earlier
    requires s.queues.Keys <= before.state.queues.Keys
    requires id in s.inFlight && id !in earlier
    ensures var task, held := s.inFlight[id], Without(before.state, {id});
            HasDestination(held, task) &&
            NackOne(before, id, true) == Swept(Requeue(held, task), before.written + [WalOp.Nack(id)], before.count + 1)
  {
    assert WellFormedTask(s, id, s.inFlight[id]);
  }

  lemma LandsOneMore<D>(s: State<D>, earlier: set<string>, before: State<D>, id: string, queue: string, x: QueueItem<D>)
    requires id in s.inFlight && id !in earlier
    requires HasDestination(before, s.inFlight[id])
    requires multiset(Contents(before, queue))[x] == multiset(Contents(s, queue))[x] + Landing(s, earlier, queue, x)
    ensures multiset(Contents(Requeue(Without(before, {id}), s.inFlight[id]), queue))[x]
         == multiset(Contents(s, queue))[x] + Landing(s, earlier + {id}, queue, x)
  {
    RequeueAddsOne(Without(before, {id}), s.inFlight[id], queue, x);
    LandingAddsOne(s, earlier, id, queue, x);
  }

  lemma SweepOneMore<D(!new)>(s: State<D>, earlier: set<string>, before: Swept<D>, id: string)
    requires WellFormed(s) && SweptExactly(s, earlier, before)
    requires id in s.inFlight && id !in earlier
    ensures SweptExactly(s, earlier + {id}, NackOne(before, id, true))
  {
    NackOneRequeues(s, earlier, before, id);
    assert s.inFlight - earlier - {id} == s.inFlight - (earlier + {id});
    forall queue, x {
      LandsOneMore(s, earlier, before.state, id, queue, x);
    }
    DestinationsOneMore(s, earlier, id);
  }

  function Destinations<D>(s: State<D>, ids: set<string>): set<string> {
    set id | id in ids && id in s.inFlight :: Destination(s.inFlight[id])
  }

  lemma DestinationsOneMore<D>(s: State<D>, ids: set<string>, id: string)
    requires id in s.inFlight
    ensures Destinations(s, ids + {id}) == Destinations(s, ids) + {Destination(s.inFlight[id])}
  {
  }

  // The ids whose nack is appended.
  function TakenBack(ids: seq<string>, appended: nat -> bool): set<string> {
    set i | 0 <= i < |ids| && appended(i) :: ids[i]
  }

  lemma TakenBackOneMore(ids: seq<string>, appended: nat -> bool)
    requires ids != []
    ensures var n := |ids| - 1;
            TakenBack(ids, appended) == TakenBack(ids[..n], appended) + if appended(n) then {ids[n]} else {}
  {
    var n := |ids| - 1;
    forall id | id in TakenBack(ids, appended)
      ensures id in TakenBack(ids[..n], appended) || (appended(n) && id == ids[n])
    {
      var i :| 0 <= i < |ids| && appended(i) && ids[i] == id;
      assert i < n ==> ids[..n][i] == id;
    }
    forall id | id in TakenBack(ids[..n], appended) ensures id in TakenBack(ids, appended) {
      var i :| 0 <= i < n && appended(i) && ids[..n][i] == id;
      assert ids[i] == id;
    }
  }

  lemma FailedNackChangesNothing<D>(before: Swept<D>, id: string)
    ensures NackOne(before, id, false) == before
  {
    assert before.written + [] == before.written;
    var inFlight := before.state.inFlight;
    assert id in inFlight ==> (inFlight - {id})[id := inFlight[id]] == inFlight;
  }

  lemma {:induction false} SweepIsExact<D(!new)>(s: State<D>, ids: seq<string>, appended: nat -> bool)
    requires WellFormed(s) && Distinct(ids) && forall id | id in ids :: id in s.inFlight
    ensures SweptExactly(s, TakenBack(ids, appended), NackAll(s, ids, appended))
  {
    if ids == [] {
      assert s.inFlight - {} == s.inFlight;
    } else {
      var n := |ids| - 1;
      var before := NackAll(s, ids[..n], appended);
      SweepIsExact(s, ids[..n], appended);
      TakenBackOneMore(ids, appended);
      if appended(n) {
        assert ids[n] !in TakenBack(ids[..n], appended);
        SweepOneMore(s, TakenBack(ids[..n], appended), before, ids[n]);
      } else {
        FailedNackChangesNothing(before, ids[n]);
      }
    }
  }

  // A cleanup takes back exactly the expired tasks whose nack is appended, all of them if
  // no append fails, and counts these.
  lemma CleanupIsExact<D(!new)>(s: State<D>, order: seq<string>, timeout: nat, now: int, appended: nat -> bool)
    requires WellFormed(s) && Enumerates(order, s.inFlight.Keys)
    ensures var ids := Scan(s.inFlight, order, timeout, now);
            && SweptExactly(s, TakenBack(ids, appended), NackAll(s, ids, appended))
            && TakenBack(ids, appended) <= ExpiredIds(s, timeout, now)
            && ((forall i: nat :: appended(i)) ==> TakenBack(ids, appended) == ExpiredIds(s, timeout, now))
  {
    var ids := Scan(s.inFlight, order, timeout, now);
    ScanIsExpired(s, order, timeout, now);
    SweepIsExact(s, ids, appended);
    if forall i: nat :: appended(i) {
      forall id | id in ids ensures id in TakenBack(ids, appended) {
        var i :| 0 <= i < |ids| && ids[i] == id;
        assert appended(i);
      }
    }
  }

  // The order of the scan changes the order of the retries within a queue and nothing else.
  lemma CleanupOrderIndependent<D(!new)>(
    s: State<D>, order: seq<string>, order': seq<string>, timeout: nat, now: int, appended: nat -> bool)
    requires WellFormed(s) && Enumerates(order, s.inFlight.Keys) && Enumerates(order', s.inFlight.Keys)
    requires forall i: nat :: appended(i)
    ensures var w, w' := NackAll(s, Scan(s.inFlight, order, timeout, now), appended),
                         NackAll(s, Scan(s.inFlight, order', timeout, now), appended);
            && w.state.inFlight == w'.state.inFlight && w.count == w'.count
            && w.state.queues.Keys == w'.state.queues.Keys
            && forall queue :: multiset(Contents(w.state, queue)) == multiset(Contents(w'.state, queue))
  {
    CleanupIsExact(s, order, timeout, now, appended);
    CleanupIsExact(s, order', timeout, now, appended);
    var w, w' := NackAll(s, Scan(s.inFlight, order, timeout, now), appended),
                 NackAll(s, Scan(s.inFlight, order', timeout, now), appended);
    forall queue
      ensures multiset(Contents(w.state, queue)) == multiset(Contents(w'.state, queue))
    {
      var a, b := multiset(Contents(w.state, queue)), multiset(Contents(w'.state, queue));
      assert forall x :: a[x] == b[x];
    }
  }

  // ----- A cleanup inside a run -----

  function NackEvents<D>(ids: seq<string>, appended: nat -> bool): seq<Event<D>> {
    seq(|ids|, i requires 0 <= i < |ids| => Do(Call.Nack(ids[i]), appended(i)))
  }

  lemma NackIsStep<D>(w: Swept<D>, log: seq<WalOp<D>>, id: string, appended: bool)
    ensures StepNode(Node(w.state, log + w.written), Do(Call.Nack(id), appended))
         == Node(NackOne(w, id, appended).state, log + NackOne(w, id, appended).written)
  {
    var o := Execute(w.state, Call.Nack(id), appended);
    assert log + w.written + o.written == log + (w.written + o.written);
  }

  lemma NackEventsSplit<D>(events: seq<Event<D>>, ids: seq<string>, appended: nat -> bool)
    requires ids != []
    ensures events + NackEvents(ids, appended)
         == (events + NackEvents(ids[..|ids| - 1], appended)) + [Do(Call.Nack(ids[|ids| - 1]), appended(|ids| - 1))]
  {
  }

  // A cleanup is a run of nacks, so what holds of every run holds with cleanups in it.
  lemma {:induction false} CleanupIsRun<D>(events: seq<Event<D>>, ids: seq<string>, appended: nat -> bool)
    ensures var n, w := Run(events), NackAll(Run(events).memory, ids, appended);
            Run(events + NackEvents(ids, appended)) == Node(w.state, n.log + w.written)
  {
    if ids == [] {
      assert events + NackEvents(ids, appended) == events;
    } else {
      var n := |ids| - 1;
      var earlier, last := events + NackEvents(ids[..n], appended), Do(Call.Nack(ids[n]), appended(n));
      CleanupIsRun(events, ids[..n], appended);
      NackEventsSplit(events, ids, appended);
      RunLast(earlier, last);
      NackIsStep(NackAll(Run(events).memory, ids[..n], appended), Run(events).log, ids[n], appended(n));
    }
  }
}
