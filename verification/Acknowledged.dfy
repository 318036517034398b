// Once acknowledged, a message is never seen again.
//
// The history of a run is repeated with payloads that carry a serial number, the position
// of their arrival in the history; it stays with a message when it is dead-lettered.

module Acknowledged {
  import opened QueueState
  import opened StorageCalls
  import opened Replay
  import opened Recovery
  import opened Payloads
  import opened Totals
  import opened Conservation

  datatype Stamped<D> = Stamped(payload: D, serial: nat)

  function Unstamp<D>(): Stamped<D> -> D {
    (x: Stamped<D>) => x.payload
  }

  ghost function HasSerial<D>(serial: nat): Stamped<D> -> bool {
    (x: Stamped<D>) => x.serial == serial
  }

  function Stamp<D>(e: Effect<D>, serial: nat): Effect<Stamped<D>> {
    match e
    case Opened(q) => Opened(q)
    case Arrived(q, data) => Arrived(q, Stamped(data, serial))
    case Delivered(q, id, at) => Delivered(q, id, at)
    case Settled(id) => Settled(id)
    case Returned(id) => Returned(id)
    case Touched(id, at) => Touched(id, at)
  }

  function StampAll<D>(es: seq<Effect<D>>): State<Stamped<D>> {
    if es == [] then Empty()
    else
      var n := |es| - 1;
      Apply(StampAll(es[..n]), Stamp(es[n], n))
  }

  lemma {:induction false} StampsErased<D>(es: seq<Effect<D>>)
    ensures MapState(Unstamp(), StampAll(es)) == ApplyAll(Empty(), es)
    decreases |es|
  {
    if es == [] {
      MapEmpty<Stamped<D>, D>(Unstamp());
    } else {
      var n := |es| - 1;
      StampsErased(es[..n]);
      MapApply(Unstamp(), StampAll(es[..n]), Stamp(es[n], n));
      assert MapEffect(Unstamp(), Stamp(es[n], n)) == es[n];
    }
  }

  // ----- How many places hold a message -----

  ghost function Holders<D>(s: State<Stamped<D>>, serial: nat): int {
    Held(s, HasSerial(serial))
  }

  ghost predicate NowhereHeld<D>(s: State<Stamped<D>>, serial: nat) {
    && (forall q, i | q in s.queues && 0 <= i < |s.queues[q]| :: s.queues[q][i].data.serial != serial)
    && forall id | id in s.inFlight :: s.inFlight[id].data.serial != serial
  }

  // Reused task ids can only lose messages; so only an arrival adds a holder.
  lemma StepAddsArrivals<D>(s: State<D>, e: Effect<D>, p: D -> bool)
    ensures Held(Apply(s, e), p) <= Held(s, p) + if e.Arrived? && p(e.data) then 1 else 0
  {
    if !Enabled(s, e) {
      assert Apply(s, e) == s;
    } else if e.Delivered? {
      var items := s.queues[e.queue];
      SetQueuePending(s, e.queue, items[1..], p);
      TotalUpdate(s.inFlight, e.id, Lent(items[0], e.queue, e.id, e.at), InTask(p));
    } else if e.Returned? && e.id in s.inFlight && !HasDestination(s, s.inFlight[e.id]) {
      TakeOutFlying(s, e.id, p);
    } else {
      StepConserves(s, e, p);
    }
  }

  lemma SettledHolders<D>(s: State<Stamped<D>>, id: string)
    requires id in s.inFlight
    ensures var serial := s.inFlight[id].data.serial;
            Holders(Apply(s, Settled(id)), serial) == Holders(s, serial) - 1
  {
    StepConserves(s, Settled(id), HasSerial(s.inFlight[id].data.serial));
  }

  // No message is in two places, and serials are positions of the history.
  lemma {:induction false} HeldAtMostOnce<D>(es: seq<Effect<D>>, serial: nat)
    ensures Holders(StampAll(es), serial) <= if serial < |es| then 1 else 0
    decreases |es|
  {
    if es != [] {
      var n := |es| - 1;
      HeldAtMostOnce(es[..n], serial);
      StepAddsArrivals(StampAll(es[..n]), Stamp(es[n], n), HasSerial(serial));
    }
  }

  // x is the arrival its serial names.
  ghost predicate Genuine<D>(x: Stamped<D>, es: seq<Effect<D>>) {
    x.serial < |es| && es[x.serial].Arrived? && es[x.serial].data == x.payload
  }

  ghost predicate AllGenuine<D>(s: State<Stamped<D>>, es: seq<Effect<D>>) {
    && (forall q, i | q in s.queues && 0 <= i < |s.queues[q]| :: Genuine(s.queues[q][i].data, es))
    && forall id | id in s.inFlight :: Genuine(s.inFlight[id].data, es)
  }

  lemma GenuineLonger<D>(s: State<Stamped<D>>, es: seq<Effect<D>>, e: Effect<D>)
    requires AllGenuine(s, es)
    ensures AllGenuine(s, es + [e])
  {
  }

  lemma GenuineStep<D>(s: State<Stamped<D>>, e: Effect<Stamped<D>>, es: seq<Effect<D>>)
    requires AllGenuine(s, es) && (e.Arrived? ==> Genuine(e.data, es))
    ensures AllGenuine(Apply(s, e), es)
  {
  }

  lemma {:induction false} HistoryGenuine<D>(es: seq<Effect<D>>)
    ensures AllGenuine(StampAll(es), es)
    decreases |es|
  {
    if es != [] {
      var n := |es| - 1;
      HistoryGenuine(es[..n]);
      GenuineLonger(StampAll(es[..n]), es[..n], es[n]);
      assert es == es[..n] + [es[n]];
      GenuineStep(StampAll(es[..n]), Stamp(es[n], n), es);
    }
  }

  lemma StampOneMore<D>(es: seq<Effect<D>>, e: Effect<D>)
    ensures StampAll(es + [e]) == Apply(StampAll(es), Stamp(e, |es|))
  {
    assert (es + [e])[..|es|] == es;
  }

  lemma GoneStep<D>(es: seq<Effect<D>>, e: Effect<D>, longer: seq<Effect<D>>, serial: nat)
    requires serial < |es| && Holders(StampAll(es), serial) <= 0 && longer == es + [e]
    ensures Holders(StampAll(longer), serial) <= 0
  {
    StampOneMore(es, e);
    StepAddsArrivals(StampAll(es), Stamp(e, |es|), HasSerial(serial));
  }

  // What is held nowhere stays so.
  lemma {:induction false} GoneStays<D>(es: seq<Effect<D>>, more: seq<Effect<D>>, serial: nat)
    requires serial < |es| && Holders(StampAll(es), serial) <= 0
    ensures Holders(StampAll(es + more), serial) <= 0
    decreases |more|
  {
    if more == [] {
      assert es + more == es;
    } else {
      var n := |more| - 1;
      GoneStays(es, more[..n], serial);
      GoneStep(es + more[..n], more[n], es + more, serial);
    }
  }

  lemma GoneForGood<D>(es: seq<Effect<D>>, longer: seq<Effect<D>>, serial: nat)
    requires es <= longer && serial < |es| && Holders(StampAll(es), serial) <= 0
    ensures NowhereHeld(StampAll(longer), serial)
  {
    GoneStays(es, longer[|es|..], serial);
    assert longer == es + longer[|es|..];
    HeldNowhere(StampAll(longer), serial);
  }

  lemma {:induction false} TotalBounds<K, V>(m: map<K, V>, f: V -> int)
    requires forall k | k in m :: f(m[k]) >= 0
    ensures Total(m, f) >= 0
    ensures forall k | k in m :: Total(m, f) >= f(m[k])
    decreases |m|
  {
    forall k | k in m ensures Total(m, f) >= f(m[k]) && Total(m - {k}, f) >= 0 {
      TotalRemove(m, k, f);
      TotalBounds(m - {k}, f);
    }
    if m.Keys != {} {
      var k :| k in m;
      assert Total(m, f) >= f(m[k]);
    }
  }

  lemma {:induction false} CopiesAt<D>(items: seq<QueueItem<D>>, i: nat, p: D -> bool)
    requires i < |items| && p(items[i].data)
    ensures Copies(items, p) >= 1
  {
    if i > 0 {
      CopiesAt(items[1..], i - 1, p);
    }
  }

  lemma HeldNowhere<D>(s: State<Stamped<D>>, serial: nat)
    requires Holders(s, serial) <= 0
    ensures NowhereHeld(s, serial)
  {
    var p := HasSerial<D>(serial);
    TotalBounds(s.queues, InQueue(p));
    TotalBounds(s.inFlight, InTask(p));
    forall q, i | q in s.queues && 0 <= i < |s.queues[q]| ensures s.queues[q][i].data.serial != serial {
      assert InQueue(p)(s.queues[q]) <= 0;
      if s.queues[q][i].data.serial == serial {
        CopiesAt(s.queues[q], i, p);
      }
    }
    forall id | id in s.inFlight ensures s.inFlight[id].data.serial != serial {
      assert InTask(p)(s.inFlight[id]) <= 0;
    }
  }

  // ----- What a settlement does to the holders -----

  lemma {:induction false} StillInFlight<D>(es: seq<Effect<D>>, ids: seq<string>, id: string)
    requires id !in ids && id in StampAll(es).inFlight
    ensures var s := StampAll(es + Settlements(ids));
            id in s.inFlight && s.inFlight[id] == StampAll(es).inFlight[id]
    decreases |ids|
  {
    if ids == [] {
      assert es + Settlements(ids) == es;
    } else {
      var n := |ids| - 1;
      StillInFlight(es, ids[..n], id);
      SettledNext(es, ids);
    }
  }

  lemma SettledNext<D>(es: seq<Effect<D>>, ids: seq<string>)
    requires ids != []
    ensures var n := |ids| - 1;
            && es + Settlements(ids) == (es + Settlements(ids[..n])) + [Settled(ids[n])]
            && StampAll(es + Settlements(ids)) == Apply(StampAll(es + Settlements(ids[..n])), Settled(ids[n]))
  {
    var n := |ids| - 1;
    var before := es + Settlements(ids[..n]);
    StampOneMore(before, Settled(ids[n]));
    assert es + Settlements(ids) == before + [Settled(ids[n])];
  }

  lemma SerialInHistory<D>(es: seq<Effect<D>>, id: string)
    requires id in StampAll(es).inFlight
    ensures StampAll(es).inFlight[id].data.serial < |es|
  {
    var s := StampAll(es);
    var serial := s.inFlight[id].data.serial;
    HeldAtMostOnce(es, serial);
    if serial >= |es| {
      HeldNowhere(s, serial);
    }
  }

  lemma {:induction false} SettlementsGone<D>(es: seq<Effect<D>>, ids: seq<string>, id: string)
    requires id in ids && id in StampAll(es).inFlight
    ensures Holders(StampAll(es + Settlements(ids)), StampAll(es).inFlight[id].data.serial) <= 0
    decreases |ids|
  {
    var n, serial := |ids| - 1, StampAll(es).inFlight[id].data.serial;
    var before := es + Settlements(ids[..n]);
    SettledNext(es, ids);
    SerialInHistory(es, id);
    if id in ids[..n] {
      SettlementsGone(es, ids[..n], id);
      GoneStep(before, Settled(ids[n]), es + Settlements(ids), serial);
    } else {
      StillInFlight(es, ids[..n], id);
      HeldAtMostOnce(before, serial);
      SettledHolders(StampAll(before), id);
    }
  }

  // ----- Main results -----

  // The recovered state of a run, every message with its serial number.
  function StampedRun<D>(events: seq<Event<D>>, clock: ReplayClock): State<Stamped<D>> {
    StampAll(Journal(Run(events).log, clock))
  }

  // Without the serials it has the queues of the memory, and in flight the tasks of the
  // memory plus those whose ack was lost.
  ghost predicate StampsMemory<D>(events: seq<Event<D>>, clock: ReplayClock) {
    var erased := MapState(Unstamp(), StampedRun(events, clock));
    && erased.queues == Run(events).memory.queues
    && Covers(Run(events).memory.inFlight, erased.inFlight, LostAcks(events))
  }

  // In every run each message held is the arrival its serial names, and none is in two places.
  lemma NoMessageTwice<D>(events: seq<Event<D>>, clock: ReplayClock, serial: nat)
    requires FreshIds(events) || NoAckFails(events)
    ensures StampsMemory(events, clock)
    ensures AllGenuine(StampedRun(events, clock), Journal(Run(events).log, clock))
    ensures Holders(StampedRun(events, clock), serial) <= 1
  {
    var log := Run(events).log;
    HistoryGenuine(Journal(log, clock));
    RunRecoverable(events, clock);
    ReplayIsJournal(log, clock);
    StampsErased(Journal(log, clock));
    HeldAtMostOnce(Journal(log, clock), serial);
  }

  function AckedIds<D>(call: Call<D>): seq<string> {
    match call
    case Ack(id) => [id]
    case AckBatch(ids) => ids
    case _ => []
  }

  // An ack or batch ack that answers Ok for this task.
  ghost predicate Acknowledges<D>(before: seq<Event<D>>, e: Event<D>, id: string) {
    e.Do? && id in AckedIds(e.call) && Execute(Run(before).memory, e.call, e.appended).response == Done
  }

  lemma AckCommits<D>(s: State<D>, call: Call<D>, appended: bool)
    requires AckedIds(call) != [] && Execute(s, call, appended).response == Done
    ensures var ids, plan := AckedIds(call), PlanOf(s, call);
            && plan.Commit? && appended && (forall id | id in ids :: id in s.inFlight)
            && plan.done == Without(s, IdSet(ids))
            && plan.entry == if call.Ack? then WalOp.Ack(call.id) else WalOp.AckBatch(ids)
  {
    if call.AckBatch? {
      MissingNone(s.inFlight, call.ids);
    } else {
      assert IdSet([call.id]) == {call.id};
    }
  }

  lemma AckEffects<D>(log: seq<WalOp<D>>, entry: WalOp<D>, ids: seq<string>, clock: ReplayClock)
    requires entry == WalOp.AckBatch(ids) || (|ids| == 1 && entry == WalOp.Ack(ids[0]))
    ensures Journal(log + [entry], clock) == Journal(log, clock) + Settlements(ids)
  {
    JournalOneMore(log, entry, clock);
    assert EffectsOf(entry, clock(|log|)) == Settlements(ids);
  }

  lemma AckLogged<D>(before: seq<Event<D>>, e: Event<D>, id: string, clock: ReplayClock)
    requires Acknowledges(before, e, id)
    ensures id in Run(before).memory.inFlight
    ensures Journal(Run(before + [e]).log, clock) == Journal(Run(before).log, clock) + Settlements(AckedIds(e.call))
  {
    var n := Run(before);
    RunLast(before, e);
    AckCommits(n.memory, e.call, e.appended);
    AckEffects(n.log, PlanOf(n.memory, e.call).entry, AckedIds(e.call), clock);
  }

  lemma AckGone<D>(before: seq<Event<D>>, e: Event<D>, id: string, clock: ReplayClock)
    requires Acknowledges(before, e, id) && StampsMemory(before, clock)
    ensures id in StampedRun(before, clock).inFlight
    ensures var serial := StampedRun(before, clock).inFlight[id].data.serial;
            && serial < |Journal(Run(before + [e]).log, clock)|
            && Holders(StampedRun(before + [e], clock), serial) <= 0
  {
    AckLogged(before, e, id, clock);
    assert id in MapState(Unstamp(), StampedRun(before, clock)).inFlight;
    SerialInHistory(Journal(Run(before).log, clock), id);
    SettlementsGone(Journal(Run(before).log, clock), AckedIds(e.call), id);
  }

  lemma GoneInRun<D>(acked: seq<Event<D>>, after: seq<Event<D>>, serial: nat, clock: ReplayClock)
    requires acked <= after && serial < |Journal(Run(acked).log, clock)|
    requires Holders(StampedRun(acked, clock), serial) <= 0
    ensures NowhereHeld(StampedRun(after, clock), serial)
  {
    assert after[..|acked|] == acked;
    LogOfPrefix(after, |acked|);
    JournalPrefix(Run(acked).log, Run(after).log, clock);
    GoneForGood(Journal(Run(acked).log, clock), Journal(Run(after).log, clock), serial);
  }

  lemma GoneAfterAck<D>(before: seq<Event<D>>, e: Event<D>, id: string, after: seq<Event<D>>, clock: ReplayClock)
    requires Acknowledges(before, e, id) && StampsMemory(before, clock) && before + [e] <= after
    ensures id in StampedRun(before, clock).inFlight
    ensures NowhereHeld(StampedRun(after, clock), StampedRun(before, clock).inFlight[id].data.serial)
  {
    AckGone(before, e, id, clock);
    GoneInRun(before + [e], after, StampedRun(before, clock).inFlight[id].data.serial, clock);
  }

  lemma FreshStampsMemory<D>(before: seq<Event<D>>, events: seq<Event<D>>, clock: ReplayClock)
    requires before <= events && (FreshIds(events) || NoAckFails(events))
    ensures StampsMemory(before, clock) && (FreshIds(events) ==> FreshIds(before))
  {
    assert events[..|before|] == before;
    StillFresh(events, |before|);
    NoMessageTwice(before, clock, 0);
  }

  // In every run, restarts included: once the ack of a task is answered Ok, its message is
  // in no queue and not in flight again, dead-letter queues included.
  lemma AcknowledgedIsGone<D>(
    before: seq<Event<D>>, e: Event<D>, later: seq<Event<D>>, id: string, clock: ReplayClock)
    requires FreshIds(before + [e] + later) || NoAckFails(before + [e] + later)
    requires Acknowledges(before, e, id)
    ensures StampsMemory(before, clock) && id in StampedRun(before, clock).inFlight
    ensures var after := before + [e] + later;
            && StampsMemory(after, clock)
            && NowhereHeld(StampedRun(after, clock), StampedRun(before, clock).inFlight[id].data.serial)
  {
    var after := before + [e] + later;
    FreshStampsMemory(before, after, clock);
    FreshStampsMemory(after, after, clock);
    GoneAfterAck(before, e, id, after, clock);
  }

  // The id of a task that was closed: neither in flight nor under a lost ack any more.
  ghost predicate ClosedId<D>(events: seq<Event<D>>, id: string) {
    id !in Run(events).memory.inFlight && id !in LostAcks(events) && id in UsedIds(events)
  }

  lemma AckClosesId<D>(before: seq<Event<D>>, e: Event<D>, after: seq<Event<D>>, id: string)
    requires after == before + [e] && FreshIds(before) && Acknowledges(before, e, id)
    ensures ClosedId(after, id)
  {
    var clock: ReplayClock := (_: nat) => ((_: nat) => 0);
    RunRecoverable(before, clock);
    RunLast(before, e);
    assert after[..|before|] == before;
    AckCommits(Run(before).memory, e.call, e.appended);
  }

  lemma StaysClosed<D>(before: seq<Event<D>>, e: Event<D>, after: seq<Event<D>>, id: string)
    requires after == before + [e] && FreshIds(after) && ClosedId(before, id)
    ensures ClosedId(after, id)
  {
    assert after[..|before|] == before;
    RunLast(before, e);
    match e {
      case Do(call, appended) => ExecuteKeys(Run(before).memory, call, appended);
      case Restart(clock) => RunRecoverable(before, clock);
    }
  }

  // Nor does its task id come back, when no id is drawn twice.
  lemma {:induction false} AcknowledgedIdIsGone<D>(
    before: seq<Event<D>>, e: Event<D>, later: seq<Event<D>>, id: string)
    requires FreshIds(before + [e] + later) && Acknowledges(before, e, id)
    ensures ClosedId(before + [e] + later, id)
    decreases |later|
  {
    var after, clock: ReplayClock := before + [e] + later, (_: nat) => ((_: nat) => 0);
    if later == [] {
      assert after == before + [e];
      FreshStampsMemory(before, after, clock);
      AckClosesId(before, e, after, id);
    } else {
      var n := |later| - 1;
      var fewer := before + [e] + later[..n];
      assert after == fewer + [later[n]];
      FreshStampsMemory(fewer, after, clock);
      AcknowledgedIdIsGone(before, e, later[..n], id);
      StaysClosed(fewer, later[n], after, id);
    }
  }
}
