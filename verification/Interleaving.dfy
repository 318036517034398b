// Concurrent calls, each split where it waits for its log append.
//
// A call first touches the maps, then waits, then touches them again. Between the two
// other calls run. A cleanup does nothing to the maps but nack, so its nacks are nack
// calls here. The guard a dequeue holds on its queue while it waits is not modelled: the
// runs below are all those the guards allow, and more.

module Interleaving {
  import opened QueueState
  import opened StorageCalls
  import opened Recovery

  // What an unfinished call holds while it waits.
  datatype Hand<D> =
    | Creating(name: string)
    | Enqueuing(queue: string, items: seq<D>)
    | Dequeuing(queue: string, popped: seq<QueueItem<D>>, ids: seq<string>)
    | Acking(task: InFlightTask<D>)
    | Nacking(task: InFlightTask<D>)
    | BatchAcking(ids: seq<string>)

  // A step begins call number c, finishes it, or is a heartbeat (which keeps its entry
  // locked from beginning to end).
  datatype Step<D> =
    | BeginCreate(c: nat, name: string)
    | BeginEnqueue(c: nat, queue: string, items: seq<D>)
    | BeginDequeue(c: nat, queue: string, ids: seq<string>)
    | BeginAck(c: nat, id: string)
    | BeginNack(c: nat, id: string)
    | BeginAckBatch(c: nat, ids: seq<string>)
    | Heartbeat(id: string, now: int)
    | Finish(c: nat, appended: bool, at: nat -> int)

  // The shared state and the unfinished calls, with the history the theorems speak of:
  // ids drawn and delivered, ids closed for good, ids for which an ack or nack answered
  // Ok, messages pushed, messages acknowledged, messages a creation wiped out.
  datatype World<D> = World(
    memory: State<D>,
    calls: map<nat, Hand<D>>,
    drawn: set<string>,
    delivered: set<string>,
    closed: set<string>,
    okays: seq<string>,
    pushed: seq<D>,
    acked: seq<D>,
    overwritten: seq<D>)

  function Start<D>(): World<D> {
    World(Empty(), map[], {}, {}, {}, [], [], [], [])
  }

  function Payloads<D>(items: seq<QueueItem<D>>): seq<D> {
    seq(|items|, i requires 0 <= i < |items| => items[i].data)
  }

  function Begin<D>(w: World<D>, c: nat, hand: Hand<D>): World<D> {
    w.(calls := w.calls[c := hand])
  }

  // The loop of a batch ack: tasks that are gone by now are skipped.
  function CloseAll<D>(w: World<D>, ids: seq<string>): World<D> {
    if ids == [] then w else CloseOne(CloseAll(w, ids[..|ids| - 1]), ids[|ids| - 1])
  }

  function CloseOne<D>(w: World<D>, id: string): World<D> {
    if id in w.memory.inFlight then
      w.(memory := Without(w.memory, {id}), closed := w.closed + {id},
         acked := w.acked + [w.memory.inFlight[id].data])
    else w
  }

  function FinishCreate<D>(w: World<D>, name: string): World<D> {
    w.(memory := SetQueue(w.memory, name, []),
       overwritten := w.overwritten + Payloads(Contents(w.memory, name)))
  }

  function FinishEnqueue<D>(w: World<D>, queue: string, items: seq<D>): World<D> {
    if queue in w.memory.queues then
      w.(memory := SetQueue(w.memory, queue, w.memory.queues[queue] + FreshAll(items)),
         pushed := w.pushed + items)
    else w
  }

  function FinishDequeue<D>(
    w: World<D>, queue: string, popped: seq<QueueItem<D>>, ids: seq<string>, appended: bool, at: nat -> int): World<D>
  {
    if appended && |ids| == |popped| then
      w.(memory := w.memory.(inFlight := Insert(w.memory.inFlight, LentAll(popped, queue, ids, at))),
         delivered := w.delivered + IdSet(ids))
    else w.(memory := SetQueue(w.memory, queue, popped + Contents(w.memory, queue)))
  }

  // Ok or not, an ack that found its task has closed it.
  function FinishAck<D>(w: World<D>, task: InFlightTask<D>, appended: bool): World<D> {
    w.(closed := w.closed + {task.id}, acked := w.acked + [task.data],
       okays := w.okays + if appended then [task.id] else [])
  }

  function FinishNack<D>(w: World<D>, task: InFlightTask<D>, appended: bool): World<D> {
    if appended then
      w.(memory := Requeue(w.memory, task), closed := w.closed + {task.id},
         okays := w.okays + if HasDestination(w.memory, task) then [task.id] else [])
    else
      w.(memory := w.memory.(inFlight := w.memory.inFlight[task.id := task]))
  }

  function FinishHand<D>(w: World<D>, hand: Hand<D>, appended: bool, at: nat -> int): World<D> {
    match hand
    case Creating(name) => if appended then FinishCreate(w, name) else w
    case Enqueuing(queue, items) => if appended then FinishEnqueue(w, queue, items) else w
    case Dequeuing(queue, popped, ids) => FinishDequeue(w, queue, popped, ids, appended, at)
    case Acking(task) => FinishAck(w, task, appended)
    case Nacking(task) => FinishNack(w, task, appended)
    case BatchAcking(ids) => if appended then CloseAll(w, ids) else w
  }

  // A call that finds no queue, no task or no message is answered at once.
  function Next<D>(w: World<D>, step: Step<D>): World<D> {
    var s := w.memory;
    match step
    case BeginCreate(c, name) => if name in s.queues then w else Begin(w, c, Creating(name))
    case BeginEnqueue(c, queue, items) => if queue in s.queues then Begin(w, c, Enqueuing(queue, items)) else w
    case BeginDequeue(c, queue, ids) =>
      if queue in s.queues && 0 < |ids| <= |s.queues[queue]| then
        var items := s.queues[queue];
        Begin(w.(memory := SetQueue(s, queue, items[|ids|..]), drawn := w.drawn + IdSet(ids)), c,
              Dequeuing(queue, items[..|ids|], ids))
      else w
    case BeginAck(c, id) =>
      if id in s.inFlight then Begin(w.(memory := Without(s, {id})), c, Acking(s.inFlight[id])) else w
    case BeginNack(c, id) =>
      if id in s.inFlight then Begin(w.(memory := Without(s, {id})), c, Nacking(s.inFlight[id])) else w
    case BeginAckBatch(c, ids) =>
      if Missing(s.inFlight, ids) == [] then Begin(w, c, BatchAcking(ids)) else w
    case Heartbeat(id, now) =>
      if id in s.inFlight then
        w.(memory := s.(inFlight := s.inFlight[id := s.inFlight[id].(consumedAt := now)]))
      else w
    case Finish(c, appended, at) =>
      if c in w.calls then FinishHand(w.(calls := w.calls - {c}), w.calls[c], appended, at) else w
  }

  // Calls are numbered apart, and identifiers drawn are new.
  ghost predicate Legal<D>(w: World<D>, step: Step<D>) {
    match step
    case BeginDequeue(c, _, ids) => c !in w.calls && Distinct(ids) && forall id | id in ids :: id !in w.drawn
    case BeginCreate(c, _) => c !in w.calls
    case BeginEnqueue(c, _, _) => c !in w.calls
    case BeginAck(c, _) => c !in w.calls
    case BeginNack(c, _) => c !in w.calls
    case BeginAckBatch(c, _) => c !in w.calls
    case _ => true
  }

  function Play<D>(steps: seq<Step<D>>): World<D> {
    if steps == [] then Start() else Next(Play(steps[..|steps| - 1]), steps[|steps| - 1])
  }

  ghost predicate LegalPlay<D>(steps: seq<Step<D>>) {
    forall i | 0 <= i < |steps| :: Legal(Play(steps[..i]), steps[i])
  }

  // ----- Whose hand a task is in -----

  // The ids a waiting call keeps for itself: of the task it removed, or those it will deliver.
  function HandIds<D>(hand: Hand<D>): seq<string> {
    match hand
    case Acking(task) => [task.id]
    case Nacking(task) => [task.id]
    case Dequeuing(_, _, ids) => ids
    case _ => []
  }

  ghost predicate HoldsTask<D>(hand: Hand<D>, id: string) {
    (hand.Acking? || hand.Nacking?) && id in HandIds(hand)
  }

  // An id that has been drawn and is neither in flight nor closed.
  ghost predicate Loose<D>(w: World<D>, id: string) {
    id in w.drawn && id !in w.memory.inFlight && id !in w.closed
  }

  ghost predicate HandOk<D>(w: World<D>, hand: Hand<D>) {
    && Distinct(HandIds(hand))
    && (forall id | id in HandIds(hand) :: Loose(w, id))
    && (hand.Dequeuing? ==> |hand.ids| == |hand.popped| && forall id | id in hand.ids :: id !in w.delivered)
  }

  ghost predicate Apart<D>(h: Hand<D>, h': Hand<D>) {
    forall id | id in HandIds(h) :: id !in HandIds(h')
  }

  ghost predicate Exclusive<D>(w: World<D>) {
    && (forall id | id in w.memory.inFlight ::
          w.memory.inFlight[id].id == id && id in w.drawn && id !in w.closed)
    && (forall c | c in w.calls :: HandOk(w, w.calls[c]))
    && (forall c, c' | c in w.calls && c' in w.calls && c != c' :: Apart(w.calls[c], w.calls[c']))
    && w.closed <= w.drawn && w.delivered <= w.drawn
    && Distinct(w.okays)
    && (forall id | id in w.okays :: id in w.closed)
  }

  // Every delivered task is in flight, in a hand or closed.
  ghost predicate Accounted<D>(w: World<D>) {
    forall id | id in w.delivered ::
      id in w.memory.inFlight || id in w.closed || exists c :: c in w.calls && HoldsTask(w.calls[c], id)
  }

  ghost predicate Invariant<D>(w: World<D>) {
    Exclusive(w) && Accounted(w)
  }

  // The same with one more call, about to finish, whose hand is h.
  ghost predicate Finishing<D>(w: World<D>, h: Hand<D>) {
    && Exclusive(w) && HandOk(w, h)
    && (forall c | c in w.calls :: Apart(h, w.calls[c]))
    && forall id | id in w.delivered ::
         id in w.memory.inFlight || id in w.closed || HoldsTask(h, id)
         || exists c :: c in w.calls && HoldsTask(w.calls[c], id)
  }

  lemma DrawingExclusive<D>(w: World<D>, memory: State<D>, ids: set<string>)
    requires Exclusive(w) && memory.inFlight == w.memory.inFlight
    ensures Exclusive(w.(memory := memory, drawn := w.drawn + ids))
  {
    var w' := w.(memory := memory, drawn := w.drawn + ids);
    forall c | c in w'.calls ensures HandOk(w', w'.calls[c]) {
      assert HandOk(w, w.calls[c]);
      assert forall id | id in HandIds(w.calls[c]) :: Loose(w, id) && Loose(w', id);
    }
  }

  lemma NewHandExclusive<D>(w: World<D>, c: nat, hand: Hand<D>)
    requires Exclusive(w) && c !in w.calls && HandOk(w, hand)
    requires forall c' | c' in w.calls :: Apart(hand, w.calls[c'])
    ensures Exclusive(Begin(w, c, hand))
  {
    assert forall c' | c' in w.calls :: Apart(w.calls[c'], hand);
    assert forall hand' | HandOk(w, hand') :: HandOk(Begin(w, c, hand), hand');
  }

  lemma BeginDequeueExclusive<D>(w: World<D>, step: Step<D>)
    requires Exclusive(w) && Legal(w, step) && step.BeginDequeue?
    ensures Exclusive(Next(w, step))
  {
    var queue, ids, s := step.queue, step.ids, w.memory;
    if queue in s.queues && 0 < |ids| <= |s.queues[queue]| {
      var items := s.queues[queue];
      var popped := w.(memory := SetQueue(s, queue, items[|ids|..]), drawn := w.drawn + IdSet(ids));
      var hand := Dequeuing(queue, items[..|ids|], ids);
      DrawingExclusive(w, popped.memory, IdSet(ids));
      forall c | c in w.calls ensures Apart(hand, w.calls[c]) {
        assert HandOk(w, w.calls[c]);
        assert forall id | id in HandIds(w.calls[c]) :: Loose(w, id);
      }
      NewHandExclusive(popped, step.c, hand);
    }
  }

  // Removing a task from the map puts it into the hand of the call that removed it.
  lemma TakeInHandExclusive<D>(w: World<D>, c: nat, id: string, hand: Hand<D>)
    requires Exclusive(w) && c !in w.calls && id in w.memory.inFlight
    requires HandIds(hand) == [id] && !hand.Dequeuing?
    ensures Exclusive(Begin(w.(memory := Without(w.memory, {id})), c, hand))
  {
  }

  lemma BeginEmptyExclusive<D>(w: World<D>, c: nat, hand: Hand<D>)
    requires Exclusive(w) && c !in w.calls
    requires HandIds(hand) == [] && !hand.Dequeuing?
    ensures Exclusive(Begin(w, c, hand))
  {
  }

  lemma BeginAccounted<D>(w: World<D>, step: Step<D>)
    requires Accounted(w) && Exclusive(w) && Legal(w, step) && !step.Finish?
    ensures Accounted(Next(w, step))
  {
    var w' := Next(w, step);
    forall id | id in w'.delivered
      ensures id in w'.memory.inFlight || id in w'.closed
           || exists c :: c in w'.calls && HoldsTask(w'.calls[c], id)
    {
      if id in w.memory.inFlight && id !in w'.memory.inFlight {
        assert step.c in w'.calls && HoldsTask(w'.calls[step.c], id);
      } else if id !in w.memory.inFlight && id !in w.closed {
        var c :| c in w.calls && HoldsTask(w.calls[c], id);
        assert c in w'.calls && w'.calls[c] == w.calls[c];
      }
    }
  }

  lemma BeginKeeps<D>(w: World<D>, step: Step<D>)
    requires Invariant(w) && Legal(w, step) && !step.Finish?
    ensures Invariant(Next(w, step))
  {
    BeginAccounted(w, step);
    match step {
      case BeginCreate(c, name) => BeginEmptyExclusive(w, c, Creating(name));
      case BeginEnqueue(c, queue, items) => BeginEmptyExclusive(w, c, Enqueuing(queue, items));
      case BeginDequeue(_, _, _) => BeginDequeueExclusive(w, step);
      case BeginAck(c, id) =>
        if id in w.memory.inFlight {
          TakeInHandExclusive(w, c, id, Acking(w.memory.inFlight[id]));
        }
      case BeginNack(c, id) =>
        if id in w.memory.inFlight {
          TakeInHandExclusive(w, c, id, Nacking(w.memory.inFlight[id]));
        }
      case BeginAckBatch(c, ids) => BeginEmptyExclusive(w, c, BatchAcking(ids));
      case Heartbeat(_, _) =>
    }
  }

  lemma Release<D>(w: World<D>, c: nat)
    requires Invariant(w) && c in w.calls
    ensures Finishing(w.(calls := w.calls - {c}), w.calls[c])
  {
    var w' := w.(calls := w.calls - {c});
    forall id | id in w'.delivered
      ensures id in w'.memory.inFlight || id in w'.closed || HoldsTask(w.calls[c], id)
           || exists c' :: c' in w'.calls && HoldsTask(w'.calls[c'], id)
    {
      if id !in w.memory.inFlight && id !in w.closed && !HoldsTask(w.calls[c], id) {
        var c' :| c' in w.calls && HoldsTask(w.calls[c'], id);
        assert c' in w'.calls;
      }
    }
  }

  lemma FinishDequeueKeeps<D>(w: World<D>, hand: Hand<D>, appended: bool, at: nat -> int)
    requires Finishing(w, hand) && hand.Dequeuing?
    ensures Invariant(FinishHand(w, hand, appended, at))
  {
    if appended {
      var tasks := LentAll(hand.popped, hand.queue, hand.ids, at);
      LentKeys(w.memory.inFlight, tasks, hand.ids);
    }
  }

  lemma {:induction false} LentKeys<D>(m: map<string, InFlightTask<D>>, tasks: seq<InFlightTask<D>>, ids: seq<string>)
    requires |tasks| == |ids| && forall i | 0 <= i < |ids| :: tasks[i].id == ids[i]
    ensures Insert(m, tasks).Keys == m.Keys + IdSet(ids)
    ensures forall id | id in Insert(m, tasks) ::
              if id in ids then Insert(m, tasks)[id].id == id else id in m && Insert(m, tasks)[id] == m[id]
  {
    if tasks != [] {
      var n := |tasks| - 1;
      LentKeys(m, tasks[..n], ids[..n]);
      assert ids == ids[..n] + [ids[n]];
    }
  }

  lemma FinishAckKeeps<D>(w: World<D>, hand: Hand<D>, appended: bool, at: nat -> int)
    requires Finishing(w, hand) && hand.Acking?
    ensures Invariant(FinishHand(w, hand, appended, at))
  {
    assert hand.task.id in HandIds(hand);
  }

  lemma FinishNackKeeps<D>(w: World<D>, hand: Hand<D>, appended: bool, at: nat -> int)
    requires Finishing(w, hand) && hand.Nacking?
    ensures Invariant(FinishHand(w, hand, appended, at))
  {
    assert hand.task.id in HandIds(hand);
  }

  lemma {:induction false} CloseAllKeeps<D>(w: World<D>, ids: seq<string>)
    requires Invariant(w)
    ensures Invariant(CloseAll(w, ids))
  {
    if ids != [] {
      CloseAllKeeps(w, ids[..|ids| - 1]);
    }
  }

  lemma StepKeeps<D>(w: World<D>, step: Step<D>)
    requires Invariant(w) && Legal(w, step)
    ensures Invariant(Next(w, step))
  {
    match step {
      case Finish(c, appended, at) =>
        if c in w.calls {
          Release(w, c);
          var w', hand := w.(calls := w.calls - {c}), w.calls[c];
          match hand {
            case Dequeuing(_, _, _) => FinishDequeueKeeps(w', hand, appended, at);
            case Acking(_) => FinishAckKeeps(w', hand, appended, at);
            case Nacking(_) => FinishNackKeeps(w', hand, appended, at);
            case BatchAcking(ids) => CloseAllKeeps(w', ids);
            case _ =>
          }
        }
      case _ => BeginKeeps(w, step);
    }
  }

  lemma {:induction false} PlayKeeps<D>(steps: seq<Step<D>>)
    requires LegalPlay(steps)
    ensures Invariant(Play(steps))
  {
    if steps != [] {
      var n := |steps| - 1;
      LegalPrefix(steps, n);
      PlayKeeps(steps[..n]);
      assert Legal(Play(steps[..n]), steps[n]);
      StepKeeps(Play(steps[..n]), steps[n]);
    }
  }

  lemma LegalPrefix<D>(steps: seq<Step<D>>, n: nat)
    requires LegalPlay(steps) && n <= |steps|
    ensures LegalPlay(steps[..n])
  {
    forall i | 0 <= i < n ensures Legal(Play(steps[..n][..i]), steps[..n][i]) {
      assert steps[..n][..i] == steps[..i];
    }
  }

  // However acks, nacks and cleanups interleave, with each other and with everything
  // else: at most one of them per task id answers Ok, and a delivered task is in exactly
  // one place: in flight, in the hand of one unfinished call, or closed for good.
  lemma SettledAtMostOnce<D>(steps: seq<Step<D>>, id: string)
    requires LegalPlay(steps)
    ensures var w := Play(steps);
            && Distinct(w.okays)
            && (id in w.okays ==> id in w.closed)
            && (id in w.delivered ==>
                  id in w.memory.inFlight || id in w.closed || exists c :: c in w.calls && HoldsTask(w.calls[c], id))
            && (id in w.memory.inFlight ==> id !in w.closed)
            && (forall c | c in w.calls && HoldsTask(w.calls[c], id) ::
                  id !in w.memory.inFlight && id !in w.closed
                  && forall c' | c' in w.calls && c' != c :: !HoldsTask(w.calls[c'], id))
  {
    PlayKeeps(steps);
    var w := Play(steps);
    forall c | c in w.calls && HoldsTask(w.calls[c], id)
      ensures id !in w.memory.inFlight && id !in w.closed
      ensures forall c' | c' in w.calls && c' != c :: !HoldsTask(w.calls[c'], id)
    {
      forall c' | c' in w.calls && c' != c ensures !HoldsTask(w.calls[c'], id) {
        assert Apart(w.calls[c], w.calls[c']);
      }
    }
  }
}
