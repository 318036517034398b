// Which of its arrivals each message of a queue is, and when a queue is in arrival order.
//
// The history of a run is repeated with payloads that carry their arrival number in the
// queue they are in, a new one when they are dead-lettered; erasing the numbers gives the
// state of the run back.

module ArrivalOrder {
  import opened QueueState
  import opened Payloads
  import opened Fifo

  datatype Numbered<D> = Numbered(payload: D, number: nat)

  function Unnumber<D>(): Numbered<D> -> D {
    (x: Numbered<D>) => x.payload
  }

  // The number of the next arrival at each queue.
  function NextNumbers<D>(before: seq<Effect<D>>): string -> nat {
    q => |ArrivalHistory(before, q)|
  }

  function Renumber<D>(s: State<Numbered<D>>, id: string, number: nat): State<Numbered<D>>
    requires id in s.inFlight
  {
    var task := s.inFlight[id];
    s.(inFlight := s.inFlight[id := task.(data := Numbered(task.data.payload, number))])
  }

  function NumberStep<D>(s: State<Numbered<D>>, next: string -> nat, e: Effect<D>): State<Numbered<D>> {
    match e
    case Opened(q) => Apply(s, Opened(q))
    case Arrived(q, data) => Apply(s, Arrived(q, Numbered(data, next(q))))
    case Delivered(q, id, at) => Apply(s, Delivered(q, id, at))
    case Settled(id) => Apply(s, Settled(id))
    case Returned(id) =>
      if id in s.inFlight && s.inFlight[id].attempts >= MAX_ATTEMPTS then
        Apply(Renumber(s, id, next(Destination(s.inFlight[id]))), Returned(id))
      else Apply(s, Returned(id))
    case Touched(id, at) => Apply(s, Touched(id, at))
  }

  function NumberAll<D>(es: seq<Effect<D>>): State<Numbered<D>> {
    if es == [] then Empty()
    else
      var before := es[..|es| - 1];
      NumberStep(NumberAll(before), NextNumbers(before), es[|es| - 1])
  }

  // ----- Erasing the numbers -----

  lemma RenumberErased<D>(s: State<Numbered<D>>, id: string, number: nat)
    requires id in s.inFlight
    ensures MapState(Unnumber(), Renumber(s, id, number)) == MapState(Unnumber(), s)
  {
  }

  lemma StepErased<D>(s: State<Numbered<D>>, next: string -> nat, e: Effect<D>)
    ensures MapState(Unnumber(), NumberStep(s, next, e)) == Apply(MapState(Unnumber(), s), e)
  {
    match e {
      case Opened(q) => MapApply(Unnumber(), s, Opened(q));
      case Arrived(q, data) => MapApply(Unnumber(), s, Arrived(q, Numbered(data, next(q))));
      case Delivered(q, id, at) => MapApply(Unnumber(), s, Delivered(q, id, at));
      case Settled(id) => MapApply(Unnumber(), s, Settled(id));
      case Returned(id) =>
        MapApply(Unnumber(), s, Returned(id));
        if id in s.inFlight && s.inFlight[id].attempts >= MAX_ATTEMPTS {
          var number := next(Destination(s.inFlight[id]));
          RenumberErased(s, id, number);
          MapApply(Unnumber(), Renumber(s, id, number), Returned(id));
        }
      case Touched(id, at) => MapApply(Unnumber(), s, Touched(id, at));
    }
  }

  lemma {:induction false} NumbersErased<D>(es: seq<Effect<D>>)
    ensures MapState(Unnumber(), NumberAll(es)) == ApplyAll(Empty(), es)
    decreases |es|
  {
    if es == [] {
      MapEmpty<Numbered<D>, D>(Unnumber());
    } else {
      NumbersErased(es[..|es| - 1]);
      StepErased(NumberAll(es[..|es| - 1]), NextNumbers(es[..|es| - 1]), es[|es| - 1]);
    }
  }

  // ----- Retries are earlier arrivals -----

  // x is the arrival its number says.
  ghost predicate Names<D>(x: Numbered<D>, arrivals: seq<QueueItem<D>>) {
    x.number < |arrivals| && arrivals[x.number].data == x.payload
  }

  // When k arrivals have been delivered: the retries in front are among those k, and the
  // rest of the queue is the arrivals k, k+1, ... in this order.
  ghost predicate ItemFits<D>(items: seq<QueueItem<Numbered<D>>>, i: nat, arrivals: seq<QueueItem<D>>, k: nat)
    requires i < |items|
  {
    var retries, x := |items| - (|arrivals| - k), items[i].data;
    Names(x, arrivals) && if i < retries then x.number < k else x.number == k + i - retries
  }

  ghost predicate NumbersFit<D>(items: seq<QueueItem<Numbered<D>>>, arrivals: seq<QueueItem<D>>, k: nat) {
    k <= |arrivals| <= k + |items| && forall i | 0 <= i < |items| :: ItemFits(items, i, arrivals, k)
  }

  // A task delivered from the queue is one of the first k arrivals.
  ghost predicate TaskFits<D>(task: InFlightTask<Numbered<D>>, queue: string, arrivals: seq<QueueItem<D>>, k: nat) {
    task.queueName == queue ==> Names(task.data, arrivals) && task.data.number < k
  }

  ghost predicate TasksFit<D>(tasks: map<string, InFlightTask<Numbered<D>>>, queue: string,
                              arrivals: seq<QueueItem<D>>, k: nat)
  {
    forall id | id in tasks :: TaskFits(tasks[id], queue, arrivals, k)
  }

  ghost predicate Fits<D>(s: State<Numbered<D>>, queue: string, arrivals: seq<QueueItem<D>>, k: nat) {
    NumbersFit(Contents(s, queue), arrivals, k) && TasksFit(s.inFlight, queue, arrivals, k)
  }

  lemma TasksFitLonger<D>(tasks: map<string, InFlightTask<Numbered<D>>>, queue: string,
                          arrivals: seq<QueueItem<D>>, k: nat, longer: seq<QueueItem<D>>, k': nat)
    requires TasksFit(tasks, queue, arrivals, k) && arrivals <= longer && k <= k'
    ensures TasksFit(tasks, queue, longer, k')
  {
  }

  lemma TasksFitFewer<D>(tasks: map<string, InFlightTask<Numbered<D>>>, queue: string,
                         arrivals: seq<QueueItem<D>>, k: nat, id: string)
    requires TasksFit(tasks, queue, arrivals, k)
    ensures TasksFit(tasks - {id}, queue, arrivals, k)
  {
  }

  lemma PoppedFits<D>(items: seq<QueueItem<Numbered<D>>>, arrivals: seq<QueueItem<D>>, k: nat)
    requires NumbersFit(items, arrivals, k) && items != []
    ensures var k' := if |items| > |arrivals| - k then k else k + 1;
            NumbersFit(items[1..], arrivals, k') && Names(items[0].data, arrivals) && items[0].data.number < k'
  {
    var k' := if |items| > |arrivals| - k then k else k + 1;
    assert ItemFits(items, 0, arrivals, k);
    forall i | 0 <= i < |items| - 1 ensures ItemFits(items[1..], i, arrivals, k') {
      assert ItemFits(items, i + 1, arrivals, k);
    }
  }

  lemma PushedBackFits<D>(items: seq<QueueItem<Numbered<D>>>, arrivals: seq<QueueItem<D>>, k: nat,
                          item: QueueItem<Numbered<D>>, arrival: QueueItem<D>)
    requires NumbersFit(items, arrivals, k)
    requires item.data == Numbered(arrival.data, |arrivals|)
    ensures NumbersFit(items + [item], arrivals + [arrival], k)
  {
    forall i | 0 <= i <= |items| ensures ItemFits(items + [item], i, arrivals + [arrival], k) {
      assert i < |items| ==> ItemFits(items, i, arrivals, k);
    }
  }

  lemma PushedFrontFits<D>(items: seq<QueueItem<Numbered<D>>>, arrivals: seq<QueueItem<D>>, k: nat,
                           item: QueueItem<Numbered<D>>)
    requires NumbersFit(items, arrivals, k)
    requires Names(item.data, arrivals) && item.data.number < k
    ensures NumbersFit([item] + items, arrivals, k)
  {
    forall i | 0 <= i <= |items| ensures ItemFits([item] + items, i, arrivals, k) {
      assert i > 0 ==> ItemFits(items, i - 1, arrivals, k);
    }
  }

  // Keeps Fits: next numbers the arrivals at this queue.
  ghost predicate StepFits<D>(s: State<Numbered<D>>, next: string -> nat, e: Effect<D>, queue: string,
                              arrivals: seq<QueueItem<D>>, firsts: seq<QueueItem<D>>)
  {
    var p := MapState(Unnumber(), s);
    Fits(NumberStep(s, next, e), queue,
         arrivals + ArrivesBy(p, e, queue), |firsts + FirstBy(p, e, queue)|)
  }

  lemma ArrivedFits<D>(s: State<Numbered<D>>, next: string -> nat, e: Effect<D>, queue: string,
                       arrivals: seq<QueueItem<D>>, firsts: seq<QueueItem<D>>)
    requires Fits(s, queue, arrivals, |firsts|) && next(queue) == |arrivals| && e.Arrived?
    ensures StepFits(s, next, e, queue, arrivals, firsts)
  {
    assert arrivals + [] == arrivals && firsts + [] == firsts;
    if e.queue == queue && queue in s.queues {
      PushedBackFits(s.queues[queue], arrivals, |firsts|, Fresh(Numbered(e.data, |arrivals|)), Fresh(e.data));
      TasksFitLonger(s.inFlight, queue, arrivals, |firsts|, arrivals + [Fresh(e.data)], |firsts|);
    }
  }

  lemma DeliveredFits<D>(s: State<Numbered<D>>, next: string -> nat, e: Effect<D>, queue: string,
                         arrivals: seq<QueueItem<D>>, firsts: seq<QueueItem<D>>)
    requires Fits(s, queue, arrivals, |firsts|) && e.Delivered?
    requires var items := Contents(s, queue);
             items != [] ==> (Retried(items[0]) <==> |items| > |arrivals| - |firsts|)
    ensures StepFits(s, next, e, queue, arrivals, firsts)
  {
    assert arrivals + [] == arrivals && firsts + [] == firsts;
    if e.queue == queue && Contents(s, queue) != [] {
      var items := s.queues[queue];
      PoppedFits(items, arrivals, |firsts|);
      TasksFitLonger(s.inFlight, queue, arrivals, |firsts|, arrivals,
                     if Retried(items[0]) then |firsts| else |firsts| + 1);
    }
  }

  lemma RetryIffInFront<D>(items: seq<QueueItem<D>>, arrivals: seq<QueueItem<D>>, firsts: seq<QueueItem<D>>)
    requires InOrder(items, arrivals, firsts) && items != []
    ensures Retried(items[0]) <==> |items| > |arrivals| - |firsts|
  {
    var retries := |items| - (|arrivals| - |firsts|);
    assert retries == 0 ==> items[retries..][0] == arrivals[|firsts|];
  }

  lemma DeadLetterFits<D>(s: State<Numbered<D>>, next: string -> nat, e: Effect<D>, queue: string,
                          arrivals: seq<QueueItem<D>>, firsts: seq<QueueItem<D>>)
    requires Fits(s, queue, arrivals, |firsts|) && next(queue) == |arrivals|
    requires e.Returned? && e.id in s.inFlight && s.inFlight[e.id].attempts >= MAX_ATTEMPTS
    ensures StepFits(s, next, e, queue, arrivals, firsts)
  {
    assert arrivals + [] == arrivals && firsts + [] == firsts;
    var task := s.inFlight[e.id];
    TasksFitFewer(s.inFlight, queue, arrivals, |firsts|, e.id);
    if Destination(task) == queue {
      var item := QueueItem(Numbered(task.data.payload, |arrivals|), task.attempts);
      var arrival := Returning(MapTask(Unnumber(), task));
      PushedBackFits(Contents(s, queue), arrivals, |firsts|, item, arrival);
      TasksFitLonger(s.inFlight - {e.id}, queue, arrivals, |firsts|, arrivals + [arrival], |firsts|);
    }
  }

  lemma RetryFits<D>(s: State<Numbered<D>>, next: string -> nat, e: Effect<D>, queue: string,
                     arrivals: seq<QueueItem<D>>, firsts: seq<QueueItem<D>>)
    requires Fits(s, queue, arrivals, |firsts|)
    requires e.Returned? && (e.id in s.inFlight ==> s.inFlight[e.id].attempts < MAX_ATTEMPTS)
    ensures StepFits(s, next, e, queue, arrivals, firsts)
  {
    assert arrivals + [] == arrivals && firsts + [] == firsts;
    if e.id in s.inFlight {
      var task := s.inFlight[e.id];
      assert TaskFits(task, queue, arrivals, |firsts|);
      TasksFitFewer(s.inFlight, queue, arrivals, |firsts|, e.id);
      if task.queueName == queue && queue in s.queues {
        PushedFrontFits(s.queues[queue], arrivals, |firsts|, Returning(task));
      }
    }
  }

  lemma OtherFits<D>(s: State<Numbered<D>>, next: string -> nat, e: Effect<D>, queue: string,
                     arrivals: seq<QueueItem<D>>, firsts: seq<QueueItem<D>>)
    requires Fits(s, queue, arrivals, |firsts|) && (e.Opened? || e.Settled? || e.Touched?)
    ensures StepFits(s, next, e, queue, arrivals, firsts)
  {
    assert arrivals + [] == arrivals && firsts + [] == firsts;
    if e.Settled? {
      TasksFitFewer(s.inFlight, queue, arrivals, |firsts|, e.id);
    }
  }

  // Every history: a message of a queue is the arrival its number says, retries are
  // arrivals that have been delivered, and the others are the undelivered arrivals in order.
  lemma {:induction false} HistoryFits<D>(es: seq<Effect<D>>, queue: string)
    ensures Fits(NumberAll(es), queue, ArrivalHistory(es, queue), |FirstDeliveries(es, queue)|)
    decreases |es|
  {
    if es != [] {
      var before, last := es[..|es| - 1], es[|es| - 1];
      var s, next := NumberAll(before), NextNumbers(before);
      var arrivals, firsts := ArrivalHistory(before, queue), FirstDeliveries(before, queue);
      HistoryFits(before, queue);
      NumbersErased(before);
      match last {
        case Arrived(_, _) => ArrivedFits(s, next, last, queue, arrivals, firsts);
        case Delivered(_, _, _) =>
          EffectsInOrder(before, queue);
          MapContents(Unnumber(), s, queue);
          if Contents(s, queue) != [] {
            RetryIffInFront(MapItems(Unnumber(), Contents(s, queue)), arrivals, firsts);
          }
          DeliveredFits(s, next, last, queue, arrivals, firsts);
        case Returned(id) =>
          if id in s.inFlight && s.inFlight[id].attempts >= MAX_ATTEMPTS {
            DeadLetterFits(s, next, last, queue, arrivals, firsts);
          } else {
            RetryFits(s, next, last, queue, arrivals, firsts);
          }
        case _ => OtherFits(s, next, last, queue, arrivals, firsts);
      }
    }
  }

  // ----- No arrival is held twice -----

  ghost predicate HeldOnce<D>(items: seq<QueueItem<Numbered<D>>>, tasks: map<string, InFlightTask<Numbered<D>>>,
                              queue: string)
  {
    && (forall i, j | 0 <= i < j < |items| :: items[i].data.number != items[j].data.number)
    && (forall i, id | 0 <= i < |items| && id in tasks ::
          tasks[id].queueName == queue ==> items[i].data.number != tasks[id].data.number)
    && forall id, other | id in tasks && other in tasks && id != other ::
         tasks[id].queueName == tasks[other].queueName == queue ==> tasks[id].data.number != tasks[other].data.number
  }

  lemma ArrivedOnce<D>(items: seq<QueueItem<Numbered<D>>>, tasks: map<string, InFlightTask<Numbered<D>>>,
                       queue: string, arrivals: seq<QueueItem<D>>, k: nat, item: QueueItem<Numbered<D>>)
    requires HeldOnce(items, tasks, queue)
    requires NumbersFit(items, arrivals, k) && TasksFit(tasks, queue, arrivals, k)
    requires item.data.number == |arrivals|
    ensures HeldOnce(items + [item], tasks, queue)
  {
    forall i | 0 <= i < |items| ensures items[i].data.number < |arrivals| {
      assert ItemFits(items, i, arrivals, k);
    }
    forall id | id in tasks && tasks[id].queueName == queue ensures tasks[id].data.number < |arrivals| {
      assert TaskFits(tasks[id], queue, arrivals, k);
    }
  }

  lemma DeliveredOnce<D>(items: seq<QueueItem<Numbered<D>>>, tasks: map<string, InFlightTask<Numbered<D>>>,
                         queue: string, id: string, at: int)
    requires HeldOnce(items, tasks, queue) && items != []
    ensures HeldOnce(items[1..], tasks[id := Lent(items[0], queue, id, at)], queue)
  {
  }

  lemma ElsewhereOnce<D>(items: seq<QueueItem<Numbered<D>>>, tasks: map<string, InFlightTask<Numbered<D>>>,
                         queue: string, id: string, task: InFlightTask<Numbered<D>>)
    requires HeldOnce(items, tasks, queue) && task.queueName != queue
    ensures HeldOnce(items, tasks[id := task], queue)
  {
  }

  lemma RemovedOnce<D>(items: seq<QueueItem<Numbered<D>>>, tasks: map<string, InFlightTask<Numbered<D>>>,
                       queue: string, id: string)
    requires HeldOnce(items, tasks, queue)
    ensures HeldOnce(items, tasks - {id}, queue)
    ensures id in tasks && tasks[id].queueName == queue ==>
              HeldOnce([Returning(tasks[id])] + items, tasks - {id}, queue)
  {
  }

  lemma StepOnce<D>(s: State<Numbered<D>>, next: string -> nat, e: Effect<D>, queue: string,
                    arrivals: seq<QueueItem<D>>, k: nat)
    requires Fits(s, queue, arrivals, k) && next(queue) == |arrivals|
    requires HeldOnce(Contents(s, queue), s.inFlight, queue)
    ensures var after := NumberStep(s, next, e);
            HeldOnce(Contents(after, queue), after.inFlight, queue)
  {
    var items := Contents(s, queue);
    match e {
      case Opened(_) =>
      case Arrived(_, data) => ArrivedOnce(items, s.inFlight, queue, arrivals, k, Fresh(Numbered(data, |arrivals|)));
      case Delivered(q, id, at) =>
        if q == queue && items != [] {
          DeliveredOnce(items, s.inFlight, queue, id, at);
        } else if Contents(s, q) != [] {
          ElsewhereOnce(items, s.inFlight, queue, id, Lent(s.queues[q][0], q, id, at));
        }
      case Settled(id) => RemovedOnce(items, s.inFlight, queue, id);
      case Returned(id) => ReturnedOnce(s, next, id, queue, arrivals, k);
      case Touched(_, _) =>
    }
  }

  lemma ReturnedOnce<D>(s: State<Numbered<D>>, next: string -> nat, id: string, queue: string,
                        arrivals: seq<QueueItem<D>>, k: nat)
    requires Fits(s, queue, arrivals, k) && next(queue) == |arrivals|
    requires HeldOnce(Contents(s, queue), s.inFlight, queue)
    ensures var after := NumberStep(s, next, Returned(id));
            HeldOnce(Contents(after, queue), after.inFlight, queue)
  {
    if id in s.inFlight {
      var task, items := s.inFlight[id], Contents(s, queue);
      RemovedOnce(items, s.inFlight, queue, id);
      TasksFitFewer(s.inFlight, queue, arrivals, k, id);
      if task.attempts >= MAX_ATTEMPTS {
        var item := QueueItem(Numbered(task.data.payload, |arrivals|), task.attempts);
        ArrivedOnce(items, s.inFlight - {id}, queue, arrivals, k, item);
      }
    }
  }

  lemma {:induction false} HistoryHeldOnce<D>(es: seq<Effect<D>>, queue: string)
    ensures HeldOnce(Contents(NumberAll(es), queue), NumberAll(es).inFlight, queue)
    decreases |es|
  {
    if es != [] {
      var before := es[..|es| - 1];
      HistoryHeldOnce(before, queue);
      HistoryFits(before, queue);
      StepOnce(NumberAll(before), NextNumbers(before), es[|es| - 1], queue,
               ArrivalHistory(before, queue), |FirstDeliveries(before, queue)|);
    }
  }
}
