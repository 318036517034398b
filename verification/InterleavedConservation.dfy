// Conservation of messages when calls interleave, and the one way it fails: a creation
// that checked for its queue before another call created it, and replaces it afterwards.

module InterleavedConservation {
  import opened QueueState
  import opened Recovery
  import opened Totals
  import opened Conservation
  import opened Interleaving

  ghost function InHand<D>(p: D -> bool): Hand<D> -> int {
    (h: Hand<D>) =>
      match h
      case Dequeuing(_, popped, _) => Copies(popped, p)
      case Acking(task) => InTask(p)(task)
      case Nacking(task) => InTask(p)(task)
      case _ => 0
  }

  // Messages that satisfy p, pending, in flight or in the hand of an unfinished call.
  ghost function Present<D>(w: World<D>, p: D -> bool): int {
    Held(w.memory, p) + Total(w.calls, InHand(p))
  }

  ghost predicate Balanced<D>(w: World<D>, p: D -> bool) {
    CountOf(w.pushed, p) == Present(w, p) + CountOf(w.acked, p) + CountOf(w.overwritten, p)
  }

  // Queues are never removed, so every name in use is that of a queue.
  ghost predicate KnownHand<D>(w: World<D>, h: Hand<D>) {
    match h
    case Enqueuing(queue, _) => queue in w.memory.queues
    case Dequeuing(queue, popped, ids) => queue in w.memory.queues && |ids| == |popped|
    case Acking(task) => task.queueName in w.memory.queues
    case Nacking(task) => task.queueName in w.memory.queues
    case _ => true
  }

  ghost predicate Known<D>(w: World<D>) {
    && (forall id | id in w.memory.inFlight :: w.memory.inFlight[id].queueName in w.memory.queues)
    && forall c | c in w.calls :: KnownHand(w, w.calls[c])
  }

  lemma {:induction false} InsertKnown<D>(w: World<D>, tasks: seq<InFlightTask<D>>)
    requires Known(w) && forall i | 0 <= i < |tasks| :: tasks[i].queueName in w.memory.queues
    ensures Known(w.(memory := w.memory.(inFlight := Insert(w.memory.inFlight, tasks))))
  {
    if tasks != [] {
      InsertKnown(w, tasks[..|tasks| - 1]);
    }
  }

  lemma {:induction false} CloseAllKnown<D>(w: World<D>, ids: seq<string>)
    requires Known(w)
    ensures Known(CloseAll(w, ids))
  {
    if ids != [] {
      CloseAllKnown(w, ids[..|ids| - 1]);
    }
  }

  lemma FinishKnown<D>(w: World<D>, hand: Hand<D>, appended: bool, at: nat -> int)
    requires Known(w) && KnownHand(w, hand)
    ensures Known(FinishHand(w, hand, appended, at))
  {
    match hand {
      case Dequeuing(queue, popped, ids) =>
        if appended {
          InsertKnown(w, LentAll(popped, queue, ids, at));
        }
      case BatchAcking(ids) => CloseAllKnown(w, ids);
      case _ =>
    }
  }

  lemma StepKnown<D>(w: World<D>, step: Step<D>)
    requires Known(w)
    ensures Known(Next(w, step))
  {
    match step {
      case Finish(c, appended, at) =>
        if c in w.calls {
          FinishKnown(w.(calls := w.calls - {c}), w.calls[c], appended, at);
        }
      case _ =>
    }
  }

  // ----- Balance -----

  lemma {:induction false} PayloadsCount<D>(items: seq<QueueItem<D>>, p: D -> bool)
    ensures CountOf(Payloads(items), p) == Copies(items, p)
  {
    if items != [] {
      var n := |items| - 1;
      PayloadsCount(items[..n], p);
      assert Payloads(items)[..n] == Payloads(items[..n]);
      assert items == items[..n] + [items[n]];
      CopiesAppend(items[..n], [items[n]], p);
    }
  }

  lemma {:induction false} CountConcat<D>(a: seq<D>, b: seq<D>, p: D -> bool)
    ensures CountOf(a + b, p) == CountOf(a, p) + CountOf(b, p)
  {
    if b == [] {
      assert a + b == a;
    } else {
      assert (a + b)[..|a + b| - 1] == a + b[..|b| - 1];
      CountConcat(a, b[..|b| - 1], p);
    }
  }

  lemma FreshCopies<D>(items: seq<D>, p: D -> bool)
    ensures Copies(FreshAll(items), p) == CountOf(items, p)
  {
    PayloadsCount(FreshAll(items), p);
    assert Payloads(FreshAll(items)) == items;
  }

  lemma SplitCopies<D>(items: seq<QueueItem<D>>, n: nat, p: D -> bool)
    requires n <= |items|
    ensures Copies(items, p) == Copies(items[..n], p) + Copies(items[n..], p)
  {
    assert items == items[..n] + items[n..];
    CopiesAppend(items[..n], items[n..], p);
  }

  lemma BeginBalanced<D>(w: World<D>, step: Step<D>, p: D -> bool)
    requires Balanced(w, p) && Legal(w, step) && !step.Finish?
    ensures Balanced(Next(w, step), p)
  {
    var s := w.memory;
    match step {
      case BeginCreate(c, name) => TotalUpdate(w.calls, c, Creating(name), InHand(p));
      case BeginEnqueue(c, queue, items) => TotalUpdate(w.calls, c, Enqueuing(queue, items), InHand(p));
      case BeginDequeue(c, queue, ids) =>
        if queue in s.queues && 0 < |ids| <= |s.queues[queue]| {
          var items := s.queues[queue];
          SplitCopies(items, |ids|, p);
          SetQueuePending(s, queue, items[|ids|..], p);
          TotalUpdate(w.calls, c, Dequeuing(queue, items[..|ids|], ids), InHand(p));
        }
      case BeginAck(c, id) =>
        if id in s.inFlight {
          TakeOutFlying(s, id, p);
          TotalUpdate(w.calls, c, Acking(s.inFlight[id]), InHand(p));
        }
      case BeginNack(c, id) =>
        if id in s.inFlight {
          TakeOutFlying(s, id, p);
          TotalUpdate(w.calls, c, Nacking(s.inFlight[id]), InHand(p));
        }
      case BeginAckBatch(c, ids) => TotalUpdate(w.calls, c, BatchAcking(ids), InHand(p));
      case Heartbeat(id, now) =>
        if id in s.inFlight {
          TotalUpdate(s.inFlight, id, s.inFlight[id].(consumedAt := now), InTask(p));
        }
    }
  }

  // The balance while a call is about to finish, with hand h.
  ghost predicate BalancedWith<D>(w: World<D>, h: Hand<D>, p: D -> bool) {
    CountOf(w.pushed, p) == Present(w, p) + InHand(p)(h) + CountOf(w.acked, p) + CountOf(w.overwritten, p)
  }

  ghost function CopiesInTasks<D>(tasks: seq<InFlightTask<D>>, p: D -> bool): nat {
    if tasks == [] then 0
    else CopiesInTasks(tasks[..|tasks| - 1], p) + InTask(p)(tasks[|tasks| - 1])
  }

  lemma {:induction false} LentCopies<D>(
    popped: seq<QueueItem<D>>, queue: string, ids: seq<string>, at: nat -> int, p: D -> bool)
    requires |ids| == |popped|
    ensures CopiesInTasks(LentAll(popped, queue, ids, at), p) == Copies(popped, p)
  {
    if popped != [] {
      var n := |popped| - 1;
      LentCopies(popped[..n], queue, ids[..n], at, p);
      assert LentAll(popped, queue, ids, at)[..n] == LentAll(popped[..n], queue, ids[..n], at);
      SplitCopies(popped, n, p);
      assert popped[n..] == [popped[n]];
    }
  }

  lemma {:induction false} InsertFlying<D>(
    m: map<string, InFlightTask<D>>, tasks: seq<InFlightTask<D>>, ids: seq<string>, p: D -> bool)
    requires |ids| == |tasks| && Distinct(ids) && forall i | 0 <= i < |ids| :: tasks[i].id == ids[i] && ids[i] !in m
    ensures Flying(Insert(m, tasks), p) == Flying(m, p) + CopiesInTasks(tasks, p)
  {
    if tasks != [] {
      var n := |tasks| - 1;
      InsertFlying(m, tasks[..n], ids[..n], p);
      LentKeys(m, tasks[..n], ids[..n]);
      assert ids[n] !in ids[..n];
      TotalUpdate(Insert(m, tasks[..n]), ids[n], tasks[n], InTask(p));
    }
  }

  lemma FinishDequeueBalanced<D>(w: World<D>, hand: Hand<D>, appended: bool, at: nat -> int, p: D -> bool)
    requires Finishing(w, hand) && hand.Dequeuing? && BalancedWith(w, hand, p)
    ensures Balanced(FinishHand(w, hand, appended, at), p)
  {
    if appended {
      LentCopies(hand.popped, hand.queue, hand.ids, at, p);
      assert forall i | 0 <= i < |hand.ids| :: hand.ids[i] in HandIds(hand);
      InsertFlying(w.memory.inFlight, LentAll(hand.popped, hand.queue, hand.ids, at), hand.ids, p);
    } else {
      var items := Contents(w.memory, hand.queue);
      SetQueuePending(w.memory, hand.queue, hand.popped + items, p);
      CopiesAppend(hand.popped, items, p);
    }
  }

  lemma RequeuePending<D>(s: State<D>, task: InFlightTask<D>, p: D -> bool)
    requires HasDestination(s, task)
    ensures Pending(Requeue(s, task), p) == Pending(s, p) + InTask(p)(task)
  {
    var item, items := Returning(task), Contents(s, Destination(task));
    if task.attempts >= MAX_ATTEMPTS {
      SetQueuePending(s, Destination(task), items + [item], p);
      CopiesAppend(items, [item], p);
    } else {
      SetQueuePending(s, Destination(task), [item] + items, p);
      CopiesAppend([item], items, p);
    }
  }

  lemma FinishNackBalanced<D>(w: World<D>, hand: Hand<D>, appended: bool, at: nat -> int, p: D -> bool)
    requires Finishing(w, hand) && KnownHand(w, hand) && hand.Nacking? && BalancedWith(w, hand, p)
    ensures Balanced(FinishHand(w, hand, appended, at), p)
  {
    if appended {
      RequeuePending(w.memory, hand.task, p);
    } else {
      assert hand.task.id in HandIds(hand);
      TotalUpdate(w.memory.inFlight, hand.task.id, hand.task, InTask(p));
    }
  }

  lemma {:induction false} CloseAllBalanced<D>(w: World<D>, ids: seq<string>, p: D -> bool)
    requires Balanced(w, p)
    ensures Balanced(CloseAll(w, ids), p)
  {
    if ids != [] {
      var before, id := CloseAll(w, ids[..|ids| - 1]), ids[|ids| - 1];
      CloseAllBalanced(w, ids[..|ids| - 1], p);
      if id in before.memory.inFlight {
        TakeOutFlying(before.memory, id, p);
        CountConcat(before.acked, [before.memory.inFlight[id].data], p);
      }
    }
  }

  lemma FinishBalanced<D>(w: World<D>, hand: Hand<D>, appended: bool, at: nat -> int, p: D -> bool)
    requires Finishing(w, hand) && KnownHand(w, hand) && BalancedWith(w, hand, p)
    ensures Balanced(FinishHand(w, hand, appended, at), p)
  {
    match hand {
      case Creating(name) =>
        SetQueuePending(w.memory, name, [], p);
        PayloadsCount(Contents(w.memory, name), p);
        CountConcat(w.overwritten, Payloads(Contents(w.memory, name)), p);
      case Enqueuing(queue, items) =>
        SetQueuePending(w.memory, queue, w.memory.queues[queue] + FreshAll(items), p);
        CopiesAppend(w.memory.queues[queue], FreshAll(items), p);
        FreshCopies(items, p);
        CountConcat(w.pushed, items, p);
      case Dequeuing(_, _, _) => FinishDequeueBalanced(w, hand, appended, at, p);
      case Acking(task) => CountConcat(w.acked, [task.data], p);
      case Nacking(_) => FinishNackBalanced(w, hand, appended, at, p);
      case BatchAcking(ids) => CloseAllBalanced(w, ids, p);
    }
  }

  lemma StepBalanced<D>(w: World<D>, step: Step<D>, p: D -> bool)
    requires Invariant(w) && Known(w) && Balanced(w, p) && Legal(w, step)
    ensures Balanced(Next(w, step), p)
  {
    if step.Finish? {
      if step.c in w.calls {
        Release(w, step.c);
        TotalRemove(w.calls, step.c, InHand(p));
        FinishBalanced(w.(calls := w.calls - {step.c}), w.calls[step.c], step.appended, step.at, p);
      }
    } else {
      BeginBalanced(w, step, p);
    }
  }

  // In every interleaving every copy pushed is pending, in flight, in the hand of an
  // unfinished call, acknowledged, or was in a queue that a creation replaced.
  lemma {:induction false} InterleavedBalance<D>(steps: seq<Step<D>>, p: D -> bool)
    requires LegalPlay(steps)
    ensures Known(Play(steps)) && Balanced(Play(steps), p)
  {
    if steps != [] {
      var n := |steps| - 1;
      LegalPrefix(steps, n);
      InterleavedBalance(steps[..n], p);
      PlayKeeps(steps[..n]);
      assert Legal(Play(steps[..n]), steps[n]);
      StepKnown(Play(steps[..n]), steps[n]);
      StepBalanced(Play(steps[..n]), steps[n], p);
    }
  }

  // ----- When nothing is overwritten -----

  // A creation that replaces a queue somebody already pushed to.
  ghost predicate Overwrites<D>(w: World<D>, step: Step<D>) {
    && step.Finish? && step.appended && step.c in w.calls && w.calls[step.c].Creating?
    && Contents(w.memory, w.calls[step.c].name) != []
  }

  lemma {:induction false} CloseAllOverwritesNothing<D>(w: World<D>, ids: seq<string>)
    ensures CloseAll(w, ids).overwritten == w.overwritten
  {
    if ids != [] {
      CloseAllOverwritesNothing(w, ids[..|ids| - 1]);
    }
  }

  lemma StepOverwrites<D>(w: World<D>, step: Step<D>)
    ensures w.overwritten <= Next(w, step).overwritten
    ensures Next(w, step).overwritten == w.overwritten <==> !Overwrites(w, step)
  {
    if step.Finish? && step.c in w.calls && w.calls[step.c].BatchAcking? {
      CloseAllOverwritesNothing(w.(calls := w.calls - {step.c}), w.calls[step.c].ids);
    }
  }

  ghost predicate NeverOverwrites<D>(steps: seq<Step<D>>) {
    forall i | 0 <= i < |steps| :: !Overwrites(Play(steps[..i]), steps[i])
  }

  lemma NeverOverwritesLast<D>(steps: seq<Step<D>>)
    requires steps != []
    ensures var before, last := steps[..|steps| - 1], steps[|steps| - 1];
            NeverOverwrites(steps) <==> NeverOverwrites(before) && !Overwrites(Play(before), last)
  {
    var n := |steps| - 1;
    assert forall i | 0 <= i < n :: steps[..n][..i] == steps[..i] && steps[..n][i] == steps[i];
    assert NeverOverwrites(steps) ==> !Overwrites(Play(steps[..n]), steps[n]);
  }

  lemma {:induction false} OverwrittenIff<D>(steps: seq<Step<D>>)
    ensures Play(steps).overwritten == [] <==> NeverOverwrites(steps)
  {
    if steps != [] {
      var n := |steps| - 1;
      OverwrittenIff(steps[..n]);
      StepOverwrites(Play(steps[..n]), steps[n]);
      NeverOverwritesLast(steps);
    }
  }

  ghost predicate Conserved<D>(w: World<D>, p: D -> bool) {
    CountOf(w.pushed, p) == Present(w, p) + CountOf(w.acked, p)
  }

  // The copies of every message are conserved exactly in the runs where no creation replaces
  // a queue that has messages in it.
  lemma ConservedIffNothingReplaced<D(!new)>(steps: seq<Step<D>>)
    requires LegalPlay(steps)
    ensures (forall x :: Conserved(Play(steps), Only(x))) <==> NeverOverwrites(steps)
  {
    var w := Play(steps);
    OverwrittenIff(steps);
    if w.overwritten == [] {
      forall x ensures Conserved(w, Only(x)) {
        InterleavedBalance(steps, Only(x));
      }
    } else {
      var x := w.overwritten[|w.overwritten| - 1];
      InterleavedBalance(steps, Only(x));
      assert !Conserved(w, Only(x));
    }
  }

  // A creation overlaps another of the same name, by another call or by a dead letter.
  ghost predicate Overlaps<D>(w: World<D>, step: Step<D>) {
    match step
    case BeginCreate(_, name) => exists c :: c in w.calls && w.calls[c] == Creating(name)
    case Finish(c, appended, _) =>
      && c in w.calls && w.calls[c].Nacking? && appended
      && exists c' :: c' in w.calls && w.calls[c'] == Creating(Destination(w.calls[c].task))
    case _ => false
  }

  // While a creation waits, its queue does not exist and no other call creates it.
  ghost predicate CreationsApart<D>(w: World<D>) {
    forall c | c in w.calls && w.calls[c].Creating? ::
      && w.calls[c].name !in w.memory.queues
      && forall c' | c' in w.calls && c' != c :: w.calls[c'] != w.calls[c]
  }

  lemma {:induction false} CloseAllQueues<D>(w: World<D>, ids: seq<string>)
    ensures CloseAll(w, ids).memory.queues == w.memory.queues && CloseAll(w, ids).calls == w.calls
  {
    if ids != [] {
      CloseAllQueues(w, ids[..|ids| - 1]);
    }
  }

  lemma StepCreationsApart<D>(w: World<D>, step: Step<D>)
    requires Known(w) && CreationsApart(w) && Legal(w, step) && !Overlaps(w, step)
    ensures CreationsApart(Next(w, step)) && !Overwrites(w, step)
  {
    if step.Finish? && step.c in w.calls {
      var w', hand := w.(calls := w.calls - {step.c}), w.calls[step.c];
      if hand.BatchAcking? {
        CloseAllQueues(w', hand.ids);
      }
      var added := FinishHand(w', hand, step.appended, step.at).memory.queues.Keys - w.memory.queues.Keys;
      assert hand.Creating? ==> added <= {hand.name};
      assert hand.Nacking? ==> added <= {Destination(hand.task)};
      assert !hand.Creating? && !hand.Nacking? ==> added == {};
    }
  }

  // Without overlapping creations of one name no message is lost, whatever else
  // interleaves and whichever appends fail.
  lemma {:induction false} ConservedWithoutOverlap<D>(steps: seq<Step<D>>, p: D -> bool)
    requires LegalPlay(steps)
    requires forall i | 0 <= i < |steps| :: !Overlaps(Play(steps[..i]), steps[i])
    ensures var w := Play(steps);
            CountOf(w.pushed, p) == Present(w, p) + CountOf(w.acked, p)
  {
    NothingOverwritten(steps);
    OverwrittenIff(steps);
    InterleavedBalance(steps, p);
  }

  lemma {:induction false} NothingOverwritten<D>(steps: seq<Step<D>>)
    requires LegalPlay(steps)
    requires forall i | 0 <= i < |steps| :: !Overlaps(Play(steps[..i]), steps[i])
    ensures CreationsApart(Play(steps)) && Play(steps).overwritten == []
  {
    if steps != [] {
      var n := |steps| - 1;
      LegalPrefix(steps, n);
      assert forall i | 0 <= i < n :: steps[..n][..i] == steps[..i];
      NothingOverwritten(steps[..n]);
      KnownAlways(steps[..n]);
      assert Legal(Play(steps[..n]), steps[n]) && !Overlaps(Play(steps[..n]), steps[n]);
      StepCreationsApart(Play(steps[..n]), steps[n]);
      StepOverwrites(Play(steps[..n]), steps[n]);
    }
  }

  lemma {:induction false} KnownAlways<D>(steps: seq<Step<D>>)
    ensures Known(Play(steps))
  {
    if steps != [] {
      KnownAlways(steps[..|steps| - 1]);
      StepKnown(Play(steps[..|steps| - 1]), steps[|steps| - 1]);
    }
  }

  lemma PlayOneMore<D>(steps: seq<Step<D>>, step: Step<D>)
    requires LegalPlay(steps) && Legal(Play(steps), step)
    ensures LegalPlay(steps + [step]) && Play(steps + [step]) == Next(Play(steps), step)
  {
    var more := steps + [step];
    assert more[..|steps|] == steps;
    forall i | 0 <= i < |more| ensures Legal(Play(more[..i]), more[i]) {
      if i < |steps| {
        assert more[..i] == steps[..i];
      }
    }
  }

  // Two creations of one queue overlap, and the message pushed in between is lost.
  lemma OverlapLosesMessage() returns (steps: seq<Step<char>>)
    ensures LegalPlay(steps)
    ensures var w := Play(steps);
            w.pushed == ['m'] && w.acked == [] && w.memory == State(map["q" := []], map[]) && w.calls == map[]
    ensures !Conserved(Play(steps), Only('m'))
  {
    var at: nat -> int := _ => 0;
    steps := [];
    PlayOneMore(steps, BeginCreate(0, "q"));
    steps := steps + [BeginCreate(0, "q")];
    PlayOneMore(steps, BeginCreate(1, "q"));
    steps := steps + [BeginCreate(1, "q")];
    PlayOneMore(steps, Finish(0, true, at));
    steps := steps + [Finish(0, true, at)];
    PlayOneMore(steps, BeginEnqueue(2, "q", ['m']));
    steps := steps + [BeginEnqueue(2, "q", ['m'])];
    PlayOneMore(steps, Finish(2, true, at));
    steps := steps + [Finish(2, true, at)];
    PlayOneMore(steps, Finish(1, true, at));
    steps := steps + [Finish(1, true, at)];
    OneReplaced(steps);
  }

  lemma OneReplaced(steps: seq<Step<char>>)
    requires var w := Play(steps);
             w.pushed == ['m'] && w.acked == [] && w.memory == State(map["q" := []], map[]) && w.calls == map[]
    ensures !Conserved(Play(steps), Only('m'))
  {
    var w := Play(steps);
    TotalRemove(w.memory.queues, "q", InQueue(Only('m')));
    assert (w.memory.queues - {"q"}).Keys == {};
    assert Present(w, Only('m')) == 0;
    assert CountOf(w.pushed, Only('m')) == 1 by { assert w.pushed[..0] == []; }
  }
}
