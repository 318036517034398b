// Concrete inputs for what turned out not to hold.

module Counterexamples {
  import opened Wrappers
  import opened QueueState
  import opened StorageCalls
  import opened Replay
  import opened Recovery
  import opened Payloads
  import opened Fifo
  import opened ArrivalOrder
  import opened OldestFirst
  import opened Sweep
  import opened Visibility
  import opened BigEndian
  import opened RaftTypes
  import opened RaftLog
  import opened WalFile
  import opened MemoryStorage
  import opened Snapshots

  lemma DoNext<D>(events: seq<Event<D>>, call: Call<D>, appended: bool, queue: string)
    ensures var s, longer := Run(events).memory, events + [Do(call, appended)];
            var o := Execute(s, call, appended);
            && Run(longer).memory == o.state
            && RunArrivals(longer, queue) == RunArrivals(events, queue) + ArrivedIn(s, call, o.response, queue)
            && LostAcks(longer) == LostAfter(Run(events), LostAcks(events), Do(call, appended))
            && (FreshIds(longer) <==> FreshIds(events) && Distinct(Drawn(s, call)) &&
                                      forall id | id in Drawn(s, call) :: id !in UsedIds(events))
            && UsedIds(longer) == UsedIds(events) + IdSet(Drawn(s, call))
            && (appended && NoAckFails(events) ==> NoAckFails(longer))
  {
    RunLast(events, Do(call, appended));
    assert (events + [Do(call, appended)])[..|events|] == events;
  }

  lemma OneArrived() returns (events: seq<Event<char>>)
    ensures NoAckFails(events) && RunArrivals(events, "q") == [Fresh('a')]
    ensures FreshIds(events) && UsedIds(events) == {} && LostAcks(events) == {}
    ensures Run(events).memory == State(map["q" := [Fresh('a')]], map[])
  {
    events := [];
    DoNext(events, Call.CreateQueue("q"), true, "q");
    events := events + [Do(Call.CreateQueue("q"), true)];
    DoNext(events, Call.Enqueue("q", 'a'), true, "q");
    events := events + [Do(Call.Enqueue("q", 'a'), true)];
    assert Run(events).memory.queues["q"] == [Fresh('a')];
  }

  // A run that has delivered one message, as task t.
  lemma OneDelivered() returns (events: seq<Event<char>>)
    ensures NoAckFails(events) && RunArrivals(events, "q") == [Fresh('a')]
    ensures FreshIds(events) && UsedIds(events) == {"t"} && LostAcks(events) == {}
    ensures Run(events).memory == State(map["q" := []], map["t" := InFlightTask("t", 'a', 0, "q", 1)])
  {
    events := OneArrived();
    DoNext(events, Call.Dequeue("q", "t", 0), true, "q");
    events := events + [Do(Call.Dequeue("q", "t", 0), true)];
  }

  // ----- Recovery -----

  // An acknowledgement that fails lets its task go, and the restart brings it back.
  lemma LostAckComesBack(clock: ReplayClock) returns (events: seq<Event<char>>)
    ensures FreshIds(events) && LostAcks(events) == {"t"}
    ensures Run(events).memory.inFlight == map[]
    ensures ReplayLog(Run(events).log, clock).inFlight.Keys == {"t"}
  {
    events := OneDelivered();
    DoNext(events, Call.Ack("t"), false, "q");
    events := events + [Do(Call.Ack("t"), false)];
    LostAckSimulation(events, clock);
  }

  // ----- The documented heartbeat duration -----

  // With the default settings, a duration of 60 and a timeout of 30 seconds, a task is
  // expired 31 seconds after its heartbeat.
  lemma HeartbeatTooShort() returns (events: seq<Event<char>>)
    ensures "t" in ExpiredIds(Run(events + [Do(Call.ExtendVisibility("t", 60, 0), true)]).memory,
                              30, 31_000_000_000)
  {
    events := OneDelivered();
    DoNext(events, Call.ExtendVisibility("t", 60, 0), true, "q");
    HeartbeatIgnoresDuration(Run(events).memory, "t", 60, 0, 30, 31_000_000_000);
  }

  // ----- The oldest message first -----

  // What the four calls do to the state; t has taken 'a', u takes 'b'.
  function TaskT(): InFlightTask<char> {
    InFlightTask("t", 'a', 0, "q", 1)
  }

  function TaskU(): InFlightTask<char> {
    InFlightTask("u", 'b', 0, "q", 1)
  }

  lemma ArrivalOfB(s: State<char>)
    requires s == State(map["q" := []], map["t" := TaskT()])
    ensures var o := Execute(s, Call.Enqueue("q", 'b'), true);
            o.state == State(map["q" := [Fresh('b')]], map["t" := TaskT()]) && o.response == Done
  {
    assert s.queues["q"] + [Fresh('b')] == [Fresh('b')];
  }

  lemma DeliveryOfB(s: State<char>)
    requires s == State(map["q" := [Fresh('b')]], map["t" := TaskT()])
    ensures Execute(s, Call.Dequeue("q", "u", 0), true).state
         == State(map["q" := []], map["t" := TaskT(), "u" := TaskU()])
  {
    assert s.queues["q"][1..] == [];
  }

  lemma ReturnOfA(s: State<char>)
    requires s == State(map["q" := []], map["t" := TaskT(), "u" := TaskU()])
    ensures Execute(s, Call.Nack("t"), true).state
         == State(map["q" := [QueueItem('a', 1)]], map["u" := TaskU()])
  {
    assert s.inFlight - {"t"} == map["u" := TaskU()];
    assert [QueueItem('a', 1)] + s.queues["q"] == [QueueItem('a', 1)];
  }

  lemma ReturnOfB(s: State<char>)
    requires s == State(map["q" := [QueueItem('a', 1)]], map["u" := TaskU()])
    ensures Contents(Execute(s, Call.Nack("u"), true).state, "q") == [QueueItem('b', 1), QueueItem('a', 1)]
  {
    assert [QueueItem('b', 1)] + s.queues["q"] == [QueueItem('b', 1), QueueItem('a', 1)];
  }

  lemma DoneNext<D>(events: seq<Event<D>>, call: Call<D>, queue: string, arrived: seq<QueueItem<D>>)
    requires NoAckFails(events)
    requires arrived == ArrivedIn(Run(events).memory, call, Execute(Run(events).memory, call, true).response, queue)
    ensures var longer := events + [Do(call, true)];
            && Run(longer).memory == Execute(Run(events).memory, call, true).state
            && RunArrivals(longer, queue) == RunArrivals(events, queue) + arrived
            && NoAckFails(longer)
  {
    DoNext(events, call, true, queue);
  }

  lemma BothDelivered() returns (events: seq<Event<char>>)
    ensures NoAckFails(events) && RunArrivals(events, "q") == [Fresh('a'), Fresh('b')]
    ensures Run(events).memory == State(map["q" := []], map["t" := TaskT(), "u" := TaskU()])
  {
    events := OneDelivered();
    ArrivalOfB(Run(events).memory);
    DoneNext(events, Call.Enqueue("q", 'b'), "q", [Fresh('b')]);
    events := events + [Do(Call.Enqueue("q", 'b'), true)];
    DeliveryOfB(Run(events).memory);
    DoneNext(events, Call.Dequeue("q", "u", 0), "q", []);
    events := events + [Do(Call.Dequeue("q", "u", 0), true)];
  }

  lemma BothReturned() returns (events: seq<Event<char>>)
    ensures NoAckFails(events) && RunArrivals(events, "q") == [Fresh('a'), Fresh('b')]
    ensures Contents(Run(events).memory, "q") == [QueueItem('b', 1), QueueItem('a', 1)]
  {
    events := BothDelivered();
    ReturnOfA(Run(events).memory);
    DoneNext(events, Call.Nack("t"), "q", []);
    events := events + [Do(Call.Nack("t"), true)];
    ReturnOfB(Run(events).memory);
    DoneNext(events, Call.Nack("u"), "q", []);
    events := events + [Do(Call.Nack("u"), true)];
  }

  // Two tasks nacked in the order of their delivery end up in the opposite order.
  lemma SecondNackOvertakes(clock: ReplayClock) returns (events: seq<Event<char>>)
    ensures NoAckFails(events) && RunArrivals(events, "q") == [Fresh('a'), Fresh('b')]
    ensures Contents(Run(events).memory, "q") == [QueueItem('b', 1), QueueItem('a', 1)]
    ensures !FrontIsOldest(Contents(NumberedRun(events, clock), "q"))
  {
    events := BothReturned();
    RetriesWereDelivered(events, clock, "q");
    LaterInFront(NumberedRun(events, clock), "q", RunArrivals(events, "q"), |RunFirsts(events, "q")|);
  }

  lemma LaterInFront(s: State<Numbered<char>>, queue: string, arrivals: seq<QueueItem<char>>, k: nat)
    requires Contents(MapState(Unnumber(), s), queue) == [QueueItem('b', 1), QueueItem('a', 1)]
    requires arrivals == [Fresh('a'), Fresh('b')] && NumbersFit(Contents(s, queue), arrivals, k)
    ensures !FrontIsOldest(Contents(s, queue))
  {
    MapContents(Unnumber(), s, queue);
    var items := Contents(s, queue);
    assert ItemFits(items, 0, arrivals, k) && ItemFits(items, 1, arrivals, k);
    assert MapItems(Unnumber(), items)[0].data == 'b' && MapItems(Unnumber(), items)[1].data == 'a';
  }

  // ----- A line that cannot be decoded -----

  // An encoding that knows one entry.
  function OneEntryCodec(): Codec<WalOp<char>> {
    Codec((e: WalOp<char>) => "c",
          line => if line == "c" then Success(WalOp.CreateQueue("q")) else Failure("unknown entry"))
  }

  lemma NotBlank(c: char)
    requires !IsSpace(c)
    ensures !WalFile.Blank([c])
  {
    assert c in [c];
  }

  lemma OneEntryLawful()
    ensures Lawful(OneEntryCodec(), WalOp.CreateQueue("q"))
  {
    NotBlank('c');
  }

  lemma GoodLine(clock: ReplayClock)
    ensures ReplayLog(Readable(ReadBack(OneEntryCodec(), "c\n", 2)), clock).queues == map["q" := []]
  {
    var codec, log := OneEntryCodec(), [WalOp<char>.CreateQueue("q")];
    OneEntryLawful();
    ReadBackRendered(codec, log, 2);
    assert Render(codec, log[1..]) == "";
    assert Render(codec, log) == "c\n";
    assert log[..0] == [];
  }

  lemma OneLine(c: char, rest: string)
    requires c != '\n' && c != '\r'
    ensures Lines([c] + "\n" + rest) == [[c]] + Lines(rest)
  {
    var text := [c] + "\n" + rest;
    LineEndAt([c], rest);
    assert text[..1] == [c] && text[2..] == rest;
  }

  lemma BothLines()
    ensures Lines("c\nx\n") == ["c", "x"]
  {
    OneLine('c', "x\n");
    OneLine('x', "");
    assert "c" + "\n" + "x\n" == "c\nx\n" && "x" + "\n" + "" == "x\n";
  }

  lemma BadLine(clock: ReplayClock)
    ensures ReplayLog(Readable(ReadBack(OneEntryCodec(), "c\nx\n", 2)), clock) == Empty()
  {
    BothLines();
    NotBlank('x');
    assert UpTo(Lines("c\nx\n"), 2)[1] == "x";
    UnreadableLineLosesAll(OneEntryCodec(), "c\nx\n", 2, clock);
  }

  // The same file with and without a second line that cannot be decoded.
  lemma BadLineLosesGoodOne(clock: ReplayClock)
    ensures ReplayLog(Readable(ReadBack(OneEntryCodec(), "c\n", 2)), clock).queues == map["q" := []]
    ensures ReplayLog(Readable(ReadBack(OneEntryCodec(), "c\nx\n", 2)), clock) == Empty()
  {
    GoodLine(clock);
    BadLine(clock);
  }

  // ----- The greatest index as an excluded start -----

  // Nothing lies after the greatest index, and the scan reads the entry at index 0.
  lemma WrapReadsFromStart(e: Entry<char>)
    requires e.logId.index == 0
    ensures var log: Log<char> := map[0 := e];
            && ReadRange(log, FirstIndex(Excluded(MAX_U64)), MAX_U64 + 1) == [e]
            && ReadRange(log, LowEnd(Excluded(MAX_U64)), MAX_U64 + 1) == []
  {
    var log: Log<char> := map[0 := e];
    NothingInGap(log, 0, 1, MAX_U64 + 1);
  }

  // ----- A snapshot whose two reads are apart -----

  lemma OneApplied<D>(entries: seq<Entry<D>>, e: Entry<D>, supply: Supply)
    ensures ReplicaAfter(entries + [e], supply) == ApplyOne(ReplicaAfter(entries, supply), e, supply).replica
  {
    assert (entries + [e])[..|entries|] == entries;
  }

  function CreateEntry(): Entry<char> {
    Entry(LogId(1, 1, 0), Normal(ClientRequest.CreateQueue("q")))
  }

  function EnqueueEntry(): Entry<char> {
    Entry(LogId(1, 1, 1), Normal(ClientRequest.Enqueue("q", 'a')))
  }

  lemma BothApplied(supply: Supply)
    ensures ReplicaAfter([CreateEntry()], supply).state == State(map["q" := []], map[])
    ensures ReplicaAfter([CreateEntry(), EnqueueEntry()], supply).state == State(map["q" := [Fresh('a')]], map[])
  {
    assert [] + [CreateEntry()] == [CreateEntry()];
    OneApplied([], CreateEntry(), supply);
    assert [CreateEntry()] + [EnqueueEntry()] == [CreateEntry(), EnqueueEntry()];
    OneApplied([CreateEntry()], EnqueueEntry(), supply);
    assert ReplicaAfter([CreateEntry(), EnqueueEntry()], supply).state.queues["q"] == [Fresh('a')];
  }

  // A message enqueued after the state is read and before the id is: the snapshot claims
  // to cover it and does not hold it.
  lemma TornSnapshotLosesMessage(supply: Supply, receiver: Replica<char>, format: SnapshotFormat<char>)
    requires ReadsBack(format, State(map["q" := []], map[]))
    ensures var read, entries := State(map["q" := []], map[]), [CreateEntry(), EnqueueEntry()];
            var named := ReplicaAfter(entries, supply);
            && read == ReplicaAfter([CreateEntry()], supply).state
            && !SnapshotServes(Labelled(format.write(read), named.lastApplied), entries, supply, receiver, format)
  {
    var read, entries := State(map["q" := []], map[]), [CreateEntry(), EnqueueEntry()];
    BothApplied(supply);
    assert read.queues["q"] != ReplicaAfter(entries, supply).state.queues["q"];
    TornSnapshotServesIff(read, entries, supply, receiver, format);
  }

  // A message in the state that is read, and not yet in the id: a node that installs the
  // snapshot and goes on with the entry after the id has the message twice.
  lemma TornSnapshotDoublesMessage(supply: Supply, receiver: Replica<char>, format: SnapshotFormat<char>)
    requires ReadsBack(format, State(map["q" := [Fresh('a')]], map[]))
    ensures var read := ReplicaAfter([CreateEntry(), EnqueueEntry()], supply).state;
            var torn := Labelled(format.write(read), ReplicaAfter([CreateEntry()], supply).lastApplied);
            var after := ApplyEntries(Installed(receiver, torn, format), [EnqueueEntry()], supply).replica;
            && read == State(map["q" := [Fresh('a')]], map[])
            && Contents(after.state, "q") == [Fresh('a'), Fresh('a')]
            && !SnapshotServes(torn, [CreateEntry()], supply, receiver, format)
  {
    var read := ReplicaAfter([CreateEntry(), EnqueueEntry()], supply).state;
    BothApplied(supply);
    assert [EnqueueEntry()][..0] == [];
    assert read.queues["q"] != ReplicaAfter([CreateEntry()], supply).state.queues["q"];
    TornSnapshotServesIff(read, [CreateEntry()], supply, receiver, format);
  }
}
