// The node's storage: the log in a byte-ordered tree, and the queue engine as state machine
// with its snapshots.

module CombinedStorage {
  import opened Wrappers
  import opened QueueState
  import opened StorageCalls
  import opened MemoryStorage
  import opened BigEndian
  import opened ByteTree
  import opened RaftTypes
  import opened ReplicatedCalls
  import opened Snapshots
  import opened RaftLog

  type Tree<D> = map<Key, Entry<D>>

  // Each entry is stored under the big-endian bytes of its index.
  ghost predicate WellKeyed<D>(tree: Tree<D>) {
    forall key | key in tree :: |key| == WIDTH && tree[key].logId.index == IndexOf(key)
  }

  ghost function Indices<D>(tree: Tree<D>): set<nat>
    requires WellKeyed(tree)
  {
    set key | key in tree :: IndexOf(key)
  }

  // The tree as a map from indices.
  ghost function LogOf<D>(tree: Tree<D>): Log<D>
    requires WellKeyed(tree)
  {
    map i | i in Indices(tree) :: tree[KeyOf(i)]
  }

  lemma LogOfHas<D>(tree: Tree<D>, i: U64)
    requires WellKeyed(tree)
    ensures i in LogOf(tree) <==> KeyOf(i) in tree
    ensures i in LogOf(tree) ==> LogOf(tree)[i] == tree[KeyOf(i)] && LogOf(tree)[i].logId.index == i
  {
    assert IndexOf(KeyOf(i)) == i;
  }

  lemma LogSelfIndexed<D>(tree: Tree<D>)
    requires WellKeyed(tree)
    ensures SelfIndexed(LogOf(tree)) && forall i | i in LogOf(tree) :: i <= MAX_U64
  {
    forall i | i in LogOf(tree) ensures LogOf(tree)[i].logId.index == i {
      LogOfHas(tree, i);
    }
  }

  lemma InsertedAt<D>(tree: Tree<D>, e: Entry<D>, i: nat)
    requires WellKeyed(tree)
    ensures var tree' := tree[KeyOf(e.logId.index) := e];
            && WellKeyed(tree')
            && (i in LogOf(tree') <==> i in LogOf(tree) || i == e.logId.index)
            && (i in LogOf(tree') ==> LogOf(tree')[i] == if i == e.logId.index then e else LogOf(tree)[i])
  {
    var tree' := tree[KeyOf(e.logId.index) := e];
    assert WellKeyed(tree') by {
      assert IndexOf(KeyOf(e.logId.index)) == e.logId.index;
    }
    if i <= MAX_U64 {
      LogOfHas(tree, i);
      LogOfHas(tree', i);
      KeysOrdered(i, e.logId.index);
    }
  }

  lemma InsertedLog<D>(tree: Tree<D>, e: Entry<D>)
    requires WellKeyed(tree)
    ensures WellKeyed(tree[KeyOf(e.logId.index) := e])
    ensures LogOf(tree[KeyOf(e.logId.index) := e]) == LogOf(tree)[e.logId.index := e]
  {
    InsertedAt(tree, e, 0);
    forall i: nat
      ensures var log, log' := LogOf(tree), LogOf(tree[KeyOf(e.logId.index) := e]);
              (i in log' <==> i in log || i == e.logId.index) &&
              (i in log' ==> log'[i] == if i == e.logId.index then e else log[i])
    {
      InsertedAt(tree, e, i);
    }
  }

  function Kept<D>(tree: Tree<D>, doomed: seq<Key>): Tree<D> {
    map k | k in tree && k !in doomed :: tree[k]
  }

  // Removing the keys from an index on, in byte order, truncates the log there.
  lemma TruncatedLog<D>(tree: Tree<D>, doomed: seq<Key>, index: U64)
    requires WellKeyed(tree)
    requires forall k :: k in doomed <==> k in tree && !Less(k, KeyOf(index))
    ensures WellKeyed(Kept(tree, doomed)) && LogOf(Kept(tree, doomed)) == Truncated(LogOf(tree), index)
  {
    forall i: nat
      ensures i in LogOf(Kept(tree, doomed)) <==> i in LogOf(tree) && i < index
      ensures i in LogOf(Kept(tree, doomed)) ==> LogOf(Kept(tree, doomed))[i] == LogOf(tree)[i]
    {
      if i <= MAX_U64 {
        LogOfHas(tree, i);
        LogOfHas(Kept(tree, doomed), i);
        KeysOrdered(i, index);
      }
    }
  }

  // Removing the keys up to an index purges the log up to there.
  lemma PurgedLog<D>(tree: Tree<D>, doomed: seq<Key>, index: U64)
    requires WellKeyed(tree)
    requires forall k :: k in doomed <==> k in tree && !Less(KeyOf(index), k)
    ensures WellKeyed(Kept(tree, doomed)) && LogOf(Kept(tree, doomed)) == Purged(LogOf(tree), index)
  {
    forall i: nat
      ensures i in LogOf(Kept(tree, doomed)) <==> i in LogOf(tree) && i > index
      ensures i in LogOf(Kept(tree, doomed)) ==> LogOf(Kept(tree, doomed))[i] == LogOf(tree)[i]
    {
      if i <= MAX_U64 {
        LogOfHas(tree, i);
        LogOfHas(Kept(tree, doomed), i);
        KeysOrdered(index, i);
      }
    }
  }

  // ----- Scans of the tree -----

  lemma LastIsGreatest<D>(tree: Tree<D>, keys: seq<Key>)
    requires WellKeyed(tree) && Ascending(keys) && keys != []
    requires forall k :: k in keys <==> k in tree
    ensures var last := keys[|keys| - 1];
            && last in tree && |last| == WIDTH
            && IndexOf(last) in LogOf(tree) && LogOf(tree)[IndexOf(last)] == tree[last]
            && forall j | j in LogOf(tree) :: j <= IndexOf(last)
  {
    var last := keys[|keys| - 1];
    assert last in keys;
    LogOfHas(tree, IndexOf(last));
    forall j: nat | j in LogOf(tree) ensures j <= IndexOf(last) {
      LogOfHas(tree, j);
      assert KeyOf(j) in keys;
      var p :| 0 <= p < |keys| && keys[p] == KeyOf(j);
      KeysOrdered(j, IndexOf(last));
    }
  }

  function IndicesOf(keys: seq<Key>): (indices: seq<nat>)
    requires forall j | 0 <= j < |keys| :: |keys[j]| == WIDTH
    ensures |indices| == |keys| && forall j | 0 <= j < |keys| :: indices[j] == IndexOf(keys[j])
  {
    seq(|keys|, j requires 0 <= j < |keys| => IndexOf(keys[j]))
  }

  function Values<D>(tree: Tree<D>, keys: seq<Key>): (entries: seq<Entry<D>>)
    requires forall k | k in keys :: k in tree
    ensures |entries| == |keys| && forall j | 0 <= j < |keys| :: entries[j] == tree[keys[j]]
  {
    seq(|keys|, j requires 0 <= j < |keys| => tree[keys[j]])
  }

  ghost predicate ScanOf<D>(tree: Tree<D>, keys: seq<Key>, from: U64)
    requires WellKeyed(tree)
  {
    && (forall j | 0 <= j < |keys| :: |keys[j]| == WIDTH)
    && (forall k | k in keys :: k in tree)
    && IsScan(LogOf(tree), from, IndicesOf(keys), Values(tree, keys))
  }

  // The keys from a start key on, in byte order, are those of the indices from the start
  // index on, in numeric order.
  lemma Scanned<D>(tree: Tree<D>, keys: seq<Key>, from: U64)
    requires WellKeyed(tree) && Ascending(keys)
    requires forall k :: k in keys <==> k in tree && !Less(k, KeyOf(from))
    ensures ScanOf(tree, keys, from)
  {
    assert forall j | 0 <= j < |keys| :: keys[j] in keys;
    var indices := IndicesOf(keys);
    forall j | 0 <= j < |keys|
      ensures from <= indices[j] && indices[j] in LogOf(tree) && LogOf(tree)[indices[j]] == tree[keys[j]]
    {
      KeysOrdered(indices[j], from);
      LogOfHas(tree, indices[j]);
    }
    forall i, j | 0 <= i < j < |keys| ensures indices[i] < indices[j] {
      KeysOrdered(indices[i], indices[j]);
    }
    forall n: nat | from <= n && n in LogOf(tree) ensures n in indices {
      LogOfHas(tree, n);
      KeysOrdered(n, from);
      assert KeyOf(n) in keys;
      var j :| 0 <= j < |keys| && keys[j] == KeyOf(n);
      assert indices[j] == n;
    }
  }

  // What the loop has read when it stops is the whole range.
  lemma RangeIsRead<D>(tree: Tree<D>, keys: seq<Key>, start: Bound, end: Bound, stop: nat)
    requires WellKeyed(tree) && Ascending(keys) && stop <= |keys|
    requires forall k :: k in keys <==> k in tree && !Less(k, KeyOf(FirstIndex(start)))
    requires forall j | 0 <= j < |keys| :: |keys[j]| == WIDTH
    requires forall j | 0 <= j < stop :: !Beyond(end, IndicesOf(keys)[j])
    requires stop < |keys| ==> Beyond(end, IndicesOf(keys)[stop])
    ensures forall hi | Ends(end, hi) :: Values(tree, keys)[..stop] == ReadRange(LogOf(tree), FirstIndex(start), hi)
  {
    var from := FirstIndex(start);
    Scanned(tree, keys, from);
    StoppedAtEnd(LogOf(tree), from, IndicesOf(keys), Values(tree, keys), stop, end);
  }

  class CombinedStorage<D> {
    var logs: Tree<D>
    const stateMachine: InMemoryStorage<D>
    var lastAppliedLog: Option<LogId>

    ghost predicate Valid()
      reads this, stateMachine
    {
      WellKeyed(logs) && stateMachine.wal == null
    }

    // Every entry of it sits at its own index.
    ghost function Log(): (log: Log<D>)
      reads this, stateMachine
      requires Valid()
      ensures SelfIndexed(log) && forall i | i in log :: i <= MAX_U64
    {
      LogSelfIndexed(logs);
      LogOf(logs)
    }

    function ReplicaOf(): Replica<D>
      reads this, stateMachine
    {
      Replica(stateMachine.Memory(), lastAppliedLog)
    }

    constructor (stateMachine: InMemoryStorage<D>)
      requires stateMachine.wal == null
      ensures Valid() && this.stateMachine == stateMachine
      ensures Log() == map[] && ReplicaOf() == Replica(stateMachine.Memory(), None)
    {
      this.logs, this.stateMachine, this.lastAppliedLog := map[], stateMachine, None;
    }

    method AppendToLog(entries: seq<Entry<D>>)
      requires Valid()
      modifies `logs
      ensures Valid() && Log() == Appended(old(Log()), entries)
    {
      ghost var log := Log();
      for i := 0 to |entries|
        invariant Valid() && Log() == Appended(log, entries[..i])
      {
        AppendedOneMore(log, entries, i);
        InsertOne(entries[i]);
      }
      assert entries[..|entries|] == entries;
    }

    method InsertOne(entry: Entry<D>)
      requires Valid()
      modifies `logs
      ensures Valid() && Log() == old(Log())[entry.logId.index := entry]
    {
      var key := KeyOf(entry.logId.index);
      InsertedLog(logs, entry);
      logs := logs[key := entry];
    }

    // The keys of the tree that are not below `start` in byte order.
    method KeysFrom(start: Key) returns (keys: seq<Key>)
      ensures Ascending(keys)
      ensures forall k :: k in keys <==> k in logs && !Less(k, start)
    {
      keys := InOrder(set k | k in logs && !Less(k, start));
    }

    method DeleteConflictLogsSince(logId: LogId)
      requires Valid()
      modifies `logs
      ensures Valid() && Log() == Truncated(old(Log()), logId.index)
    {
      var doomed := KeysFrom(KeyOf(logId.index));
      TruncatedLog(logs, doomed, logId.index);
      RemoveKeys(doomed);
    }

    method PurgeLogsUpto(logId: LogId)
      requires Valid()
      modifies `logs
      ensures Valid() && Log() == Purged(old(Log()), logId.index)
    {
      var last := KeyOf(logId.index);
      var doomed := InOrder(set k | k in logs && !Less(last, k));
      PurgedLog(logs, doomed, logId.index);
      RemoveKeys(doomed);
    }

    // A batch of removals, collected in a loop and applied at once.
    method RemoveKeys(doomed: seq<Key>)
      modifies `logs
      ensures logs == Kept(old(logs), doomed)
    {
      var batch := {};
      for i := 0 to |doomed|
        invariant batch == set k | k in doomed[..i]
      {
        assert doomed[..i + 1] == doomed[..i] + [doomed[i]];
        batch := batch + {doomed[i]};
      }
      logs := logs - batch;
    }

    method TryGetLogEntries(start: Bound, end: Bound) returns (entries: seq<Entry<D>>)
      requires Valid()
      ensures forall hi | Ends(end, hi) :: entries == ReadRange(Log(), FirstIndex(start), hi)
      ensures start != Excluded(MAX_U64) ==> FirstIndex(start) == LowEnd(start)
    {
      var from := FirstIndex(start);
      var keys := KeysFrom(KeyOf(from));
      assert forall j | 0 <= j < |keys| :: keys[j] in keys;
      ghost var stop;
      entries, stop := ReadUntil(logs, keys, end);
      RangeIsRead(logs, keys, start, end, stop);
    }

    // The loop over the scan, which stops at the first index beyond the range.
    static method ReadUntil(tree: Tree<D>, keys: seq<Key>, end: Bound) returns (entries: seq<Entry<D>>, ghost stop: nat)
      requires forall j | 0 <= j < |keys| :: |keys[j]| == WIDTH
      requires forall k | k in keys :: k in tree
      ensures stop <= |keys| && entries == Values(tree, keys)[..stop]
      ensures forall j | 0 <= j < stop :: !Beyond(end, IndicesOf(keys)[j])
      ensures stop < |keys| ==> Beyond(end, IndicesOf(keys)[stop])
    {
      entries := [];
      var i := 0;
      while i < |keys|
        invariant i <= |keys| && entries == Values(tree, keys)[..i]
        invariant forall j | 0 <= j < i :: !Beyond(end, IndicesOf(keys)[j])
      {
        var index := IndexOf(keys[i]);
        if Beyond(end, index) {
          break;
        }
        entries := entries + [tree[keys[i]]];
        i := i + 1;
      }
      stop := i;
    }

    // The id of the last entry in byte order; no purged id is ever reported.
    method GetLogState() returns (lastPurged: Option<LogId>, lastLogId: Option<LogId>)
      requires Valid()
      ensures lastPurged == None
      ensures lastLogId == None <==> Log() == map[]
      ensures lastLogId.Some? ==>
                var i := lastLogId.value.index;
                i in Log() && Log()[i].logId == lastLogId.value && forall j | j in Log() :: j <= i
    {
      var keys := InOrder(logs.Keys);
      lastPurged := None;
      if keys == [] {
        assert forall k :: k in logs ==> k in keys;
        return None, None;
      }
      LastIsGreatest(logs, keys);
      var last := keys[|keys| - 1];
      assert last in keys;
      lastLogId := Some(logs[last].logId);
    }

    // A command against the queue engine; its answer is the client response.
    method ApplyRequest(request: ClientRequest<D>, draws: Draws) returns (r: Response<D>)
      requires Valid()
      modifies stateMachine`queues, stateMachine`inFlight
      ensures Valid()
      ensures var o := Execute(old(stateMachine.Memory()), CallOf(request, draws), true);
              stateMachine.Memory() == o.state && r == o.response
    {
      match request {
        case CreateQueue(name) => r := stateMachine.CreateQueue(name, true);
        case Enqueue(queue, data) => r := stateMachine.Queue(queue, data, true);
        case Dequeue(queue) => r := stateMachine.Dequeue(queue, draws.ids(0), draws.at(0), true);
        case Ack(id) => r := stateMachine.Ack(id, true);
        case Nack(id) => r := stateMachine.Nack(id, true);
        case ExtendVisibility(id, duration) => r := stateMachine.ExtendVisibility(id, duration, draws.at(0), true);
        case EnqueueBatch(queue, items) => r := stateMachine.QueueBatch(queue, items, true);
        case DequeueBatch(queue, count) => r := stateMachine.DequeueBatch(queue, count, draws.ids, draws.at, true);
        case AckBatch(ids) => r := stateMachine.AckBatch(ids, true);
      }
    }

    method ApplyToStateMachine(entries: seq<Entry<D>>, supply: Supply) returns (responses: seq<Response<D>>)
      requires Valid()
      modifies `lastAppliedLog, stateMachine`queues, stateMachine`inFlight
      ensures Valid()
      ensures Applied(ReplicaOf(), responses) == ApplyEntries(old(ReplicaOf()), entries, supply)
      ensures |responses| == |entries|
      ensures exists trace: seq<Replica<D>> ::
                ServedThrough(trace, old(ReplicaOf()), entries, supply, Applied(ReplicaOf(), responses))
    {
      ghost var start := ReplicaOf();
      responses := [];
      for i := 0 to |entries|
        invariant Valid()
        invariant Applied(ReplicaOf(), responses) == ApplyEntries(old(ReplicaOf()), entries[..i], supply)
      {
        var entry := entries[i];
        match entry.payload {
          case Blank => responses := responses + [Done];
          case Membership => responses := responses + [Done];
          case Normal(request) =>
            var r := ApplyRequest(request, supply(entry.logId.index));
            responses := responses + [r];
        }
        lastAppliedLog := Some(entry.logId);
        assert entries[..i + 1][..i] == entries[..i];
      }
      assert entries[..|entries|] == entries;
      ghost var trace := EntriesServed(start, entries, supply);
    }

    method BuildSnapshot(format: SnapshotFormat<D>) returns (snapshot: Snapshot)
      requires Valid()
      ensures snapshot == SnapshotOf(ReplicaOf(), format)
      ensures snapshot.data == format.write(State(stateMachine.queues, stateMachine.inFlight))
      ensures snapshot.meta.lastLogId == lastAppliedLog
      ensures snapshot.meta.snapshotId == match lastAppliedLog case Some(id) => id.index as nat case None => 0
    {
      var data := SnapshotData(format);
      snapshot := LabelSnapshot(data);
    }

    // The first half of it, which reads the state, and the second, which reads the id.
    method SnapshotData(format: SnapshotFormat<D>) returns (data: string)
      ensures data == format.write(stateMachine.Memory())
    {
      var queues, inFlight := stateMachine.GetSnapshotData();
      data := format.write(State(queues, inFlight));
    }

    method LabelSnapshot(data: string) returns (snapshot: Snapshot)
      ensures snapshot == Labelled(data, lastAppliedLog)
    {
      var lastLog := lastAppliedLog;
      var id := match lastLog case Some(l) => l.index as nat case None => 0;
      snapshot := Snapshot(SnapshotMeta(lastLog, id), data);
    }

    method InstallSnapshot(snapshot: Snapshot, format: SnapshotFormat<D>) returns (ok: bool)
      requires Valid()
      modifies `lastAppliedLog, stateMachine`queues, stateMachine`inFlight
      ensures Valid() && ok == format.read(snapshot.data).Success?
      ensures ReplicaOf() == Installed(old(ReplicaOf()), snapshot, format)
      ensures ok ==> ReplicaOf() == Replica(format.read(snapshot.data).value, snapshot.meta.lastLogId)
      ensures !ok ==> ReplicaOf() == old(ReplicaOf())
    {
      match format.read(snapshot.data) {
        case Failure(_) => return false;
        case Success(state) =>
          stateMachine.RestoreFromSnapshot(state.queues, state.inFlight);
          lastAppliedLog := snapshot.meta.lastLogId;
          return true;
      }
    }
  }
}
