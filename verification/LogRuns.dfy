// The node's log tree over a whole history of operations.

module LogRuns {
  import opened Wrappers
  import opened BigEndian
  import opened RaftTypes
  import opened RaftLog
  import opened MemoryStorage
  import opened CombinedStorage

  method PerformOne<D>(storage: CombinedStorage<D>, op: LogOp<D>)
    requires storage.Valid()
    modifies storage`logs
    ensures storage.Valid() && storage.Log() == Perform(old(storage.Log()), op)
  {
    match op {
      case Append(entries) => storage.AppendToLog(entries);
      // Only the index of a log id is looked at.
      case DeleteSince(index) => storage.DeleteConflictLogsSince(LogId(0, 0, index));
      case PurgeUpTo(index) => storage.PurgeLogsUpto(LogId(0, 0, index));
    }
  }

  // The index lies within the bounds.
  predicate Within(start: Bound, end: Bound, index: nat) {
    && match start {
         case Included(i) => i <= index
         case Excluded(i) => i < index
         case Unbounded => true
       }
    && match end {
         case Included(i) => index <= i
         case Excluded(i) => index < i
         case Unbounded => true
       }
  }

  // Nothing lies after the greatest index, but the scan wraps around and starts at the first.
  function Scanned(start: Bound): Bound {
    if start == Excluded(MAX_U64) then Unbounded else start
  }

  // What a history leaves within the bounds: entries that were the last to touch their index.
  ghost predicate Remains<D>(ops: seq<LogOp<D>>, start: Bound, end: Bound, e: Entry<D>) {
    Within(start, end, e.logId.index) && exists p :: LastTouch(ops, p, e.logId.index, e)
  }

  ghost predicate ReadsHistory<D(!new)>(ops: seq<LogOp<D>>, start: Bound, end: Bound, read: seq<Entry<D>>) {
    && (forall e :: e in read <==> Remains(ops, start, end, e))
    && forall j, k | 0 <= j < k < |read| :: read[j].logId.index < read[k].logId.index
  }

  // One past the last index in range.
  function EndIndex(end: Bound): (hi: nat)
    ensures Ends(end, hi)
    ensures forall i: U64 :: i < hi <==> !Beyond(end, i)
  {
    match end
    case Included(i) => i + 1
    case Excluded(i) => i
    case Unbounded => MAX_U64 + 1
  }

  lemma RangeOfHistory<D(!new)>(ops: seq<LogOp<D>>, log: Log<D>, start: Bound, end: Bound)
    requires log == LogAfter(ops) && SelfIndexed(log)
    ensures ReadsHistory(ops, Scanned(start), end, ReadRange(log, FirstIndex(start), EndIndex(end)))
  {
    var from, read := FirstIndex(start), ReadRange(log, FirstIndex(start), EndIndex(end));
    forall e ensures e in read <==> Remains(ops, Scanned(start), end, e) {
      ReadRangeExact(log, from, EndIndex(end), e);
      LastTouchDecides(ops, e.logId.index, e);
    }
    ReadRangeAscends(log, from, EndIndex(end));
  }

  // The id of the entry with the greatest index that remains, none when nothing remains.
  ghost predicate IsLastOf<D(!new)>(last: Option<LogId>, ops: seq<LogOp<D>>) {
    match last
    case None => forall e :: !Remains(ops, Unbounded, Unbounded, e)
    case Some(id) =>
      && (exists e :: Remains(ops, Unbounded, Unbounded, e) && e.logId == id)
      && forall e :: Remains(ops, Unbounded, Unbounded, e) ==> e.logId.index <= id.index
  }

  lemma LastOfHistory<D(!new)>(ops: seq<LogOp<D>>, log: Log<D>, last: Option<LogId>)
    requires log == LogAfter(ops) && SelfIndexed(log)
    requires last == None <==> log == map[]
    requires last.Some? ==>
               var i := last.value.index;
               i in log && log[i].logId == last.value && forall j | j in log :: j <= i
    ensures IsLastOf(last, ops)
  {
    forall e ensures Remains(ops, Unbounded, Unbounded, e) <==> Holds(log, e.logId.index, e) {
      LastTouchDecides(ops, e.logId.index, e);
    }
    if last.Some? {
      assert Remains(ops, Unbounded, Unbounded, log[last.value.index]);
    }
  }

  // A node that performs any history of appends, truncations and purges, and is then asked
  // for a range of its log and for its last id.
  method Drive<D(!new)>(ops: seq<LogOp<D>>, start: Bound, end: Bound)
    returns (storage: CombinedStorage<D>, read: seq<Entry<D>>, last: Option<LogId>)
    ensures storage.Valid() && storage.Log() == LogAfter(ops)
    ensures ReadsHistory(ops, Scanned(start), end, read)
    ensures IsLastOf(last, ops)
  {
    var engine := new InMemoryStorage<D>();
    storage := new CombinedStorage(engine);
    for i := 0 to |ops|
      invariant fresh(storage) && storage.Valid()
      invariant storage.Log() == LogAfter(ops[..i])
    {
      assert ops[..i + 1][..i] == ops[..i];
      PerformOne(storage, ops[i]);
    }
    assert ops[..|ops|] == ops;
    read := storage.TryGetLogEntries(start, end);
    RangeOfHistory(ops, storage.Log(), start, end);
    var purged;
    purged, last := storage.GetLogState();
    LastOfHistory(ops, storage.Log(), last);
  }
}
