// The replicated log as an indexed sequence, and the reads a range of it answers.

module RaftLog {
  import opened BigEndian
  import opened RaftTypes

  type Log<D> = map<nat, Entry<D>>

  datatype Bound = Included(index: U64) | Excluded(index: U64) | Unbounded

  // A range of bounds as the indices from lo up to, not including, hi.
  function LowEnd(start: Bound): nat {
    match start
    case Included(i) => i
    case Excluded(i) => i + 1
    case Unbounded => 0
  }

  // Where the code starts its scan: the addition is one of 64-bit numbers, and wraps around.
  function FirstIndex(start: Bound): U64 {
    match start
    case Included(i) => i
    case Excluded(i) => if i == MAX_U64 then 0 else i + 1
    case Unbounded => 0
  }

  // hi is one past the last index in range; without a bound, beyond every index.
  predicate Ends(end: Bound, hi: nat) {
    match end
    case Included(i) => hi == i + 1
    case Excluded(i) => hi == i
    case Unbounded => hi > MAX_U64
  }

  predicate Beyond(end: Bound, index: nat) {
    match end
    case Included(i) => index > i
    case Excluded(i) => index >= i
    case Unbounded => false
  }

  // The entries with an index in a range, in the order of their indices.
  function ReadRange<D>(log: Log<D>, lo: nat, hi: nat): seq<Entry<D>>
    decreases hi
  {
    if hi <= lo then []
    else ReadRange(log, lo, hi - 1) + if hi - 1 in log then [log[hi - 1]] else []
  }

  function Appended<D>(log: Log<D>, entries: seq<Entry<D>>): Log<D> {
    if entries == [] then log
    else
      var last := entries[|entries| - 1];
      Appended(log, entries[..|entries| - 1])[last.logId.index := last]
  }

  lemma AppendedOneMore<D>(log: Log<D>, entries: seq<Entry<D>>, i: nat)
    requires i < |entries|
    ensures Appended(log, entries[..i + 1]) == Appended(log, entries[..i])[entries[i].logId.index := entries[i]]
  {
    assert entries[..i + 1][..i] == entries[..i];
  }

  function Truncated<D>(log: Log<D>, index: nat): Log<D> {
    map i | i in log && i < index :: log[i]
  }

  function Purged<D>(log: Log<D>, index: nat): Log<D> {
    map i | i in log && i > index :: log[i]
  }

  lemma {:induction false} NothingInGap<D>(log: Log<D>, lo: nat, mid: nat, hi: nat)
    requires lo <= mid <= hi && forall i | mid <= i < hi :: i !in log
    ensures ReadRange(log, lo, hi) == ReadRange(log, lo, mid)
  {
    if mid < hi {
      NothingInGap(log, lo, mid, hi - 1);
    }
  }

  // Every entry sits at its own index.
  ghost predicate SelfIndexed<D>(log: Log<D>) {
    forall i | i in log :: log[i].logId.index == i
  }

  ghost predicate InRange<D>(log: Log<D>, lo: nat, hi: nat, e: Entry<D>) {
    lo <= e.logId.index < hi && e.logId.index in log && log[e.logId.index] == e
  }

  lemma {:induction false} ReadRangeFinds<D>(log: Log<D>, lo: nat, hi: nat, e: Entry<D>)
    requires SelfIndexed(log)
    ensures e in ReadRange(log, lo, hi) <==> InRange(log, lo, hi, e)
  {
    if lo < hi {
      ReadRangeFinds(log, lo, hi - 1, e);
    }
  }

  ghost predicate AscendingBelow<D>(entries: seq<Entry<D>>, hi: nat) {
    && (forall j | 0 <= j < |entries| :: entries[j].logId.index < hi)
    && forall j, k | 0 <= j < k < |entries| :: entries[j].logId.index < entries[k].logId.index
  }

  lemma {:induction false} ReadRangeAscends<D>(log: Log<D>, lo: nat, hi: nat)
    requires SelfIndexed(log)
    ensures AscendingBelow(ReadRange(log, lo, hi), hi)
  {
    if lo < hi {
      ReadRangeAscends(log, lo, hi - 1);
    }
  }

  // A range read gives exactly the entries whose index is in range, ascending.
  lemma ReadRangeExact<D>(log: Log<D>, lo: nat, hi: nat, e: Entry<D>)
    requires SelfIndexed(log)
    ensures var read := ReadRange(log, lo, hi);
            && (e in read <==> InRange(log, lo, hi, e))
            && AscendingBelow(read, hi)
  {
    ReadRangeFinds(log, lo, hi, e);
    ReadRangeAscends(log, lo, hi);
  }

  // The wrapped start matters only for the greatest index as an excluded bound, and then
  // only if some entry lies before the end of the range.
  lemma WrapHarmlessIff<D>(log: Log<D>, start: Bound, hi: nat)
    requires SelfIndexed(log) && forall i | i in log :: i <= MAX_U64
    ensures ReadRange(log, FirstIndex(start), hi) == ReadRange(log, LowEnd(start), hi) <==>
            (start == Excluded(MAX_U64) ==> forall i | i in log :: i >= hi)
  {
    if start == Excluded(MAX_U64) {
      if hi > LowEnd(start) {
        NothingInGap(log, LowEnd(start), LowEnd(start), hi);
      }
      if i :| i in log && i < hi {
        ReadRangeFinds(log, 0, hi, log[i]);
      } else {
        NothingInGap(log, 0, 0, hi);
      }
    }
  }

  // ----- A scan of the log -----

  // Entries and their indices, ascending, of which none from `from` on is missing.
  ghost predicate IsScan<D>(log: Log<D>, from: nat, indices: seq<nat>, entries: seq<Entry<D>>) {
    && |indices| == |entries|
    && (forall j | 0 <= j < |indices| :: from <= indices[j] && indices[j] in log && log[indices[j]] == entries[j])
    && (forall i, j | 0 <= i < j < |indices| :: indices[i] < indices[j])
    && forall n | from <= n && n in log :: n in indices
  }

  // Where a scan stands after i entries.
  function Reached(from: nat, indices: seq<nat>, i: nat): nat
    requires i <= |indices|
  {
    if i == 0 then from else indices[i - 1] + 1
  }

  lemma NothingSkipped<D>(log: Log<D>, from: nat, indices: seq<nat>, entries: seq<Entry<D>>, i: nat, n: nat)
    requires IsScan(log, from, indices, entries) && i <= |indices|
    requires Reached(from, indices, i) <= n && (i < |indices| ==> n < indices[i])
    ensures n !in log
  {
    if n in log {
      var j :| 0 <= j < |indices| && indices[j] == n;
    }
  }

  lemma {:induction false} ScanSoFar<D>(log: Log<D>, from: nat, indices: seq<nat>, entries: seq<Entry<D>>, i: nat)
    requires IsScan(log, from, indices, entries) && i <= |indices|
    ensures from <= Reached(from, indices, i)
    ensures entries[..i] == ReadRange(log, from, Reached(from, indices, i))
    decreases i
  {
    if i > 0 {
      var before, index := Reached(from, indices, i - 1), indices[i - 1];
      ScanSoFar(log, from, indices, entries, i - 1);
      forall n | before <= n < index ensures n !in log {
        NothingSkipped(log, from, indices, entries, i - 1, n);
      }
      NothingInGap(log, from, before, index);
      assert entries[..i] == entries[..i - 1] + [entries[i - 1]];
    }
  }

  // Stopping at the first index out of range misses nothing.
  lemma StoppedScan<D>(log: Log<D>, from: nat, indices: seq<nat>, entries: seq<Entry<D>>, i: nat, hi: nat)
    requires IsScan(log, from, indices, entries) && i <= |indices|
    requires i > 0 ==> indices[i - 1] < hi
    requires i < |indices| ==> indices[i] >= hi
    ensures entries[..i] == ReadRange(log, from, hi)
  {
    var seen := Reached(from, indices, i);
    ScanSoFar(log, from, indices, entries, i);
    if seen <= hi {
      forall n | seen <= n < hi ensures n !in log {
        NothingSkipped(log, from, indices, entries, i, n);
      }
      NothingInGap(log, from, seen, hi);
    }
  }

  lemma StoppedAtEnd<D>(log: Log<D>, from: nat, indices: seq<nat>, entries: seq<Entry<D>>, i: nat, end: Bound)
    requires IsScan(log, from, indices, entries) && i <= |indices|
    requires forall j | 0 <= j < |indices| :: indices[j] <= MAX_U64
    requires forall j | 0 <= j < i :: !Beyond(end, indices[j])
    requires i < |indices| ==> Beyond(end, indices[i])
    ensures forall hi | Ends(end, hi) :: entries[..i] == ReadRange(log, from, hi)
  {
    forall hi | Ends(end, hi) ensures entries[..i] == ReadRange(log, from, hi) {
      assert i > 0 ==> indices[i - 1] <= MAX_U64 && !Beyond(end, indices[i - 1]);
      StoppedScan(log, from, indices, entries, i, hi);
    }
  }

  // ----- A log without holes -----

  // The log holds exactly these entries, from index `first` on.
  datatype Window<D> = Window(first: nat, entries: seq<Entry<D>>)

  ghost predicate Represents<D>(log: Log<D>, w: Window<D>) {
    && (forall i :: i in log <==> w.first <= i < w.first + |w.entries|)
    && forall i | i in log :: log[i] == w.entries[i - w.first] && log[i].logId.index == i
  }

  datatype LogOp<D> = Append(entries: seq<Entry<D>>) | DeleteSince(index: U64) | PurgeUpTo(index: U64)

  // What the consensus layer asks for: entries that continue the log right after its last
  // one, deletions from an index of the log on, purges that never step back.
  ghost predicate Fits<D>(w: Window<D>, op: LogOp<D>) {
    match op
    case Append(more) => forall k | 0 <= k < |more| :: more[k].logId.index == w.first + |w.entries| + k
    case DeleteSince(index) => w.first <= index <= w.first + |w.entries|
    case PurgeUpTo(index) => w.first <= index + 1
  }

  function Slide<D>(w: Window<D>, op: LogOp<D>): Window<D> {
    match op
    case Append(more) => Window(w.first, w.entries + more)
    case DeleteSince(index) =>
      Window(w.first, if w.first <= index <= w.first + |w.entries| then w.entries[..index - w.first] else [])
    case PurgeUpTo(index) =>
      Window(index + 1, if w.first <= index + 1 <= w.first + |w.entries| then w.entries[index + 1 - w.first..] else [])
  }

  function Perform<D>(log: Log<D>, op: LogOp<D>): Log<D> {
    match op
    case Append(more) => Appended(log, more)
    case DeleteSince(index) => Truncated(log, index)
    case PurgeUpTo(index) => Purged(log, index)
  }

  function LogAfter<D>(ops: seq<LogOp<D>>): Log<D> {
    if ops == [] then map[] else Perform(LogAfter(ops[..|ops| - 1]), ops[|ops| - 1])
  }

  // Where the same history leaves a plain sequence whose first index is `first`.
  function WindowAfter<D>(first: nat, ops: seq<LogOp<D>>): Window<D> {
    if ops == [] then Window(first, []) else Slide(WindowAfter(first, ops[..|ops| - 1]), ops[|ops| - 1])
  }

  ghost predicate FitsAll<D>(first: nat, ops: seq<LogOp<D>>) {
    forall i | 0 <= i < |ops| :: Fits(WindowAfter(first, ops[..i]), ops[i])
  }

  lemma {:induction false} AppendRepresents<D>(log: Log<D>, w: Window<D>, more: seq<Entry<D>>)
    requires Represents(log, w) && Fits(w, Append(more))
    ensures Represents(Appended(log, more), Window(w.first, w.entries + more))
  {
    if more == [] {
      assert w.entries + more == w.entries;
    } else {
      var n := |more| - 1;
      AppendRepresents(log, w, more[..n]);
      assert w.entries + more == w.entries + more[..n] + [more[n]];
    }
  }

  lemma DeleteRepresents<D>(log: Log<D>, w: Window<D>, index: U64)
    requires Represents(log, w) && Fits(w, DeleteSince(index))
    ensures Represents(Truncated(log, index), Window(w.first, w.entries[..index - w.first]))
  {
  }

  lemma PurgeRepresents<D>(log: Log<D>, w: Window<D>, index: U64)
    requires Represents(log, w) && Fits(w, PurgeUpTo(index))
    ensures Represents(Purged(log, index), Slide(w, PurgeUpTo(index)))
  {
  }

  lemma PerformRepresents<D>(log: Log<D>, w: Window<D>, op: LogOp<D>)
    requires Represents(log, w) && Fits(w, op)
    ensures Represents(Perform(log, op), Slide(w, op))
  {
    match op {
      case Append(more) => AppendRepresents(log, w, more);
      case DeleteSince(index) => DeleteRepresents(log, w, index);
      case PurgeUpTo(index) => PurgeRepresents(log, w, index);
    }
  }

  // Any history of appends, truncations and purges that fit leaves the log the sequence it
  // leaves.
  lemma {:induction false} HistoryIsSequence<D>(first: nat, ops: seq<LogOp<D>>)
    requires FitsAll(first, ops)
    ensures Represents(LogAfter(ops), WindowAfter(first, ops))
  {
    if ops != [] {
      var n := |ops| - 1;
      assert forall i | 0 <= i < n :: ops[..n][..i] == ops[..i];
      HistoryIsSequence(first, ops[..n]);
      assert Fits(WindowAfter(first, ops[..n]), ops[n]);
      PerformRepresents(LogAfter(ops[..n]), WindowAfter(first, ops[..n]), ops[n]);
    }
  }

  // ----- Histories that need not fit -----

  // The last entry of an append with this index.
  ghost predicate LastAt<D>(entries: seq<Entry<D>>, k: nat, index: nat) {
    && k < |entries| && entries[k].logId.index == index
    && forall j | k < j < |entries| :: entries[j].logId.index != index
  }

  ghost predicate Writes<D>(op: LogOp<D>, index: nat, e: Entry<D>) {
    op.Append? && exists k: nat :: LastAt(op.entries, k, index) && op.entries[k] == e
  }

  ghost predicate Touches<D>(op: LogOp<D>, index: nat) {
    match op
    case Append(entries) => exists k | 0 <= k < |entries| :: entries[k].logId.index == index
    case DeleteSince(from) => from <= index
    case PurgeUpTo(upTo) => index <= upTo
  }

  ghost predicate Holds<D>(log: Log<D>, index: nat, e: Entry<D>) {
    index in log && log[index] == e
  }

  lemma LastAtBefore<D>(entries: seq<Entry<D>>, index: nat, e: Entry<D>)
    requires entries != [] && entries[|entries| - 1].logId.index != index
    ensures var before := entries[..|entries| - 1];
            && (Writes(Append(entries), index, e) <==> Writes(Append(before), index, e))
            && (Touches(Append(entries), index) <==> Touches(Append(before), index))
  {
    var n := |entries| - 1;
    var before := entries[..n];
    forall k: nat ensures LastAt(entries, k, index) <==> LastAt(before, k, index) {
      assert forall j | 0 <= j < n :: before[j] == entries[j];
      assert LastAt(before, k, index) && k < n ==> LastAt(entries, k, index);
    }
    assert forall k | 0 <= k < n :: before[k] == entries[k];
    if Writes(Append(before), index, e) {
      var k: nat :| LastAt(before, k, index) && before[k] == e;
      assert LastAt(entries, k, index) && entries[k] == e;
    }
  }

  lemma {:induction false} AppendHolds<D>(log: Log<D>, entries: seq<Entry<D>>, index: nat, e: Entry<D>)
    ensures Holds(Appended(log, entries), index, e) <==>
            Writes(Append(entries), index, e) || (!Touches(Append(entries), index) && Holds(log, index, e))
    decreases |entries|
  {
    if entries != [] {
      var n := |entries| - 1;
      if entries[n].logId.index == index {
        assert LastAt(entries, n, index);
      } else {
        LastAtBefore(entries, index, e);
        AppendHolds(log, entries[..n], index, e);
      }
    }
  }

  lemma PerformHolds<D>(log: Log<D>, op: LogOp<D>, index: nat, e: Entry<D>)
    ensures Holds(Perform(log, op), index, e) <==>
            Writes(op, index, e) || (!Touches(op, index) && Holds(log, index, e))
  {
    if op.Append? {
      AppendHolds(log, op.entries, index, e);
    }
  }

  // The p-th operation wrote the entry, and none after it touched its index.
  ghost predicate LastTouch<D>(ops: seq<LogOp<D>>, p: nat, index: nat, e: Entry<D>) {
    p < |ops| && Writes(ops[p], index, e) && forall q | p < q < |ops| :: !Touches(ops[q], index)
  }

  // After any history at all, gaps, overlaps and repetitions included, the log holds an
  // entry if and only if the last operation that touched its index wrote it.
  lemma {:induction false} LastTouchDecides<D>(ops: seq<LogOp<D>>, index: nat, e: Entry<D>)
    ensures Holds(LogAfter(ops), index, e) <==> exists p :: LastTouch(ops, p, index, e)
    decreases |ops|
  {
    if ops != [] {
      var n := |ops| - 1;
      var before := ops[..n];
      LastTouchDecides(before, index, e);
      PerformHolds(LogAfter(before), ops[n], index, e);
      if Writes(ops[n], index, e) {
        assert LastTouch(ops, n, index, e);
      }
      forall p: nat | p < n
        ensures LastTouch(ops, p, index, e) <==> LastTouch(before, p, index, e) && !Touches(ops[n], index)
      {
        assert forall q | p < q < n :: before[q] == ops[q];
      }
    }
  }

  lemma SliceOneMore<T>(s: seq<T>, a: nat, b: nat)
    requires a <= b < |s|
    ensures s[a..b + 1] == s[a..b] + [s[b]]
  {
  }

  // Reading a range of a log without holes gives a slice of the sequence.
  lemma {:induction false} ReadIsSlice<D>(log: Log<D>, w: Window<D>, lo: nat, hi: nat)
    requires Represents(log, w) && w.first <= lo <= hi <= w.first + |w.entries|
    ensures ReadRange(log, lo, hi) == w.entries[lo - w.first..hi - w.first]
    decreases hi
  {
    if lo < hi {
      ReadIsSlice(log, w, lo, hi - 1);
      SliceOneMore(w.entries, lo - w.first, hi - 1 - w.first);
    }
  }
}
