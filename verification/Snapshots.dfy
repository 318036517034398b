// Snapshots of a replica: what installing one and applying the rest of the log gives.

module Snapshots {
  import opened Wrappers
  import opened QueueState
  import opened WellFormedness
  import opened MemoryStorage
  import opened RaftTypes

  // How a snapshot is written and read: the assumption on the serializer.
  datatype SnapshotFormat<!D> = SnapshotFormat(
    write: State<D> -> string,
    read: string -> Result<State<D>, string>)

  ghost predicate ReadsBack<D>(format: SnapshotFormat<D>, s: State<D>) {
    format.read(format.write(s)) == Success(s)
  }

  datatype SnapshotMeta = SnapshotMeta(lastLogId: Option<LogId>, snapshotId: nat)

  datatype Snapshot = Snapshot(meta: SnapshotMeta, data: string)

  // Data under a last applied id.
  function Labelled(data: string, lastApplied: Option<LogId>): Snapshot {
    Snapshot(SnapshotMeta(lastApplied, if lastApplied.Some? then lastApplied.value.index else 0), data)
  }

  function SnapshotOf<D>(r: Replica<D>, format: SnapshotFormat<D>): Snapshot {
    Labelled(format.write(r.state), r.lastApplied)
  }

  // A new node that has applied these entries.
  function ReplicaAfter<D>(entries: seq<Entry<D>>, supply: Supply): Replica<D> {
    ApplyEntries(Replica(Empty(), None), entries, supply).replica
  }

  // A snapshot that cannot be read leaves the node as it is.
  function Installed<D>(r: Replica<D>, snapshot: Snapshot, format: SnapshotFormat<D>): Replica<D> {
    match format.read(snapshot.data)
    case Success(state) => Replica(state, snapshot.meta.lastLogId)
    case Failure(_) => r
  }

  lemma {:induction false} ApplyConcat<D>(r: Replica<D>, a: seq<Entry<D>>, b: seq<Entry<D>>, supply: Supply)
    ensures var first := ApplyEntries(r, a, supply);
            var second := ApplyEntries(first.replica, b, supply);
            ApplyEntries(r, a + b, supply) == Applied(second.replica, first.responses + second.responses)
  {
    var first := ApplyEntries(r, a, supply);
    if b == [] {
      assert a + b == a;
      assert first.responses + [] == first.responses;
    } else {
      var n := |b| - 1;
      assert (a + b)[..|a + b| - 1] == a + b[..n];
      ApplyConcat(r, a, b[..n], supply);
      var before := ApplyEntries(first.replica, b[..n], supply);
      var last := ApplyOne(before.replica, b[n], supply);
      assert first.responses + before.responses + last.responses
          == first.responses + (before.responses + last.responses);
    }
  }

  // Installing, on any node, a snapshot taken after k entries and applying the rest gives
  // the state, the last applied id and the answers of applying everything from empty.
  lemma SnapshotPlusSuffix<D>(
    entries: seq<Entry<D>>, k: nat, supply: Supply, receiver: Replica<D>, format: SnapshotFormat<D>)
    requires k <= |entries|
    requires ReadsBack(format, ReplicaAfter(entries[..k], supply).state)
    ensures var sender := ApplyEntries(Replica(Empty(), None), entries[..k], supply);
            var restored := Installed(receiver, SnapshotOf(sender.replica, format), format);
            var suffix := ApplyEntries(restored, entries[k..], supply);
            Applied(suffix.replica, sender.responses + suffix.responses)
              == ApplyEntries(Replica(Empty(), None), entries, supply)
  {
    ApplyConcat(Replica(Empty(), None), entries[..k], entries[k..], supply);
    assert entries[..k] + entries[k..] == entries;
  }

  // A node offered a snapshot it cannot read, anywhere between its entries, ends up as one
  // that was offered none: state, last applied id and answers.
  lemma UnreadableSnapshotIgnored<D>(
    r: Replica<D>, a: seq<Entry<D>>, b: seq<Entry<D>>, supply: Supply, snapshot: Snapshot, format: SnapshotFormat<D>)
    requires format.read(snapshot.data).Failure?
    ensures var first := ApplyEntries(r, a, supply);
            var second := ApplyEntries(Installed(first.replica, snapshot, format), b, supply);
            Applied(second.replica, first.responses + second.responses) == ApplyEntries(r, a + b, supply)
  {
    ApplyConcat(r, a, b, supply);
  }

  // ----- A snapshot whose two reads are apart -----

  // Whatever follows, a node that installs the snapshot ends up as one that applied all.
  ghost predicate SnapshotServes<D(!new)>(snapshot: Snapshot, entries: seq<Entry<D>>, supply: Supply,
                                          receiver: Replica<D>, format: SnapshotFormat<D>)
  {
    forall suffix ::
      ApplyEntries(Installed(receiver, snapshot, format), suffix, supply).replica
      == ReplicaAfter(entries + suffix, supply)
  }

  // Whatever state was read, under the id that names these entries it serves if and only if
  // it is the state after these entries.
  lemma TornSnapshotServesIff<D(!new)>(read: State<D>, entries: seq<Entry<D>>, supply: Supply,
                                       receiver: Replica<D>, format: SnapshotFormat<D>)
    requires ReadsBack(format, read)
    ensures var named := ReplicaAfter(entries, supply);
            SnapshotServes(Labelled(format.write(read), named.lastApplied), entries, supply, receiver, format)
            <==> read == named.state
  {
    var named := ReplicaAfter(entries, supply);
    var torn := Labelled(format.write(read), named.lastApplied);
    forall suffix
      ensures ReplicaAfter(entries + suffix, supply) == ApplyEntries(named, suffix, supply).replica
    {
      ApplyConcat(Replica(Empty(), None), entries, suffix, supply);
    }
    assert entries + [] == entries;
    if SnapshotServes(torn, entries, supply, receiver, format) {
      assert ApplyEntries(Installed(receiver, torn, format), [], supply).replica == named;
    }
  }

  // ----- Chunks of entries -----

  function Flatten<D>(chunks: seq<seq<Entry<D>>>): seq<Entry<D>> {
    if chunks == [] then [] else Flatten(chunks[..|chunks| - 1]) + chunks[|chunks| - 1]
  }

  function ApplyChunks<D>(r: Replica<D>, chunks: seq<seq<Entry<D>>>, supply: Supply): Applied<D> {
    if chunks == [] then Applied(r, [])
    else
      var before := ApplyChunks(r, chunks[..|chunks| - 1], supply);
      var last := ApplyEntries(before.replica, chunks[|chunks| - 1], supply);
      Applied(last.replica, before.responses + last.responses)
  }

  // However the entries are cut into calls, the state and the answers are the same.
  lemma {:induction false} ChunksDoNotMatter<D>(r: Replica<D>, chunks: seq<seq<Entry<D>>>, supply: Supply)
    ensures ApplyChunks(r, chunks, supply) == ApplyEntries(r, Flatten(chunks), supply)
  {
    if chunks != [] {
      var before, last := chunks[..|chunks| - 1], chunks[|chunks| - 1];
      ChunksDoNotMatter(r, before, supply);
      ApplyConcat(r, Flatten(before), last, supply);
    }
  }

  // ----- References on replicas -----

  lemma {:induction false} ReplicaWellFormed<D>(r: Replica<D>, entries: seq<Entry<D>>, supply: Supply)
    requires WellFormed(r.state)
    ensures WellFormed(ApplyEntries(r, entries, supply).replica.state)
  {
    if entries != [] {
      var last := entries[|entries| - 1];
      ReplicaWellFormed(r, entries[..|entries| - 1], supply);
      if last.payload.Normal? {
        ExecuteWellFormed(ApplyEntries(r, entries[..|entries| - 1], supply).replica.state,
                          CallOf(last.payload.request, supply(last.logId.index)), true);
      }
    }
  }

  // No reference dangles on a node that applies entries, or on any node that installs its
  // snapshot and goes on; starting from empty nodes, however often this happens.
  lemma NothingDanglesOnReplicas<D>(
    sender: Replica<D>, entries: seq<Entry<D>>, suffix: seq<Entry<D>>, supply: Supply,
    receiver: Replica<D>, format: SnapshotFormat<D>)
    requires WellFormed(sender.state)
    requires ReadsBack(format, ApplyEntries(sender, entries, supply).replica.state)
    ensures var taken := ApplyEntries(sender, entries, supply).replica;
            var restored := Installed(receiver, SnapshotOf(taken, format), format);
            var after := ApplyEntries(restored, suffix, supply).replica;
            && NothingDangles(taken.state) && NothingDangles(restored.state) && NothingDangles(after.state)
            && WellFormed(after.state)
    ensures WellFormed(Empty<D>())
  {
    var taken := ApplyEntries(sender, entries, supply).replica;
    var restored := Installed(receiver, SnapshotOf(taken, format), format);
    ReplicaWellFormed(sender, entries, supply);
    ReplicaWellFormed(restored, suffix, supply);
    WellFormedDangles(taken.state);
    WellFormedDangles(ApplyEntries(restored, suffix, supply).replica.state);
  }
}
