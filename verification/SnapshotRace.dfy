// A snapshot built while entries are being applied.
//
// Applying an entry changes the engine and records the entry's id in a later step; building
// a snapshot reads the engine and reads the recorded id in a later step. The four steps
// interleave in any way.

module SnapshotRace {
  import opened Wrappers
  import opened QueueState
  import opened StorageCalls
  import opened RaftTypes
  import opened Snapshots

  datatype Step = Change | Record | ReadState | ReadId

  // `changed` entries have taken effect, `recorded` of them are in the last applied id.
  datatype Race<D> = Race(
    node: Replica<D>,
    changed: nat,
    recorded: nat,
    data: Option<string>,
    snapshot: Option<Snapshot>)

  // A step that is not enabled does nothing.
  function Next<D>(r: Race<D>, step: Step, entries: seq<Entry<D>>, supply: Supply, format: SnapshotFormat<D>): Race<D> {
    match step
    case Change =>
      if r.changed == r.recorded && r.changed < |entries| then
        r.(node := Replica(ApplyOne(r.node, entries[r.changed], supply).replica.state, r.node.lastApplied),
           changed := r.changed + 1)
      else r
    case Record =>
      if r.recorded < r.changed && r.recorded < |entries| then
        r.(node := Replica(r.node.state, Some(entries[r.recorded].logId)), recorded := r.recorded + 1)
      else r
    case ReadState => if r.data == None then r.(data := Some(format.write(r.node.state))) else r
    case ReadId =>
      if r.data.Some? && r.snapshot == None then
        r.(snapshot := Some(Labelled(r.data.value, r.node.lastApplied)))
      else r
  }

  function Play<D>(steps: seq<Step>, entries: seq<Entry<D>>, supply: Supply, format: SnapshotFormat<D>): Race<D> {
    if steps == [] then Race(Replica(Empty(), None), 0, 0, None, None)
    else Next(Play(steps[..|steps| - 1], entries, supply, format), steps[|steps| - 1], entries, supply, format)
  }

  // The state after the first i entries under the id of the j-th.
  function TornAt<D>(i: nat, j: nat, entries: seq<Entry<D>>, supply: Supply, format: SnapshotFormat<D>): Snapshot
    requires i <= |entries| && j <= |entries|
  {
    Labelled(format.write(ReplicaAfter(entries[..i], supply).state), ReplicaAfter(entries[..j], supply).lastApplied)
  }

  ghost predicate ReadAt<D>(data: string, i: nat, entries: seq<Entry<D>>, supply: Supply, format: SnapshotFormat<D>) {
    i <= |entries| && data == format.write(ReplicaAfter(entries[..i], supply).state)
  }

  ghost predicate IsTorn<D>(snapshot: Snapshot, i: nat, j: nat,
                            entries: seq<Entry<D>>, supply: Supply, format: SnapshotFormat<D>)
  {
    i <= |entries| && j <= |entries| && i <= j + 1 && snapshot == TornAt(i, j, entries, supply, format)
  }

  ghost predicate InStep<D>(r: Race<D>, entries: seq<Entry<D>>, supply: Supply) {
    && r.recorded <= r.changed <= r.recorded + 1 && r.changed <= |entries|
    && r.node.state == ReplicaAfter(entries[..r.changed], supply).state
    && r.node.lastApplied == ReplicaAfter(entries[..r.recorded], supply).lastApplied
  }

  ghost predicate Invariant<D>(r: Race<D>, entries: seq<Entry<D>>, supply: Supply, format: SnapshotFormat<D>) {
    && InStep(r, entries, supply)
    && (r.data.Some? ==> exists i: nat :: i <= r.recorded + 1 && ReadAt(r.data.value, i, entries, supply, format))
    && (r.snapshot.Some? ==> exists i: nat, j: nat :: IsTorn(r.snapshot.value, i, j, entries, supply, format))
  }

  lemma OneMoreApplied<D>(entries: seq<Entry<D>>, k: nat, supply: Supply)
    requires k < |entries|
    ensures var after := ReplicaAfter(entries[..k + 1], supply);
            && after == ApplyOne(ReplicaAfter(entries[..k], supply), entries[k], supply).replica
            && after.lastApplied == Some(entries[k].logId)
  {
    assert entries[..k + 1][..k] == entries[..k];
  }

  // What an entry makes of the engine does not depend on the recorded id.
  lemma ChangeIgnoresId<D>(r: Replica<D>, r': Replica<D>, e: Entry<D>, supply: Supply)
    requires r.state == r'.state
    ensures ApplyOne(r, e, supply).replica.state == ApplyOne(r', e, supply).replica.state
  {
  }

  lemma ApplyingKeeps<D>(
    r: Race<D>, step: Step, entries: seq<Entry<D>>, supply: Supply, format: SnapshotFormat<D>)
    requires InStep(r, entries, supply)
    ensures InStep(Next(r, step, entries, supply, format), entries, supply)
  {
    if step.Change? && r.changed < |entries| {
      OneMoreApplied(entries, r.changed, supply);
      ChangeIgnoresId(r.node, ReplicaAfter(entries[..r.changed], supply), entries[r.changed], supply);
    } else if step.Record? && r.recorded < |entries| {
      OneMoreApplied(entries, r.recorded, supply);
    }
  }

  lemma StepKeeps<D>(r: Race<D>, step: Step, entries: seq<Entry<D>>, supply: Supply, format: SnapshotFormat<D>)
    requires Invariant(r, entries, supply, format)
    ensures Invariant(Next(r, step, entries, supply, format), entries, supply, format)
  {
    ApplyingKeeps(r, step, entries, supply, format);
    var r' := Next(r, step, entries, supply, format);
    if r.data.Some? {
      var i: nat :| i <= r.recorded + 1 && ReadAt(r.data.value, i, entries, supply, format);
      assert i <= r'.recorded + 1 && ReadAt(r'.data.value, i, entries, supply, format);
      if r'.snapshot != r.snapshot {
        assert IsTorn(r'.snapshot.value, i, r.recorded, entries, supply, format);
      }
    } else if r'.data.Some? {
      assert ReadAt(r'.data.value, r.changed, entries, supply, format);
    }
  }

  // However the steps interleave, the state read is that after some i entries and the id
  // that of some j entries, and the state is at most one entry ahead.
  lemma {:induction false} RaceGivesTorn<D>(
    steps: seq<Step>, entries: seq<Entry<D>>, supply: Supply, format: SnapshotFormat<D>)
    ensures Invariant(Play(steps, entries, supply, format), entries, supply, format)
  {
    if steps != [] {
      RaceGivesTorn(steps[..|steps| - 1], entries, supply, format);
      StepKeeps(Play(steps[..|steps| - 1], entries, supply, format), steps[|steps| - 1], entries, supply, format);
    } else {
      assert entries[..0] == [];
    }
  }

  // The snapshot of a race serves for the j entries its id names if and only if the state
  // that was read is the one after these j.
  lemma RaceServesIff<D(!new)>(steps: seq<Step>, entries: seq<Entry<D>>, supply: Supply,
                               receiver: Replica<D>, format: SnapshotFormat<D>) returns (i: nat, j: nat)
    requires Play(steps, entries, supply, format).snapshot.Some?
    requires forall k | 0 <= k <= |entries| :: ReadsBack(format, ReplicaAfter(entries[..k], supply).state)
    ensures var snapshot := Play(steps, entries, supply, format).snapshot.value;
            && IsTorn(snapshot, i, j, entries, supply, format)
            && (SnapshotServes(snapshot, entries[..j], supply, receiver, format)
                <==> ReplicaAfter(entries[..i], supply).state == ReplicaAfter(entries[..j], supply).state)
  {
    RaceGivesTorn(steps, entries, supply, format);
    i, j :| IsTorn(Play(steps, entries, supply, format).snapshot.value, i, j, entries, supply, format);
    TornSnapshotServesIff(ReplicaAfter(entries[..i], supply).state, entries[..j], supply, receiver, format);
  }

  // ----- Every such pair arises -----

  function Applying(k: nat): seq<Step> {
    if k == 0 then [] else Applying(k - 1) + [Change, Record]
  }

  lemma PlayOneMore<D>(steps: seq<Step>, step: Step, entries: seq<Entry<D>>, supply: Supply, format: SnapshotFormat<D>)
    ensures Play(steps + [step], entries, supply, format)
         == Next(Play(steps, entries, supply, format), step, entries, supply, format)
  {
    assert (steps + [step])[..|steps|] == steps;
  }

  // Where a race stands.
  ghost predicate Stands<D>(r: Race<D>, changed: nat, recorded: nat, data: Option<string>) {
    r.changed == changed && r.recorded == recorded && r.data == data && r.snapshot == None
  }

  lemma ChangePlays<D>(steps: seq<Step>, k: nat, data: Option<string>,
                       entries: seq<Entry<D>>, supply: Supply, format: SnapshotFormat<D>)
    requires k < |entries| && Stands(Play(steps, entries, supply, format), k, k, data)
    ensures Stands(Play(steps + [Change], entries, supply, format), k + 1, k, data)
  {
    PlayOneMore(steps, Change, entries, supply, format);
  }

  lemma RecordPlays<D>(steps: seq<Step>, k: nat, data: Option<string>,
                       entries: seq<Entry<D>>, supply: Supply, format: SnapshotFormat<D>)
    requires k < |entries| && Stands(Play(steps, entries, supply, format), k + 1, k, data)
    ensures Stands(Play(steps + [Record], entries, supply, format), k + 1, k + 1, data)
  {
    PlayOneMore(steps, Record, entries, supply, format);
  }

  lemma OneEntryPlays<D>(steps: seq<Step>, k: nat, data: Option<string>,
                         entries: seq<Entry<D>>, supply: Supply, format: SnapshotFormat<D>)
    requires k < |entries| && Stands(Play(steps, entries, supply, format), k, k, data)
    ensures Stands(Play(steps + [Change] + [Record], entries, supply, format), k + 1, k + 1, data)
  {
    ChangePlays(steps, k, data, entries, supply, format);
    RecordPlays(steps + [Change], k, data, entries, supply, format);
  }

  // From the k-th entry to the m-th, with nothing read.
  lemma {:induction false} ApplyingPlays<D>(steps: seq<Step>, k: nat, m: nat, data: Option<string>,
                                            entries: seq<Entry<D>>, supply: Supply, format: SnapshotFormat<D>)
    requires k <= m <= |entries| && Stands(Play(steps, entries, supply, format), k, k, data)
    ensures Stands(Play(steps + Applying(m - k), entries, supply, format), m, m, data)
    decreases m
  {
    if k == m {
      assert steps + Applying(0) == steps;
    } else {
      var before := steps + Applying(m - 1 - k);
      ApplyingPlays(steps, k, m - 1, data, entries, supply, format);
      OneEntryPlays(before, m - 1, data, entries, supply, format);
      assert steps + Applying(m - k) == before + [Change] + [Record];
    }
  }

  lemma ReadStatePlays<D>(steps: seq<Step>, k: nat, m: nat,
                          entries: seq<Entry<D>>, supply: Supply, format: SnapshotFormat<D>)
    requires k <= |entries| && Stands(Play(steps, entries, supply, format), k, m, None)
    ensures Stands(Play(steps + [ReadState], entries, supply, format), k, m,
                   Some(format.write(ReplicaAfter(entries[..k], supply).state)))
  {
    PlayOneMore(steps, ReadState, entries, supply, format);
    RaceGivesTorn(steps, entries, supply, format);
  }

  lemma ReadIdPlays<D>(steps: seq<Step>, k: nat, m: nat, data: string,
                       entries: seq<Entry<D>>, supply: Supply, format: SnapshotFormat<D>)
    requires m <= |entries| && Stands(Play(steps, entries, supply, format), k, m, Some(data))
    ensures Play(steps + [ReadId], entries, supply, format).snapshot
         == Some(Labelled(data, ReplicaAfter(entries[..m], supply).lastApplied))
  {
    PlayOneMore(steps, ReadId, entries, supply, format);
    RaceGivesTorn(steps, entries, supply, format);
  }

  // And every such pair arises.
  lemma PairArises<D>(i: nat, j: nat, entries: seq<Entry<D>>, supply: Supply, format: SnapshotFormat<D>)
    returns (steps: seq<Step>)
    requires i <= |entries| && j <= |entries| && i <= j + 1
    ensures Play(steps, entries, supply, format).snapshot == Some(TornAt(i, j, entries, supply, format))
  {
    var data := format.write(ReplicaAfter(entries[..i], supply).state);
    ApplyingPlays([], 0, Min(i, j), None, entries, supply, format);
    steps := [] + Applying(Min(i, j));
    if i <= j {
      ReadStatePlays(steps, i, i, entries, supply, format);
      steps := steps + [ReadState];
      ApplyingPlays(steps, i, j, Some(data), entries, supply, format);
      steps := steps + Applying(j - i);
    } else {
      ChangePlays(steps, j, None, entries, supply, format);
      steps := steps + [Change];
      ReadStatePlays(steps, i, j, entries, supply, format);
      steps := steps + [ReadState];
    }
    ReadIdPlays(steps, if i <= j then j else i, j, data, entries, supply, format);
    steps := steps + [ReadId];
  }
}
