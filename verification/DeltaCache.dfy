/** The delta cache actor: versions of deltas per partition, pumped in by the binlog reader and
    replaced by merged versions. What a version holds is the multiset of deltas merged into it:
    merging is associative and commutative, so that is all a merged delta depends on. */
module DeltaCaches {
  import opened Collections

  type Delta(==, !new)
  type TableName(==, !new)
  type Bitmap(==, !new)

  datatype Partition = Partition(table: TableName, number: nat)

  datatype Version = Version(content: multiset<Delta>, time: int)

  type Versions = map<Partition, seq<Version>>

  /** One pump: at most one delta per partition. */
  type Batch = map<Partition, Delta>

  // ---------------------------------------------------------------------------
  // The cache

  function At(versions: Versions, p: Partition): seq<Version> {
    if p in versions then versions[p] else []
  }

  /** The merge of some versions. */
  function Merge(versions: seq<Version>): multiset<Delta> {
    if versions == [] then multiset{} else Merge(versions[..|versions| - 1]) + versions[|versions| - 1].content
  }

  lemma MergeOneMore(versions: seq<Version>, v: Version)
    ensures Merge(versions + [v]) == Merge(versions) + v.content
  {
  }

  /** `store` into the multimap. */
  function Added(versions: Versions, p: Partition, v: Version): Versions {
    versions[p := At(versions, p) + [v]]
  }

  /** The deltas of a batch for one partition. */
  ghost function DeltasFor(batch: Batch, p: Partition): multiset<Delta> {
    if p in batch then multiset{batch[p]} else multiset{}
  }

  /** What the cache holds of each partition after a batch: one version more, or the same. */
  ghost predicate Pumped(versions: Versions, versions': Versions, batch: Batch, time: int) {
    forall p :: At(versions', p) == At(versions, p) + if p in batch then [Version(multiset{batch[p]}, time)] else []
  }

  lemma PumpAdds(versions: Versions, versions': Versions, batch: Batch, time: int, p: Partition)
    requires Pumped(versions, versions', batch, time)
    ensures Merge(At(versions', p)) == Merge(At(versions, p)) + DeltasFor(batch, p)
  {
    if p in batch {
      MergeOneMore(At(versions, p), Version(multiset{batch[p]}, time));
    } else {
      assert At(versions', p) == At(versions, p);
    }
  }

  ghost predicate PumpedBut(versions: Versions, versions': Versions, batch: Batch, rest: set<Partition>, time: int) {
    && rest <= batch.Keys
    && forall p :: At(versions', p) == At(versions, p) + if p in batch && p !in rest then [Version(multiset{batch[p]}, time)] else []
  }

  /** The loop of `deltaPump`. */
  method StoreBatch(versions: Versions, batch: Batch, time: int) returns (versions': Versions)
    ensures Pumped(versions, versions', batch, time)
  {
    versions' := versions;
    var rest := batch.Keys;
    while rest != {}
      invariant PumpedBut(versions, versions', batch, rest, time)
      decreases |rest|
    {
      var p :| p in rest;
      versions' := Added(versions', p, Version(multiset{batch[p]}, time));
      rest := rest - {p};
    }
  }

  // ---------------------------------------------------------------------------
  // The actor

  datatype State = State(versions: Versions, queryId: int)

  datatype Step =
    | TimerPump(batch: Batch, time: int)
    | Load(query: int, partition: Partition, batch: Batch, time: int)   // the batch is read only for a new query
    | StoreMerged(loadedAt: nat, time: int)                             // the merge of what an earlier load returned

  /** The deltas a step pumps. */
  ghost function PumpedBy(s: State, step: Step): Batch {
    match step
    case TimerPump(batch, _) => batch
    case Load(query, _, batch, _) => if query != s.queryId then batch else map[]
    case StoreMerged(_, _) => map[]
  }

  datatype Run = Run(states: seq<State>, steps: seq<Step>)

  /** What the load at step `i` returned, merged. */
  ghost function Loaded(run: Run, i: nat): multiset<Delta>
    requires i < |run.steps| && i + 1 < |run.states| && run.steps[i].Load?
  {
    Merge(At(run.states[i + 1].versions, run.steps[i].partition))
  }

  /** The handlers of the actor. */
  ghost predicate TakesStep(run: Run, i: nat)
    requires |run.states| == |run.steps| + 1 && i < |run.steps|
  {
    var s, step, s' := run.states[i], run.steps[i], run.states[i + 1];
    match step
    case TimerPump(batch, time) => Pumped(s.versions, s'.versions, batch, time) && s'.queryId == s.queryId
    case Load(query, _, _, time) => Pumped(s.versions, s'.versions, PumpedBy(s, step), time) && s'.queryId == query
    case StoreMerged(at, time) =>
      && at < i && run.steps[at].Load?
      && s' == s.(versions := s.versions[run.steps[at].partition := [Version(Loaded(run, at), time)]])
  }

  ghost predicate IsRun(run: Run) {
    && |run.states| == |run.steps| + 1 && run.states[0].versions == map[]
    && forall i | 0 <= i < |run.steps| :: TakesStep(run, i)
  }

  // ---------------------------------------------------------------------------
  // Conservation

  /** All deltas pumped for `p` before step `i`. */
  ghost function PumpedUpTo(run: Run, i: nat, p: Partition): multiset<Delta>
    requires i <= |run.steps| < |run.states|
  {
    if i == 0 then multiset{}
    else PumpedUpTo(run, i - 1, p) + DeltasFor(PumpedBy(run.states[i - 1], run.steps[i - 1]), p)
  }

  /** What is cached of `p` before step `i`, merged, is all that was pumped for it. */
  ghost predicate Conserved(run: Run, i: nat, p: Partition)
    requires i <= |run.steps| < |run.states|
  {
    Merge(At(run.states[i].versions, p)) == PumpedUpTo(run, i, p)
  }

  /** No delta for `p` is pumped by the steps from `a` up to `b`. */
  ghost predicate Quiet(run: Run, a: nat, b: nat, p: Partition)
    requires b <= |run.steps| < |run.states|
  {
    forall i | a <= i < b :: !PumpsFor(run, i, p)
  }

  ghost predicate PumpsFor(run: Run, i: nat, p: Partition)
    requires i < |run.steps| < |run.states|
  {
    p in PumpedBy(run.states[i], run.steps[i])
  }

  /** Nothing was pumped for `p` exactly when as much is pumped before `b` as before `a`. */
  lemma QuietExactly(run: Run, a: nat, b: nat, p: Partition)
    requires a <= b <= |run.steps| < |run.states|
    ensures Quiet(run, a, b, p) <==> PumpedUpTo(run, a, p) == PumpedUpTo(run, b, p)
  {
    PumpedGrows(run, a, b, p);
  }

  lemma {:induction false} PumpedGrows(run: Run, a: nat, b: nat, p: Partition)
    requires a <= b <= |run.steps| < |run.states|
    ensures PumpedUpTo(run, a, p) <= PumpedUpTo(run, b, p)
    ensures Quiet(run, a, b, p) <==> PumpedUpTo(run, a, p) == PumpedUpTo(run, b, p)
    decreases b
  {
    if a < b {
      PumpedGrows(run, a, b - 1, p);
      QuietOneMore(run, a, b, p);
      MoreIsMore(PumpedUpTo(run, a, p), PumpedUpTo(run, b - 1, p),
                 DeltasFor(PumpedBy(run.states[b - 1], run.steps[b - 1]), p));
    }
  }

  lemma QuietOneMore(run: Run, a: nat, b: nat, p: Partition)
    requires a < b <= |run.steps| < |run.states|
    ensures Quiet(run, a, b, p)
       <==> Quiet(run, a, b - 1, p) && DeltasFor(PumpedBy(run.states[b - 1], run.steps[b - 1]), p) == multiset{}
  {
    var batch := PumpedBy(run.states[b - 1], run.steps[b - 1]);
    assert PumpsFor(run, b - 1, p) <==> DeltasFor(batch, p) != multiset{} by {
      assert p in batch ==> batch[p] in DeltasFor(batch, p);
    }
  }

  lemma MoreIsMore(a: multiset<Delta>, b: multiset<Delta>, more: multiset<Delta>)
    requires a <= b
    ensures a == b + more <==> a == b && more == multiset{}
  {
  }

  /** A pump or a load keeps what it finds conserved. */
  lemma PumpConserves(run: Run, i: nat, p: Partition)
    requires IsRun(run) && i < |run.steps| && !run.steps[i].StoreMerged?
    ensures Conserved(run, i, p) ==> Conserved(run, i + 1, p)
  {
    var s, step, s' := run.states[i], run.steps[i], run.states[i + 1];
    assert TakesStep(run, i);
    PumpAdds(s.versions, s'.versions, PumpedBy(s, step), step.time, p);
  }

  /** Storing a merged delta keeps the partition conserved exactly when no delta was pumped for it
      since the load whose result was merged. */
  lemma MergedStoreConserves(run: Run, i: nat)
    requires IsRun(run) && i < |run.steps| && run.steps[i].StoreMerged? && run.steps[i].loadedAt < i
    requires run.steps[run.steps[i].loadedAt].Load?
    requires Conserved(run, run.steps[i].loadedAt + 1, run.steps[run.steps[i].loadedAt].partition)
    ensures var at := run.steps[i].loadedAt; var p := run.steps[at].partition;
            Conserved(run, i + 1, p) <==> Quiet(run, at + 1, i, p)
  {
    var at := run.steps[i].loadedAt;
    var p := run.steps[at].partition;
    assert TakesStep(run, i);
    var v := Version(Loaded(run, at), run.steps[i].time);
    assert At(run.states[i + 1].versions, p) == [v];
    MergeOneMore([], v);
    assert [] + [v] == [v];
    assert PumpedUpTo(run, i + 1, p) == PumpedUpTo(run, i, p);
    QuietExactly(run, at + 1, i, p);
  }

  /** Merged deltas are stored before anything new is pumped for their partition. */
  ghost predicate MergesInTime(run: Run)
    requires |run.states| == |run.steps| + 1
  {
    forall i | 0 <= i < |run.steps| :: InTime(run, i)
  }

  ghost predicate InTime(run: Run, i: nat)
    requires |run.states| == |run.steps| + 1 && i < |run.steps|
  {
    run.steps[i].StoreMerged? ==>
      var at := run.steps[i].loadedAt;
      at < i && run.steps[at].Load? && Quiet(run, at + 1, i, run.steps[at].partition)
  }

  /** In such runs nothing is ever lost or counted twice. */
  lemma {:induction false} RunConserves(run: Run, i: nat, p: Partition)
    requires IsRun(run) && MergesInTime(run) && i <= |run.steps|
    ensures Conserved(run, i, p)
    decreases i
  {
    if i > 0 {
      var last := i - 1;
      RunConserves(run, last, p);
      assert InTime(run, last);
      if run.steps[last].StoreMerged? {
        RunConserves(run, run.steps[last].loadedAt + 1, p);
      }
      StepConserves(run, last, p);
    }
  }

  lemma StepConserves(run: Run, i: nat, p: Partition)
    requires IsRun(run) && i < |run.steps| && InTime(run, i) && Conserved(run, i, p)
    requires run.steps[i].StoreMerged? ==> Conserved(run, run.steps[i].loadedAt + 1, p)
    ensures Conserved(run, i + 1, p)
  {
    if run.steps[i].StoreMerged? {
      StoreConserves(run, i, p);
    } else {
      PumpConserves(run, i, p);
    }
  }

  lemma StoreConserves(run: Run, i: nat, p: Partition)
    requires IsRun(run) && i < |run.steps| && run.steps[i].StoreMerged? && InTime(run, i)
    requires Conserved(run, i, p) && Conserved(run, run.steps[i].loadedAt + 1, p)
    ensures Conserved(run, i + 1, p)
  {
    if run.steps[run.steps[i].loadedAt].partition == p {
      MergedStoreConserves(run, i);
    } else {
      OthersConserved(run, i, p);
    }
  }

  lemma OthersConserved(run: Run, i: nat, p: Partition)
    requires IsRun(run) && i < |run.steps| && run.steps[i].StoreMerged? && Conserved(run, i, p)
    requires run.steps[i].loadedAt < i && run.steps[run.steps[i].loadedAt].Load? && run.steps[run.steps[i].loadedAt].partition != p
    ensures Conserved(run, i + 1, p)
  {
    assert TakesStep(run, i);
    assert At(run.states[i + 1].versions, p) == At(run.states[i].versions, p);
    assert PumpedUpTo(run, i + 1, p) == PumpedUpTo(run, i, p);
  }

  /** A run that loses a delta: it is pumped after a load and before the merged delta is stored. */
  ghost function LosingRun(p: Partition, d: Delta): Run {
    var v := Version(multiset{d}, 1);
    Run([State(map[], 0), State(map[], 7), State(map[p := [v]], 7), State(map[p := [Version(multiset{}, 1)]], 7)],
        [Load(7, p, map[], 0), TimerPump(map[p := d], 1), StoreMerged(0, 1)])
  }

  lemma LatePumpIsLost(p: Partition, d: Delta)
    ensures IsRun(LosingRun(p, d)) && !Conserved(LosingRun(p, d), 3, p)
  {
    var run := LosingRun(p, d);
    assert TakesStep(run, 0);
    assert TakesStep(run, 1);
    assert Loaded(run, 0) == multiset{};
    assert TakesStep(run, 2);
    assert d in PumpedUpTo(run, 2, p);
    assert At(run.states[3].versions, p)[..0] == [];
    assert Merge(At(run.states[3].versions, p)) == multiset{};
  }

  // ---------------------------------------------------------------------------
  // Snapshots

  /** Only loads of query `q` and merged deltas between `a` and `b`. */
  ghost predicate OnlyQuery(run: Run, q: int, a: nat, b: nat)
    requires b <= |run.steps|
  {
    forall i | a <= i < b :: OfQuery(run.steps[i], q)
  }

  ghost predicate OfQuery(step: Step, q: int) {
    step.StoreMerged? || (step.Load? && step.query == q)
  }

  lemma {:induction false} StaysInQuery(run: Run, q: int, a: nat, b: nat)
    requires IsRun(run) && a < b <= |run.steps| && run.steps[a].Load? && run.steps[a].query == q && OnlyQuery(run, q, a, b)
    ensures run.states[b].queryId == q
    decreases b
  {
    assert TakesStep(run, b - 1) && OfQuery(run.steps[b - 1], q);
    if a + 1 < b {
      StaysInQuery(run, q, a, b - 1);
    }
  }

  lemma QueryIsQuiet(run: Run, q: int, a: nat, b: nat, p: Partition)
    requires IsRun(run) && a < b <= |run.steps| && run.steps[a].Load? && run.steps[a].query == q && OnlyQuery(run, q, a, b)
    ensures Quiet(run, a + 1, b, p)
  {
    forall i | a + 1 <= i < b
      ensures !PumpsFor(run, i, p)
    {
      StaysInQuery(run, q, a, i);
      assert OfQuery(run.steps[i], q);
    }
  }

  /** All loads of a query see the same deltas, whatever the partition, as long as no timer pump
      and no other query comes in between: after any step from the query's load `a` on, the cache
      has what it had right after that load. */
  lemma QuerySeesOneSnapshot(run: Run, q: int, a: nat, b: nat, p: Partition)
    requires IsRun(run) && MergesInTime(run) && a < b <= |run.steps|
    requires run.steps[a].Load? && run.steps[a].query == q && OnlyQuery(run, q, a, b)
    ensures Merge(At(run.states[b].versions, p)) == PumpedUpTo(run, a + 1, p)
  {
    NothingPumped(run, q, a, b, p);
    RunConserves(run, b, p);
  }

  lemma NothingPumped(run: Run, q: int, a: nat, b: nat, p: Partition)
    requires IsRun(run) && a < b <= |run.steps| && run.steps[a].Load? && run.steps[a].query == q && OnlyQuery(run, q, a, b)
    ensures PumpedUpTo(run, b, p) == PumpedUpTo(run, a + 1, p)
  {
    QueryIsQuiet(run, q, a, b, p);
    QuietExactly(run, a + 1, b, p);
  }

  // ---------------------------------------------------------------------------
  // The actor object

  datatype LoadResult = NoSuchTable | Versions(versions: seq<Version>, stable: Option<Bitmap>)

  class DeltaCacheActor {
    const tables: set<TableName>
    const keepMapCache: bool              // the merge mode in which stable bitmaps are handed out
    var cache: Versions
    var stable: map<Partition, Bitmap>
    var queryId: int
    var lastTimestamp: int

    constructor (tables: set<TableName>, keepMapCache: bool)
      ensures cache == map[] && stable == map[] && this.tables == tables && this.keepMapCache == keepMapCache
    {
      this.tables, this.keepMapCache, stable := tables, keepMapCache, map[];
      cache, queryId, lastTimestamp := map[], 2022, 0;
    }

    /** `batch` and `time` are what the binlog reader returns. */
    method DeltaPump(batch: Batch, time: int)
      modifies this`cache, this`lastTimestamp
      ensures Pumped(old(cache), cache, batch, time) && lastTimestamp == time
    {
      lastTimestamp := time;
      cache := StoreBatch(cache, batch, time);
    }

    /** The first load of a query pumps; it does so even if the table turns out to be missing. */
    method LoadMemoryDelta(query: int, p: Partition, batch: Batch, time: int) returns (r: LoadResult)
      modifies this`cache, this`queryId, this`lastTimestamp
      ensures queryId == query && lastTimestamp == if query != old(queryId) then time else old(lastTimestamp)
      ensures Pumped(old(cache), cache, if query != old(queryId) then batch else map[], lastTimestamp)
      ensures r == if p.table in tables then Versions(At(cache, p), StableOf(p)) else NoSuchTable
    {
      if query != queryId {
        queryId := query;
        DeltaPump(batch, time);
      }
      if p.table !in tables {
        return NoSuchTable;
      }
      var bitmap := None;
      if keepMapCache && p in stable {
        bitmap := Some(stable[p]);
      }
      r := Versions(At(cache, p), bitmap);
    }

    ghost function StableOf(p: Partition): Option<Bitmap>
      reads this
    {
      if keepMapCache && p in stable then Some(stable[p]) else None
    }

    /** A message without a bitmap leaves the stored one. */
    method StoreMergedDelta(p: Partition, merged: multiset<Delta>, bitmap: Option<Bitmap>)
      modifies this`cache, this`stable
      ensures cache == old(cache)[p := [Version(merged, lastTimestamp)]]
      ensures stable == if bitmap.Some? then old(stable)[p := bitmap.value] else old(stable)
    {
      if bitmap.Some? {
        stable := stable - {p};
        stable := stable[p := bitmap.value];
      }
      cache := cache - {p};
      cache := Added(cache, p, Version(merged, lastTimestamp));
      assert [] + [Version(merged, lastTimestamp)] == [Version(merged, lastTimestamp)];
    }
  }
}
