/** The probe side of a hash join: looking up every row of a batch. */
module HashProbe {
  import opened TupleKeys
  import opened Multimaps
  import opened TupleSetIndices

  datatype Match = Match(probe: nat, build: nat)

  /** The nested-loop equi-join: the pairs of rows with equal keys, each once. */
  ghost function Matching(probe: seq<TupleKey>, build: seq<TupleKey>, m: Match): nat {
    if m.probe < |probe| && m.build < |build| && probe[m.probe] == build[m.build] then 1 else 0
  }

  ghost predicate NestedLoop(matches: seq<Match>, probe: seq<TupleKey>, build: seq<TupleKey>) {
    forall m :: multiset(matches)[m] == Matching(probe, build, m)
  }

  /** Exactly the rows with the key, each once. */
  ghost predicate RowsWith(found: seq<nat>, keys: seq<TupleKey>, key: TupleKey) {
    forall r: nat :: multiset(found)[r] == if r < |keys| && keys[r] == key then 1 else 0
  }

  /** `TupleSetIndexFinder::find`: the build rows that match a probe row. */
  method FindRow(index: TupleSetIndex, columns: seq<nat>, row: Row) returns (r: Result<seq<nat>>)
    requires index.Valid() && Fits(row, columns)
    ensures r.Ok? <==> Keyable(row, columns)
    ensures r.Ok? ==> RowsWith(r.value, Keys(index.rows, index.columnIndexes), Select(row, columns))
  {
    var key := MakeKey(row, columns);
    if key.Err? {
      return Err(key.error);
    }
    var found := index.Find(key.value);
    r := Ok(found);
  }

  /** The matches of probe row `p` with the build rows `found`. */
  ghost function With(p: nat, found: seq<nat>): seq<Match> {
    seq(|found|, i requires 0 <= i < |found| => Match(p, found[i]))
  }

  lemma {:induction false} WithCount(p: nat, found: seq<nat>, m: Match)
    ensures multiset(With(p, found))[m] == if m.probe == p then multiset(found)[m.build] else 0
    decreases |found|
  {
    if found != [] {
      var n := |found| - 1;
      WithCount(p, found[..n], m);
      assert found == found[..n] + [found[n]];
      assert With(p, found) == With(p, found[..n]) + [Match(p, found[n])];
    }
  }

  lemma NestedLoopOneMore(matches: seq<Match>, probe: seq<TupleKey>, build: seq<TupleKey>, key: TupleKey, found: seq<nat>)
    requires NestedLoop(matches, probe, build)
    requires RowsWith(found, build, key)
    ensures NestedLoop(matches + With(|probe|, found), probe + [key], build)
  {
    forall m
      ensures multiset(matches + With(|probe|, found))[m] == Matching(probe + [key], build, m)
    {
      WithCount(|probe|, found, m);
      assert multiset(matches)[m] == Matching(probe, build, m);
    }
  }

  lemma MatchesInRange(matches: seq<Match>, probe: seq<TupleKey>, build: seq<TupleKey>)
    requires NestedLoop(matches, probe, build)
    ensures forall m | m in matches :: m.probe < |probe| && m.build < |build| && probe[m.probe] == build[m.build]
  {
    forall m | m in matches
      ensures Matching(probe, build, m) == 1
    {
      assert m in multiset(matches);
    }
  }

  /** `RecordBatchHashJoiner::join`, over the row numbers: it fails if a column is missing or a key
      cannot be made, and else yields the nested-loop join of the batch with the build table. */
  method Probe(index: TupleSetIndex, probeNames: seq<string>, batch: Table) returns (r: Result<seq<Match>>)
    requires index.Valid() && Rectangular(batch)
    ensures r.Ok? <==> Probes(probeNames, batch)
    ensures r.Ok? ==> NestedLoop(r.value, Keys(batch.rows, Positions(batch.schema, CanonicalizeAll(probeNames))),
                                 Keys(index.rows, index.columnIndexes))
  {
    var columns := Resolve(batch.schema, CanonicalizeAll(probeNames));
    if columns.Err? {
      return Err(columns.error);
    }
    ColumnsFit(probeNames, columns.value, batch);
    r := ProbeRows(index, columns.value, batch.rows);
  }

  /** The loop over the rows of the batch. */
  method ProbeRows(index: TupleSetIndex, columns: seq<nat>, rows: seq<Row>) returns (r: Result<seq<Match>>)
    requires index.Valid() && AllFit(rows, columns)
    ensures r.Ok? <==> AllKeyable(rows, columns)
    ensures r.Ok? ==> NestedLoop(r.value, Keys(rows, columns), Keys(index.rows, index.columnIndexes))
  {
    ghost var keys, build := Keys(rows, columns), Keys(index.rows, index.columnIndexes);
    var matches: seq<Match> := [];
    for p := 0 to |rows|
      invariant forall i | 0 <= i < p :: Keyable(rows[i], columns)
      invariant NestedLoop(matches, keys[..p], build)
    {
      var found := FindRow(index, columns, rows[p]);
      if found.Err? {
        return Err(found.error);
      }
      assert keys[..p + 1] == keys[..p] + [keys[p]];
      NestedLoopOneMore(matches, keys[..p], build, keys[p], found.value);
      matches := AddMatches(matches, p, found.value);
    }
    assert keys[..|rows|] == keys;
    r := Ok(matches);
  }

  /** The inner loop. */
  method AddMatches(before: seq<Match>, p: nat, found: seq<nat>) returns (matches: seq<Match>)
    ensures matches == before + With(p, found)
  {
    matches := before;
    for i := 0 to |found|
      invariant matches == before + With(p, found[..i])
    {
      assert With(p, found[..i + 1]) == With(p, found[..i]) + [Match(p, found[i])];
      matches := matches + [Match(p, found[i])];
    }
    assert found[..|found|] == found;
  }

  /** The key columns exist and are of types that can be keys. */
  ghost predicate Probes(probeNames: seq<string>, batch: Table) {
    && Resolves(batch.schema, CanonicalizeAll(probeNames))
    && var columns := Positions(batch.schema, CanonicalizeAll(probeNames));
       AllFit(batch.rows, columns) && AllKeyable(batch.rows, columns)
  }

  // ---------------------------------------------------------------------------
  // The joined rows

  /** The needed columns, each of the build table or of the batch, exist. */
  ghost predicate Available(needed: seq<(bool, nat)>, buildWidth: nat, probeWidth: nat) {
    forall i | 0 <= i < |needed| :: needed[i].1 < if needed[i].0 then buildWidth else probeWidth
  }

  function JoinedRow(needed: seq<(bool, nat)>, build: Row, probe: Row): Row
    requires Available(needed, |build|, |probe|)
  {
    seq(|needed|, i requires 0 <= i < |needed| => if needed[i].0 then build[needed[i].1] else probe[needed[i].1])
  }

  /** What a joiner has put together: the joined rows, and the numbers of the rows that found a match. */
  datatype Output = Output(rows: seq<Row>, probeMatches: set<nat>, buildMatches: set<nat>)

  /** `output` is what the first `n` matches make. */
  ghost predicate Made(output: Output, matches: seq<Match>, n: nat, needed: seq<(bool, nat)>, build: Table, probe: Table,
                       probeOffset: nat, buildOffset: nat)
    requires n <= |matches|
  {
    && |output.rows| == n
    && (forall i | 0 <= i < n :: Joins(output.rows[i], matches[i], needed, build, probe))
    && output.probeMatches == (set i | 0 <= i < n :: probeOffset + matches[i].probe)
    && output.buildMatches == (set i | 0 <= i < n :: buildOffset + matches[i].build)
  }

  ghost predicate Joins(row: Row, m: Match, needed: seq<(bool, nat)>, build: Table, probe: Table) {
    && m.probe < |probe.rows| && m.build < |build.rows|
    && Available(needed, |build.rows[m.build]|, |probe.rows[m.probe]|) && |row| == |needed|
    && forall i | 0 <= i < |needed| ::
         row[i] == if needed[i].0 then build.rows[m.build][needed[i].1] else probe.rows[m.probe][needed[i].1]
  }

  /** The join of a batch: one row per match, in the order of the matches. */
  method Join(index: TupleSetIndex, probeNames: seq<string>, batch: Table, needed: seq<(bool, nat)>, probeOffset: nat, buildOffset: nat)
    returns (r: Result<Output>, ghost matches: seq<Match>)
    requires index.Valid() && Rectangular(batch) && Available(needed, |index.schema|, |batch.schema|)
    ensures r.Ok? <==> Probes(probeNames, batch)
    ensures r.Ok? ==> NestedLoop(matches, Keys(batch.rows, Positions(batch.schema, CanonicalizeAll(probeNames))),
                                 Keys(index.rows, index.columnIndexes))
    ensures r.Ok? ==> Made(r.value, matches, |matches|, needed, Table(index.schema, index.rows), batch, probeOffset, buildOffset)
  {
    var found := Probe(index, probeNames, batch);
    if found.Err? {
      matches := [];
      return Err(found.error), matches;
    }
    matches := found.value;
    MatchesInRange(matches, Keys(batch.rows, Positions(batch.schema, CanonicalizeAll(probeNames))), Keys(index.rows, index.columnIndexes));
    var output := MakeRows(found.value, needed, Table(index.schema, index.rows), batch, probeOffset, buildOffset);
    r := Ok(output);
  }

  method MakeRows(matches: seq<Match>, needed: seq<(bool, nat)>, build: Table, probe: Table, probeOffset: nat, buildOffset: nat)
    returns (output: Output)
    requires Rectangular(build) && Rectangular(probe) && Available(needed, |build.schema|, |probe.schema|)
    requires forall m | m in matches :: m.probe < |probe.rows| && m.build < |build.rows|
    ensures Made(output, matches, |matches|, needed, build, probe, probeOffset, buildOffset)
  {
    output := Output([], {}, {});
    for i := 0 to |matches|
      invariant Made(output, matches, i, needed, build, probe, probeOffset, buildOffset)
    {
      var m := matches[i];
      assert m in matches;
      var row := JoinedRow(needed, build.rows[m.build], probe.rows[m.probe]);
      output := Output(output.rows + [row], output.probeMatches + {probeOffset + m.probe}, output.buildMatches + {buildOffset + m.build});
    }
  }
}
