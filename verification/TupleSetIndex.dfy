/** The build side of a hash join: a table with a multimap from keys to its row numbers, made at
    once, extended by tables and merged with other indexes; and the probe side. */
module TupleSetIndices {
  import opened TupleKeys
  import opened Multimaps

  type Entries = multiset<Entry<TupleKey>>

  ghost function Keys(rows: seq<Row>, columns: seq<nat>): seq<TupleKey>
    requires AllFit(rows, columns)
  {
    seq(|rows|, i requires 0 <= i < |rows| => Select(rows[i], columns))
  }

  lemma KeysAppend(a: seq<Row>, b: seq<Row>, columns: seq<nat>)
    requires AllFit(a, columns) && AllFit(b, columns)
    ensures AllFit(a + b, columns) && Keys(a + b, columns) == Keys(a, columns) + Keys(b, columns)
    ensures AllKeyable(a + b, columns) <==> AllKeyable(a, columns) && AllKeyable(b, columns)
  {
    assert forall i | 0 <= i < |b| :: (a + b)[|a| + i] == b[i];
    assert forall i | 0 <= i < |a| :: (a + b)[i] == a[i];
  }

  /** `entries` are exactly the pairs of a key and a row number, the rows counted from `offset`. */
  ghost predicate Built(entries: Entries, columns: seq<nat>, offset: nat, rows: seq<Row>) {
    AllFit(rows, columns) && AllKeyable(rows, columns) && Indexes(entries, Keys(rows, columns), offset)
  }

  lemma BuiltAppend(m: Entries, m': Entries, columns: seq<nat>, offset: nat, a: seq<Row>, b: seq<Row>)
    requires Built(m, columns, offset, a) && Built(m', columns, offset + |a|, b)
    ensures Built(m + m', columns, offset, a + b)
  {
  }

  lemma BuiltOne(columns: seq<nat>, offset: nat, row: Row)
    requires Fits(row, columns) && Keyable(row, columns)
    ensures Built(multiset{Entry(Select(row, columns), offset)}, columns, offset, [row])
  {
  }

  // ---------------------------------------------------------------------------
  // Building

  ghost function Flatten(batches: seq<seq<Row>>): seq<Row> {
    if batches == [] then [] else Flatten(batches[..|batches| - 1]) + batches[|batches| - 1]
  }

  lemma FlattenAppend(batches: seq<seq<Row>>, batch: seq<Row>)
    ensures Flatten(batches + [batch]) == Flatten(batches) + batch
  {
  }

  lemma FlattenPrefix(batches: seq<seq<Row>>, n: nat)
    requires n < |batches|
    ensures Flatten(batches[..n + 1]) == Flatten(batches[..n]) + batches[n]
  {
    assert batches[..n + 1] == batches[..n] + [batches[n]];
    FlattenAppend(batches[..n], batches[n]);
  }

  lemma {:induction false} FlattenIsPrefix(batches: seq<seq<Row>>, n: nat)
    requires n <= |batches|
    ensures Flatten(batches[..n]) <= Flatten(batches)
    decreases |batches| - n
  {
    if n == |batches| {
      assert batches[..n] == batches;
    } else {
      FlattenPrefix(batches, n);
      FlattenIsPrefix(batches, n + 1);
    }
  }

  const DefaultChunkSize := 100000

  /** Reads a table a batch at a time. */
  method ReadBatches(rows: seq<Row>) returns (batches: seq<seq<Row>>)
    ensures Flatten(batches) == rows
  {
    batches := [];
    var i := 0;
    while i < |rows|
      invariant 0 <= i <= |rows| && Flatten(batches) == rows[..i]
    {
      var j := if i + DefaultChunkSize <= |rows| then i + DefaultChunkSize else |rows|;
      FlattenAppend(batches, rows[i..j]);
      assert rows[..j] == rows[..i] + rows[i..j];
      batches := batches + [rows[i..j]];
      i := j;
    }
    assert rows[..i] == rows;
  }

  /** The inner loop: one batch. */
  method BuildBatch(columns: seq<nat>, tableRow: nat, batch: seq<Row>) returns (r: Result<Entries>)
    requires AllFit(batch, columns)
    ensures r.Ok? <==> AllKeyable(batch, columns)
    ensures r.Ok? ==> Built(r.value, columns, tableRow, batch)
    ensures r.Err? ==> r.error == UnrecognizedType
  {
    var entries: Entries := multiset{};
    for i := 0 to |batch|
      invariant Built(entries, columns, tableRow, batch[..i])
    {
      var key := MakeKey(batch[i], columns);
      if key.Err? {
        return Err(key.error);
      }
      BuiltOne(columns, tableRow + i, batch[i]);
      BuiltAppend(entries, multiset{Entry(key.value, tableRow + i)}, columns, tableRow, batch[..i], [batch[i]]);
      assert batch[..i + 1] == batch[..i] + [batch[i]];
      entries := entries + multiset{Entry(key.value, tableRow + i)};
    }
    assert batch[..|batch|] == batch;
    r := Ok(entries);
  }

  /** `build`: however the table is chunked, the entries are those of its rows. */
  method Build(columns: seq<nat>, offset: nat, batches: seq<seq<Row>>) returns (r: Result<Entries>)
    requires AllFit(Flatten(batches), columns)
    ensures r.Ok? <==> AllKeyable(Flatten(batches), columns)
    ensures r.Ok? ==> Built(r.value, columns, offset, Flatten(batches))
    ensures r.Err? ==> r.error == UnrecognizedType
  {
    var entries: Entries := multiset{};
    var tableRow := offset;
    for i := 0 to |batches|
      invariant Built(entries, columns, offset, Flatten(batches[..i])) && tableRow == offset + |Flatten(batches[..i])|
    {
      FlattenPart(batches, i, columns);
      var batch := BuildBatch(columns, tableRow, batches[i]);
      if batch.Err? {
        return Err(batch.error);
      }
      BuiltAppend(entries, batch.value, columns, offset, Flatten(batches[..i]), batches[i]);
      entries := entries + batch.value;
      tableRow := tableRow + |batches[i]|;
    }
    assert batches[..|batches|] == batches;
    r := Ok(entries);
  }

  /** Batch `n` is a part of the table, and the part before it is followed by it. */
  lemma FlattenPart(batches: seq<seq<Row>>, n: nat, columns: seq<nat>)
    requires n < |batches| && AllFit(Flatten(batches), columns)
    ensures AllFit(batches[n], columns)
    ensures Flatten(batches[..n + 1]) == Flatten(batches[..n]) + batches[n]
    ensures AllKeyable(Flatten(batches), columns) ==> AllKeyable(batches[n], columns)
  {
    FlattenPrefix(batches, n);
    FlattenIsPrefix(batches, n + 1);
    Part(Flatten(batches[..n]), batches[n], Flatten(batches), columns);
  }

  lemma Part(head: seq<Row>, part: seq<Row>, all: seq<Row>, columns: seq<nat>)
    requires head + part <= all && AllFit(all, columns)
    ensures AllFit(part, columns)
    ensures AllKeyable(all, columns) ==> AllKeyable(part, columns)
  {
    assert forall i | 0 <= i < |part| :: all[|head| + i] == part[i];
  }

  // ---------------------------------------------------------------------------
  // Putting a table: aligning its columns with the index's schema by name

  ghost function Names(schema: seq<Field>): seq<string> {
    seq(|schema|, i requires 0 <= i < |schema| => schema[i].name)
  }

  ghost predicate Alignable(schema: seq<Field>, t: Table) {
    schema == t.schema || Resolves(t.schema, Names(schema))
  }

  /** The rows of `t` with their values in the order of `schema`. */
  ghost function Aligned(schema: seq<Field>, t: Table): seq<Row>
    requires Rectangular(t) && Alignable(schema, t)
  {
    if schema == t.schema then t.rows else Keys(t.rows, Positions(t.schema, Names(schema)))
  }

  lemma AlignedIsRectangular(schema: seq<Field>, t: Table)
    requires Rectangular(t) && Alignable(schema, t)
    ensures Rectangular(Table(schema, Aligned(schema, t))) && |Aligned(schema, t)| == |t.rows|
  {
  }

  /** Every value of an aligned row comes from the column of the same name. */
  lemma AlignedByName(schema: seq<Field>, t: Table, r: nat, c: nat)
    requires Rectangular(t) && Alignable(schema, t) && r < |t.rows| && c < |schema|
    ensures exists d | 0 <= d < |t.schema| ::
              t.schema[d].name == schema[c].name && Aligned(schema, t)[r][c] == t.rows[r][d]
  {
    if schema != t.schema {
      var d := GetFieldIndex(t.schema, Names(schema)[c]);
      assert NamedOnce(t.schema, Names(schema)[c]);
      assert t.schema[d].name == schema[c].name && Aligned(schema, t)[r][c] == t.rows[r][d];
    } else {
      assert t.schema[c].name == schema[c].name && Aligned(schema, t)[r][c] == t.rows[r][c];
    }
  }

  method NamesOf(schema: seq<Field>) returns (names: seq<string>)
    ensures names == Names(schema)
  {
    names := seq(|schema|, i requires 0 <= i < |schema| => schema[i].name);
  }

  method Align(schema: seq<Field>, t: Table) returns (r: Result<seq<Row>>)
    requires Rectangular(t)
    ensures r.Ok? <==> Alignable(schema, t)
    ensures r.Ok? ==> r.value == Aligned(schema, t)
    ensures r.Err? ==> r.error == SchemasDiffer
  {
    if schema == t.schema {
      return Ok(t.rows);
    }
    var names := NamesOf(schema);
    var columns := Resolve(t.schema, names);
    if columns.Err? {
      return Err(SchemasDiffer);
    }
    var rows: seq<Row> := seq(|t.rows|, i requires 0 <= i < |t.rows| => Pick(t.rows[i], columns.value));
    r := Ok(rows);
  }

  function Pick(row: Row, columns: seq<nat>): (r: Row)
    requires Fits(row, columns)
    ensures r == Select(row, columns)
  {
    seq(|columns|, i requires 0 <= i < |columns| => assert columns[i] in columns; row[columns[i]])
  }

  // ---------------------------------------------------------------------------
  // The index

  /** The key columns are resolved by canonical name. */
  ghost predicate ColumnsResolved(names: seq<string>, columns: seq<nat>, schema: seq<Field>) {
    Resolves(schema, CanonicalizeAll(names)) && columns == Positions(schema, CanonicalizeAll(names))
  }

  lemma ColumnsFit(names: seq<string>, columns: seq<nat>, t: Table)
    requires ColumnsResolved(names, columns, t.schema) && Rectangular(t)
    ensures AllFit(t.rows, columns)
  {
  }

  /** `put` looks the names up as they are. They are where `make` found them exactly when they are
      canonical already. */
  lemma PutNeedsCanonicalNames(names: seq<string>, columns: seq<nat>, schema: seq<Field>)
    requires ColumnsResolved(names, columns, schema)
    ensures (Resolves(schema, names) && Positions(schema, names) == columns) <==> CanonicalizeAll(names) == names
  {
    if Resolves(schema, names) && Positions(schema, names) == columns {
      forall i | 0 <= i < |names|
        ensures CanonicalizeAll(names)[i] == names[i]
      {
        assert NamedOnce(schema, names[i]) && NamedOnce(schema, CanonicalizeAll(names)[i]);
        assert GetFieldIndex(schema, names[i]) == columns[i] == GetFieldIndex(schema, CanonicalizeAll(names)[i]);
      }
    }
  }

  /** An index made on "A" finds its column, and cannot be put to. */
  lemma UpperCaseNameCannotBePut(kind: Type)
    ensures var schema := [Field("a", kind)];
            ColumnsResolved(["A"], [0], schema) && !(Resolves(schema, ["A"]) && Positions(schema, ["A"]) == [0])
  {
    var schema := [Field("a", kind)];
    assert Canonicalize("A") == "a";
    assert CanonicalizeAll(["A"]) == ["a"];
    assert OnlyAt(schema, "a", 0);
    assert "A"[0] != "a"[0];
    PutNeedsCanonicalNames(["A"], [0], schema);
  }

  /** When `put` takes a table. */
  ghost predicate Accepts(names: seq<string>, columns: seq<nat>, schema: seq<Field>, t: Table)
    requires Rectangular(t)
  {
    && Alignable(schema, t) && CanonicalizeAll(names) == names
    && AllFit(Aligned(schema, t), columns) && AllKeyable(Aligned(schema, t), columns)
  }

  /** When merging two indexes leaves an index: the other one has no rows, or it has the same
      schema and its rows have the same keys in both. */
  ghost predicate Mergeable(columns: seq<nat>, schema: seq<Field>, columns': seq<nat>, schema': seq<Field>, rows': seq<Row>)
    requires AllFit(rows', columns')
  {
    rows' == [] || (schema == schema' && AllFit(rows', columns) && Keys(rows', columns) == Keys(rows', columns'))
  }

  class TupleSetIndex {
    const columnNames: seq<string>
    const columnIndexes: seq<nat>
    const schema: seq<Field>
    var rows: seq<Row>
    var valueRowMap: Entries

    /** The table is well-formed, and the key columns are columns of it. */
    ghost predicate Shaped()
      reads this
    {
      Rectangular(Table(schema, rows)) && ColumnsResolved(columnNames, columnIndexes, schema)
    }

    /** The map is exactly the pairs (key of row r, r), each row once. */
    ghost predicate Valid()
      reads this
    {
      Shaped() && Built(valueRowMap, columnIndexes, 0, rows)
    }

    constructor (columnNames: seq<string>, columnIndexes: seq<nat>, t: Table, valueRowMap: Entries)
      ensures this.columnNames == columnNames && this.columnIndexes == columnIndexes
      ensures schema == t.schema && rows == t.rows && this.valueRowMap == valueRowMap
    {
      this.columnNames, this.columnIndexes := columnNames, columnIndexes;
      this.schema, this.rows, this.valueRowMap := t.schema, t.rows, valueRowMap;
    }

    method Put(t: Table) returns (r: Result<()>)
      requires Valid() && Rectangular(t)
      modifies this
      ensures Valid()
      ensures r.Ok? <==> Accepts(columnNames, columnIndexes, schema, t)
      ensures rows == if r.Ok? then old(rows) + Aligned(schema, t) else old(rows)
      ensures r.Err? ==> valueRowMap == old(valueRowMap)
    {
      var aligned := Align(schema, t);
      if aligned.Err? {
        return Err(aligned.error);
      }
      var columns := Resolve(schema, columnNames);
      PutNeedsCanonicalNames(columnNames, columnIndexes, schema);
      if columns.Err? {
        return Err(columns.error);
      }
      if columns.value != columnIndexes {
        return Err(PositionsDiffer);
      }
      AlignedIsRectangular(schema, t);
      ColumnsFit(columnNames, columnIndexes, Table(schema, aligned.value));
      var batches := ReadBatches(aligned.value);
      var entries := Build(columnIndexes, |rows|, batches);
      if entries.Err? {
        return Err(entries.error);
      }
      BuiltAppend(valueRowMap, entries.value, columnIndexes, 0, rows, aligned.value);
      valueRowMap := valueRowMap + entries.value;
      rows := rows + aligned.value;
      r := Ok(());
    }

    /** Adds the other index's entries, their rows numbered on, and then its table, which fails if
        the schemas differ: but by then the entries are in. */
    method Merge(other: TupleSetIndex) returns (r: Result<()>)
      requires Valid() && other.Valid() && other != this
      modifies this
      ensures r.Ok? <==> schema == other.schema
      ensures rows == if r.Ok? then old(rows) + other.rows else old(rows)
      ensures Valid() <==> Mergeable(columnIndexes, schema, other.columnIndexes, other.schema, other.rows)
    {
      ghost var columns', rows' := other.columnIndexes, other.rows;
      var moved := Move(other.valueRowMap, |rows|);
      MovedIndex(other.valueRowMap, Keys(rows', columns'), moved, |rows|);
      MergedIsBuilt(valueRowMap, rows, columnIndexes, moved, rows', columns');
      NotMergedIsBuilt(valueRowMap, rows, columnIndexes, moved, rows', columns');
      if schema == other.schema {
        ColumnsFit(columnNames, columnIndexes, Table(schema, rows'));
      }
      valueRowMap := valueRowMap + moved;
      if schema != other.schema {
        return Err(SchemasDiffer);
      }
      rows := rows + other.rows;
      r := Ok(());
    }

    method Find(key: TupleKey) returns (found: seq<nat>)
      ensures Found(valueRowMap, multiset{}, found, key)
      ensures Valid() ==> forall r: nat :: multiset(found)[r] == if r < |rows| && Keys(rows, columnIndexes)[r] == key then 1 else 0
    {
      found := Multimaps.Find(valueRowMap, key);
      if Valid() {
        forall r: nat
          ensures multiset(found)[r] == if r < |rows| && Keys(rows, columnIndexes)[r] == key then 1 else 0
        {
          FoundExactly(valueRowMap, Keys(rows, columnIndexes), found, key, r);
        }
      }
    }

    /** Looks every row of the table up in the map. */
    method Validate() returns (r: Result<()>)
      requires Shaped()
      ensures r.Ok? <==> AllFit(rows, columnIndexes) && AllCovered(valueRowMap, rows, columnIndexes, |rows|)
      ensures Valid() ==> r.Ok?
    {
      ColumnsFit(columnNames, columnIndexes, Table(schema, rows));
      for i := 0 to |rows|
        invariant AllCovered(valueRowMap, rows, columnIndexes, i)
      {
        var key := MakeKey(rows[i], columnIndexes);
        if key.Err? {
          assert !Covered(valueRowMap, rows, columnIndexes, i);
          return Err(key.error);
        }
        var found := Find(key.value);
        FoundIffCovered(valueRowMap, rows, columnIndexes, i, found);
        if i !in found {
          return Err(RowMissing);
        }
      }
      r := Ok(());
    }
  }

  /** Row `i` can be found under its key. */
  ghost predicate Covered(m: Entries, rows: seq<Row>, columns: seq<nat>, i: nat)
    requires AllFit(rows, columns) && i < |rows|
  {
    Keyable(rows[i], columns) && Entry(Select(rows[i], columns), i) in m
  }

  ghost predicate AllCovered(m: Entries, rows: seq<Row>, columns: seq<nat>, n: nat)
    requires AllFit(rows, columns) && n <= |rows|
  {
    forall i | 0 <= i < n :: Covered(m, rows, columns, i)
  }

  lemma FoundIffCovered(m: Entries, rows: seq<Row>, columns: seq<nat>, i: nat, found: seq<nat>)
    requires AllFit(rows, columns) && i < |rows| && Keyable(rows[i], columns)
    requires Found(m, multiset{}, found, Select(rows[i], columns))
    ensures i in found <==> Covered(m, rows, columns, i)
    ensures Built(m, columns, 0, rows) ==> Covered(m, rows, columns, i)
  {
  }

  lemma MergedIsBuilt(m: Entries, rows: seq<Row>, columns: seq<nat>, moved: Entries, rows': seq<Row>, columns': seq<nat>)
    requires Built(m, columns, 0, rows) && AllFit(rows', columns') && AllKeyable(rows', columns')
    requires Indexes(moved, Keys(rows', columns'), |rows|)
    ensures AllFit(rows', columns) ==>
              (Built(m + moved, columns, 0, rows + rows') <==> Keys(rows', columns) == Keys(rows', columns'))
  {
    if AllFit(rows', columns) {
      KeysAppend(rows, rows', columns);
      if Keys(rows', columns) == Keys(rows', columns') {
        SameKeysKeyable(rows', columns, columns');
        BuiltAppend(m, moved, columns, 0, rows, rows');
      } else if Built(m + moved, columns, 0, rows + rows') {
        MovedKeysAgree(m, Keys(rows, columns), moved, Keys(rows', columns'), Keys(rows', columns));
      }
    }
  }

  lemma SameKeysKeyable(rows: seq<Row>, columns: seq<nat>, columns': seq<nat>)
    requires AllFit(rows, columns) && AllFit(rows, columns') && Keys(rows, columns) == Keys(rows, columns')
    requires AllKeyable(rows, columns')
    ensures AllKeyable(rows, columns)
  {
    forall r, c | 0 <= r < |rows| && c in columns
      ensures !rows[r][c].kind.Other?
    {
      assert Fits(rows[r], columns);
      assert Select(rows[r], columns) == Keys(rows, columns)[r] == Keys(rows, columns')[r] == Select(rows[r], columns');
      var i :| 0 <= i < |columns| && columns[i] == c;
      assert Select(rows[r], columns)[i] == rows[r][c];
      assert columns'[i] in columns' && Keyable(rows[r], columns');
    }
  }

  lemma MovedKeysAgree(m: Entries, keys: seq<TupleKey>, moved: Entries, added: seq<TupleKey>, added': seq<TupleKey>)
    requires Indexes(m, keys, 0) && Indexes(moved, added, |keys|) && Indexes(m + moved, keys + added', 0)
    requires |added| == |added'|
    ensures added == added'
  {
    forall i | 0 <= i < |added|
      ensures added[i] == added'[i]
    {
      var e := Entry(added[i], |keys| + i);
      assert moved[e] == Expected(added, |keys|, e) == 1;
      assert (m + moved)[e] == Expected(keys + added', 0, e);
    }
  }

  lemma NotMergedIsBuilt(m: Entries, rows: seq<Row>, columns: seq<nat>, moved: Entries, rows': seq<Row>, columns': seq<nat>)
    requires Built(m, columns, 0, rows) && AllFit(rows', columns') && Indexes(moved, Keys(rows', columns'), |rows|)
    ensures Built(m + moved, columns, 0, rows) <==> rows' == []
  {
    if rows' != [] {
      var e := Entry(Keys(rows', columns')[0], |rows|);
      assert moved[e] == Expected(Keys(rows', columns'), |rows|, e) == 1;
      assert Expected(Keys(rows, columns), 0, e) == 0;
    } else {
      assert forall e :: moved[e] == Expected(Keys(rows', columns'), |rows|, e) == 0;
      assert m + moved == m;
    }
  }

  /** An index of no rows, merged with one of a single row and another schema, is no index. */
  lemma MergeCanBreakIndex(v: Value)
    requires !v.kind.Other?
    ensures Built(multiset{}, [0], 0, []) && !Mergeable([0], [Field("a", v.kind)], [0], [Field("b", v.kind)], [[v]])
    ensures !Built(multiset{Entry([v], 0)}, [0], 0, [])
  {
  }

  /** `make`. */
  method Make(columnNames: seq<string>, t: Table) returns (r: Result<TupleSetIndex>)
    requires Rectangular(t)
    ensures r.Ok? <==> Resolves(t.schema, CanonicalizeAll(columnNames)) && AllFit(t.rows, Positions(t.schema, CanonicalizeAll(columnNames)))
                       && AllKeyable(t.rows, Positions(t.schema, CanonicalizeAll(columnNames)))
    ensures r.Ok? ==> fresh(r.value) && r.value.Valid() && r.value.columnNames == columnNames
                      && r.value.schema == t.schema && r.value.rows == t.rows
  {
    var columns := Resolve(t.schema, CanonicalizeAll(columnNames));
    if columns.Err? {
      return Err(columns.error);
    }
    ColumnsFit(columnNames, columns.value, t);
    var batches := ReadBatches(t.rows);
    var entries := Build(columns.value, 0, batches);
    if entries.Err? {
      return Err(entries.error);
    }
    var index := new TupleSetIndex(columnNames, columns.value, t, entries.value);
    r := Ok(index);
  }
}
