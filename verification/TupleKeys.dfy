/** Tables, and the keys that rows have on a list of columns. */
module TupleKeys {

  type Datum(==, !new)

  /** Only the first seven types can be part of a key. */
  datatype Type = Int16 | Int32 | Int64 | Float | Double | Date64 | Utf8 | Other(id: nat)

  datatype Value = Value(kind: Type, datum: Datum)

  datatype Field = Field(name: string, kind: Type)

  type Row = seq<Value>
  type TupleKey = seq<Value>

  datatype Table = Table(schema: seq<Field>, rows: seq<Row>)

  ghost predicate Rectangular(t: Table) {
    forall r | 0 <= r < |t.rows| :: |t.rows[r]| == |t.schema|
  }

  datatype Error = ColumnMissing | UnrecognizedType | SchemasDiffer | PositionsDiffer | RowMissing

  datatype Result<+T> = Ok(value: T) | Err(error: Error)

  // ---------------------------------------------------------------------------
  // Column names

  function ToLower(c: char): (d: char)
    ensures 'A' <= c <= 'Z' ==> 'a' <= d <= 'z' && d as int - 'a' as int == c as int - 'A' as int
    ensures !('A' <= c <= 'Z') ==> d == c
  {
    if 'A' <= c <= 'Z' then c - 'A' + 'a' else c
  }

  function Canonicalize(name: string): string {
    seq(|name|, i requires 0 <= i < |name| => ToLower(name[i]))
  }

  function CanonicalizeAll(names: seq<string>): seq<string> {
    seq(|names|, i requires 0 <= i < |names| => Canonicalize(names[i]))
  }

  /** The position of a column; -1 if the name is missing or not unique. */
  function GetFieldIndex(schema: seq<Field>, name: string): (r: int)
    ensures -1 <= r < |schema|
    ensures r >= 0 <==> NamedOnce(schema, name)
    ensures r >= 0 ==> schema[r].name == name
  {
    if schema == [] then -1
    else
      var n := |schema| - 1;
      var r := GetFieldIndex(schema[..n], name);
      if schema[n].name != name then SameNames(schema, name); r
      else if exists i | 0 <= i < n :: schema[i].name == name then -1
      else assert OnlyAt(schema, name, n); n
  }

  predicate NamedOnce(schema: seq<Field>, name: string) {
    exists i | 0 <= i < |schema| :: OnlyAt(schema, name, i)
  }

  predicate OnlyAt(schema: seq<Field>, name: string, i: nat) {
    i < |schema| && schema[i].name == name && forall j | 0 <= j < |schema| && schema[j].name == name :: j == i
  }

  lemma SameNames(schema: seq<Field>, name: string)
    requires schema != [] && schema[|schema| - 1].name != name
    ensures NamedOnce(schema[..|schema| - 1], name) <==> NamedOnce(schema, name)
  {
    var rest := schema[..|schema| - 1];
    forall i: nat
      ensures OnlyAt(schema, name, i) <==> OnlyAt(rest, name, i)
    {
      assert i < |rest| ==> rest[i] == schema[i];
    }
    if NamedOnce(schema, name) {
      var i :| 0 <= i < |schema| && OnlyAt(schema, name, i);
      assert OnlyAt(rest, name, i);
    }
  }

  ghost predicate Resolves(schema: seq<Field>, names: seq<string>) {
    forall i | 0 <= i < |names| :: NamedOnce(schema, names[i])
  }

  ghost function Positions(schema: seq<Field>, names: seq<string>): seq<nat>
    requires Resolves(schema, names)
  {
    seq(|names|, i requires 0 <= i < |names| => GetFieldIndex(schema, names[i]))
  }

  /** The loops that look up column names. */
  method Resolve(schema: seq<Field>, names: seq<string>) returns (r: Result<seq<nat>>)
    ensures r.Ok? <==> Resolves(schema, names)
    ensures r.Ok? ==> r.value == Positions(schema, names)
    ensures r.Err? ==> r.error == ColumnMissing
  {
    var indexes: seq<nat> := [];
    for i := 0 to |names|
      invariant |indexes| == i
      invariant forall j | 0 <= j < i :: NamedOnce(schema, names[j]) && indexes[j] == GetFieldIndex(schema, names[j])
    {
      var index := GetFieldIndex(schema, names[i]);
      if index == -1 {
        return Err(ColumnMissing);
      }
      indexes := indexes + [index];
    }
    r := Ok(indexes);
  }

  // ---------------------------------------------------------------------------
  // Keys

  ghost predicate Fits(row: Row, columns: seq<nat>) {
    forall c | c in columns :: c < |row|
  }

  ghost predicate AllFit(rows: seq<Row>, columns: seq<nat>) {
    forall r | 0 <= r < |rows| :: Fits(rows[r], columns)
  }

  /** The row restricted to `columns`, in that order; the key of a row is such a selection. */
  ghost function Select(row: Row, columns: seq<nat>): TupleKey
    requires Fits(row, columns)
  {
    seq(|columns|, i requires 0 <= i < |columns| => assert columns[i] in columns; row[columns[i]])
  }

  ghost predicate Keyable(row: Row, columns: seq<nat>)
    requires Fits(row, columns)
  {
    forall c | c in columns :: !row[c].kind.Other?
  }

  ghost predicate AllKeyable(rows: seq<Row>, columns: seq<nat>)
    requires AllFit(rows, columns)
  {
    forall r | 0 <= r < |rows| :: Keyable(rows[r], columns)
  }

  /** `TupleKeyBuilder::make`. */
  method MakeKey(row: Row, columns: seq<nat>) returns (r: Result<TupleKey>)
    requires Fits(row, columns)
    ensures r.Ok? <==> Keyable(row, columns)
    ensures r.Ok? ==> r.value == Select(row, columns)
    ensures r.Err? ==> r.error == UnrecognizedType
  {
    var elements := [];
    for i := 0 to |columns|
      invariant |elements| == i
      invariant forall j | 0 <= j < i :: columns[j] in columns && elements[j] == row[columns[j]] && !elements[j].kind.Other?
    {
      assert columns[i] in columns;
      var element := row[columns[i]];
      if element.kind.Other? {
        return Err(UnrecognizedType);
      }
      elements := elements + [element];
    }
    r := Ok(elements);
  }
}
