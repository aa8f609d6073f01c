/** What a plan means: the rows it produces.  Tables, expressions, aggregates and sorting are
    parameters; everything that decides which columns are read or emitted is spelled out.
    Rows come as a sequence, so that preserving the meaning also preserves the bag of rows. */
module PlanSemantics {
  import opened Collections
  import opened StringOrder
  import opened Plans

  type Value(==, !new)
  type Row = map<string, Value>

  /** The parts of evaluation a plan does not determine. Expressions and aggregates are given only
      the columns they involve; a sort is given only its keys and answers with row numbers. */
  datatype Env = Env(
    table: nat -> seq<Row>,
    value: (nat, Row) -> Value,
    holds: (nat, Row) -> bool,
    fold: (nat, seq<Row>) -> Value,
    order: (nat, seq<Row>) -> seq<nat>)

  function Restrict(r: Row, columns: set<string>): Row {
    map c | c in r && c in columns :: r[c]
  }

  function Cut(rows: seq<Row>, columns: set<string>): seq<Row> {
    seq(|rows|, i requires 0 <= i < |rows| => Restrict(rows[i], columns))
  }

  // Selection

  predicate Holds(env: Env, condition: Option<Expr>, r: Row) {
    condition.None? || env.holds(condition.value.id, Restrict(r, condition.value.columns))
  }

  function Select(env: Env, condition: Option<Expr>, rows: seq<Row>): seq<Row> {
    if rows == [] then []
    else (if Holds(env, condition, rows[0]) then [rows[0]] else []) + Select(env, condition, rows[1..])
  }

  // Projection

  function PairsRow(pairs: seq<(string, string)>, r: Row): Row {
    if pairs == [] then map[]
    else (if pairs[0].0 in r then map[pairs[0].1 := r[pairs[0].0]] else map[]) + PairsRow(pairs[1..], r)
  }

  function ExprsRow(env: Env, exprs: seq<Expr>, names: seq<string>, r: Row): Row
    decreases |exprs|
  {
    if exprs == [] || names == [] then map[]
    else map[names[0] := env.value(exprs[0].id, Restrict(r, exprs[0].columns))] + ExprsRow(env, exprs[1..], names[1..], r)
  }

  function ProjectRows(env: Env, exprs: seq<Expr>, names: seq<string>, pairs: seq<(string, string)>, rows: seq<Row>): seq<Row> {
    seq(|rows|, i requires 0 <= i < |rows| => PairsRow(pairs, rows[i]) + ExprsRow(env, exprs, names, rows[i]))
  }

  // Aggregation

  function AggregateRow(env: Env, outputs: seq<string>, functions: seq<Aggregate>, rows: seq<Row>): Row
    decreases |functions|
  {
    if outputs == [] || functions == [] then map[]
    else map[outputs[0] := env.fold(functions[0].id, Cut(rows, functions[0].InvolvedColumns()))]
         + AggregateRow(env, outputs[1..], functions[1..], rows)
  }

  /** The distinct keys, in order of first occurrence. */
  function KeysOf(keys: seq<Row>): seq<Row>
    decreases |keys|
  {
    if keys == [] then []
    else
      var before := KeysOf(keys[..|keys| - 1]);
      if keys[|keys| - 1] in before then before else before + [keys[|keys| - 1]]
  }

  function RowsWithKey(key: Row, columns: set<string>, rows: seq<Row>): seq<Row> {
    if rows == [] then []
    else (if Restrict(rows[0], columns) == key then [rows[0]] else []) + RowsWithKey(key, columns, rows[1..])
  }

  function GroupRows(env: Env, columns: set<string>, outputs: seq<string>, functions: seq<Aggregate>, rows: seq<Row>): seq<Row> {
    var keys := KeysOf(Cut(rows, columns));
    seq(|keys|, i requires 0 <= i < |keys| =>
      keys[i] + AggregateRow(env, outputs, functions, RowsWithKey(keys[i], columns, rows)))
  }

  // Joins

  predicate Matches(env: Env, op: Operator, l: Row, r: Row)
    requires op.HashJoin? || op.NestedLoopJoin?
  {
    match op
    case HashJoin(_, left, right) =>
      forall i | 0 <= i < |left| && i < |right| :: left[i] in l && right[i] in r && l[left[i]] == r[right[i]]
    case NestedLoopJoin(_, condition) => Holds(env, condition, l + r)
  }

  function Pairings(env: Env, op: Operator, l: Row, right: seq<Row>): seq<Row>
    requires op.HashJoin? || op.NestedLoopJoin?
  {
    if right == [] then []
    else (if Matches(env, op, l, right[0]) then [l + right[0]] else []) + Pairings(env, op, l, right[1..])
  }

  function LeftPart(joinType: JoinType, l: Row, pairings: seq<Row>): seq<Row> {
    match joinType
    case Semi => if pairings == [] then [] else [l]
    case Left => if pairings == [] then [l] else pairings
    case Full => if pairings == [] then [l] else pairings
    case _ => pairings
  }

  function LeftRows(env: Env, op: Operator, left: seq<Row>, right: seq<Row>): seq<Row>
    requires op.HashJoin? || op.NestedLoopJoin?
  {
    if left == [] then []
    else LeftPart(op.joinType, left[0], Pairings(env, op, left[0], right)) + LeftRows(env, op, left[1..], right)
  }

  predicate MatchesAny(env: Env, op: Operator, left: seq<Row>, r: Row)
    requires op.HashJoin? || op.NestedLoopJoin?
  {
    exists i :: 0 <= i < |left| && Matches(env, op, left[i], r)
  }

  function UnmatchedRight(env: Env, op: Operator, left: seq<Row>, right: seq<Row>): seq<Row>
    requires op.HashJoin? || op.NestedLoopJoin?
  {
    if right == [] then []
    else (if MatchesAny(env, op, left, right[0]) then [] else [right[0]]) + UnmatchedRight(env, op, left, right[1..])
  }

  function Join(env: Env, op: Operator, left: seq<Row>, right: seq<Row>): seq<Row>
    requires op.HashJoin? || op.NestedLoopJoin?
  {
    LeftRows(env, op, left, right)
    + if op.joinType.Right? || op.joinType.Full? then UnmatchedRight(env, op, left, right) else []
  }

  // Sorting

  function Pick(rows: seq<Row>, indexes: seq<nat>): seq<Row> {
    if indexes == [] then []
    else (if indexes[0] < |rows| then [rows[indexes[0]]] else []) + Pick(rows, indexes[1..])
  }

  function Limit(k: int, rows: seq<Row>): seq<Row> {
    if k <= 0 then [] else if k < |rows| then rows[..k] else rows
  }

  // Plans

  function Input(inputs: seq<seq<Row>>, i: nat): seq<Row> {
    if i < |inputs| then inputs[i] else []
  }

  /** What an operator computes before its result is cut to its project columns. */
  function Compute(env: Env, op: Operator, inputs: seq<seq<Row>>): seq<Row> {
    match op
    case Scan(table, _, condition) => Select(env, condition, env.table(table))
    case Filter(condition) => Select(env, Some(condition), Input(inputs, 0))
    case Project(exprs, names, pairs) => ProjectRows(env, exprs, names, pairs, Input(inputs, 0))
    case AggregateAll(outputs, functions) => [AggregateRow(env, outputs, functions, Input(inputs, 0))]
    case Group(columns, outputs, functions) => GroupRows(env, Elements(columns), outputs, functions, Input(inputs, 0))
    case HashJoin(_, _, _) => Join(env, op, Input(inputs, 0), Input(inputs, 1))
    case NestedLoopJoin(_, _) => Join(env, op, Input(inputs, 0), Input(inputs, 1))
    case Sort(id, keys) => Pick(Input(inputs, 0), env.order(id, Cut(Input(inputs, 0), Elements(keys))))
    case LimitSort(id, k, keys) =>
      Limit(k, Pick(Input(inputs, 0), env.order(id, Cut(Input(inputs, 0), Elements(keys)))))
  }

  function Eval(env: Env, p: Plan): seq<Row> {
    Cut(Compute(env, p.op, seq(|p.producers|, i requires 0 <= i < |p.producers| => Eval(env, p.producers[i]))), p.project)
  }

  // ---------------------------------------------------------------------------
  // Cutting

  lemma RestrictTwice(r: Row, a: set<string>, b: set<string>)
    requires b <= a
    ensures Restrict(Restrict(r, a), b) == Restrict(r, b)
  {
  }

  lemma CutTwice(rows: seq<Row>, a: set<string>, b: set<string>)
    requires b <= a
    ensures Cut(Cut(rows, a), b) == Cut(rows, b)
  {
    forall i | 0 <= i < |rows|
      ensures Cut(Cut(rows, a), b)[i] == Cut(rows, b)[i]
    {
      RestrictTwice(rows[i], a, b);
    }
  }

  lemma CutAppend(x: seq<Row>, y: seq<Row>, a: set<string>)
    ensures Cut(x + y, a) == Cut(x, a) + Cut(y, a)
  {
  }

  lemma CutTail(rows: seq<Row>, a: set<string>)
    requires rows != []
    ensures Cut(rows, a)[0] == Restrict(rows[0], a) && Cut(rows, a)[1..] == Cut(rows[1..], a)
  {
  }

  // ---------------------------------------------------------------------------
  // Each operator reads only its used columns

  lemma {:induction false} SelectCut(env: Env, condition: Option<Expr>, rows: seq<Row>, a: set<string>)
    requires ColumnsOfOption(condition) <= a
    ensures Select(env, condition, Cut(rows, a)) == Cut(Select(env, condition, rows), a)
    decreases |rows|
  {
    if rows != [] {
      CutTail(rows, a);
      if condition.Some? {
        RestrictTwice(rows[0], a, condition.value.columns);
      }
      SelectCut(env, condition, rows[1..], a);
      var head := if Holds(env, condition, rows[0]) then [rows[0]] else [];
      CutAppend(head, Select(env, condition, rows[1..]), a);
    }
  }

  lemma {:induction false} PairsRowReads(pairs: seq<(string, string)>, r: Row, a: set<string>)
    requires Sources(pairs) <= a
    ensures PairsRow(pairs, Restrict(r, a)) == PairsRow(pairs, r)
    decreases |pairs|
  {
    if pairs != [] {
      assert pairs[0] in pairs && pairs[0].0 in Sources(pairs);
      assert forall p | p in pairs[1..] :: p in pairs;
      PairsRowReads(pairs[1..], r, a);
    }
  }

  lemma {:induction false} ExprsRowReads(env: Env, exprs: seq<Expr>, names: seq<string>, r: Row, a: set<string>)
    requires ColumnsOfExprs(exprs) <= a
    ensures ExprsRow(env, exprs, names, Restrict(r, a)) == ExprsRow(env, exprs, names, r)
    decreases |exprs|
  {
    if exprs != [] && names != [] {
      RestrictTwice(r, a, exprs[0].columns);
      ExprsRowReads(env, exprs[1..], names[1..], r, a);
    }
  }

  lemma ProjectRowsRead(env: Env, exprs: seq<Expr>, names: seq<string>, pairs: seq<(string, string)>, rows: seq<Row>, a: set<string>)
    requires Sources(pairs) <= a && ColumnsOfExprs(exprs) <= a
    ensures ProjectRows(env, exprs, names, pairs, Cut(rows, a)) == ProjectRows(env, exprs, names, pairs, rows)
  {
    forall i | 0 <= i < |rows|
      ensures ProjectRows(env, exprs, names, pairs, Cut(rows, a))[i] == ProjectRows(env, exprs, names, pairs, rows)[i]
    {
      PairsRowReads(pairs, rows[i], a);
      ExprsRowReads(env, exprs, names, rows[i], a);
    }
  }

  lemma {:induction false} AggregateRowReads(env: Env, outputs: seq<string>, functions: seq<Aggregate>, rows: seq<Row>, a: set<string>)
    requires ColumnsOfFunctions(functions) <= a
    ensures AggregateRow(env, outputs, functions, Cut(rows, a)) == AggregateRow(env, outputs, functions, rows)
    decreases |functions|
  {
    if outputs != [] && functions != [] {
      CutTwice(rows, a, functions[0].InvolvedColumns());
      AggregateRowReads(env, outputs[1..], functions[1..], rows, a);
    }
  }

  lemma {:induction false} RowsWithKeyCut(key: Row, columns: set<string>, rows: seq<Row>, a: set<string>)
    requires columns <= a
    ensures RowsWithKey(key, columns, Cut(rows, a)) == Cut(RowsWithKey(key, columns, rows), a)
    decreases |rows|
  {
    if rows != [] {
      CutTail(rows, a);
      RestrictTwice(rows[0], a, columns);
      RowsWithKeyCut(key, columns, rows[1..], a);
      var head := if Restrict(rows[0], columns) == key then [rows[0]] else [];
      CutAppend(head, RowsWithKey(key, columns, rows[1..]), a);
    }
  }

  lemma GroupRowsRead(env: Env, columns: set<string>, outputs: seq<string>, functions: seq<Aggregate>, rows: seq<Row>, a: set<string>)
    requires columns <= a && ColumnsOfFunctions(functions) <= a
    ensures GroupRows(env, columns, outputs, functions, Cut(rows, a)) == GroupRows(env, columns, outputs, functions, rows)
  {
    CutTwice(rows, a, columns);
    var keys := KeysOf(Cut(rows, columns));
    forall i | 0 <= i < |keys|
      ensures GroupRows(env, columns, outputs, functions, Cut(rows, a))[i] == GroupRows(env, columns, outputs, functions, rows)[i]
    {
      RowsWithKeyCut(keys[i], columns, rows, a);
      AggregateRowReads(env, outputs, functions, RowsWithKey(keys[i], columns, rows), a);
    }
  }

  /** The columns a join compares. */
  function JoinColumns(op: Operator): set<string>
    requires op.HashJoin? || op.NestedLoopJoin?
  {
    match op
    case HashJoin(_, left, right) => Elements(left) + Elements(right)
    case NestedLoopJoin(_, condition) => ColumnsOfOption(condition)
  }

  lemma RestrictUnion(l: Row, r: Row, a: set<string>)
    ensures Restrict(l + r, a) == Restrict(l, a) + Restrict(r, a)
  {
  }

  lemma MatchesCut(env: Env, op: Operator, l: Row, r: Row, a: set<string>)
    requires op.HashJoin? || op.NestedLoopJoin?
    requires JoinColumns(op) <= a
    ensures Matches(env, op, Restrict(l, a), Restrict(r, a)) == Matches(env, op, l, r)
  {
    match op
    case HashJoin(_, left, right) =>
      assert forall i | 0 <= i < |left| :: left[i] in Elements(left);
      assert forall i | 0 <= i < |right| :: right[i] in Elements(right);
    case NestedLoopJoin(_, condition) =>
      RestrictUnion(l, r, a);
      if condition.Some? {
        RestrictTwice(l + r, a, condition.value.columns);
      }
  }

  lemma {:induction false} PairingsCut(env: Env, op: Operator, l: Row, right: seq<Row>, a: set<string>)
    requires op.HashJoin? || op.NestedLoopJoin?
    requires JoinColumns(op) <= a
    ensures Pairings(env, op, Restrict(l, a), Cut(right, a)) == Cut(Pairings(env, op, l, right), a)
    decreases |right|
  {
    if right != [] {
      CutTail(right, a);
      MatchesCut(env, op, l, right[0], a);
      RestrictUnion(l, right[0], a);
      PairingsCut(env, op, l, right[1..], a);
      var head := if Matches(env, op, l, right[0]) then [l + right[0]] else [];
      CutAppend(head, Pairings(env, op, l, right[1..]), a);
    }
  }

  lemma {:induction false} LeftRowsCut(env: Env, op: Operator, left: seq<Row>, right: seq<Row>, a: set<string>)
    requires op.HashJoin? || op.NestedLoopJoin?
    requires JoinColumns(op) <= a
    ensures LeftRows(env, op, Cut(left, a), Cut(right, a)) == Cut(LeftRows(env, op, left, right), a)
    decreases |left|
  {
    if left != [] {
      CutTail(left, a);
      PairingsCut(env, op, left[0], right, a);
      LeftRowsCut(env, op, left[1..], right, a);
      CutAppend(LeftPart(op.joinType, left[0], Pairings(env, op, left[0], right)), LeftRows(env, op, left[1..], right), a);
      LeftPartCut(op.joinType, left[0], Pairings(env, op, left[0], right), a);
    }
  }

  lemma LeftPartCut(joinType: JoinType, l: Row, pairings: seq<Row>, a: set<string>)
    ensures LeftPart(joinType, Restrict(l, a), Cut(pairings, a)) == Cut(LeftPart(joinType, l, pairings), a)
  {
  }

  lemma MatchesAnyCut(env: Env, op: Operator, left: seq<Row>, r: Row, a: set<string>)
    requires op.HashJoin? || op.NestedLoopJoin?
    requires JoinColumns(op) <= a
    ensures MatchesAny(env, op, Cut(left, a), Restrict(r, a)) == MatchesAny(env, op, left, r)
  {
    forall i | 0 <= i < |left|
      ensures Matches(env, op, Cut(left, a)[i], Restrict(r, a)) == Matches(env, op, left[i], r)
    {
      MatchesCut(env, op, left[i], r, a);
    }
    if MatchesAny(env, op, left, r) {
      var i :| 0 <= i < |left| && Matches(env, op, left[i], r);
      assert Matches(env, op, Cut(left, a)[i], Restrict(r, a));
    }
  }

  lemma {:induction false} UnmatchedRightCut(env: Env, op: Operator, left: seq<Row>, right: seq<Row>, a: set<string>)
    requires op.HashJoin? || op.NestedLoopJoin?
    requires JoinColumns(op) <= a
    ensures UnmatchedRight(env, op, Cut(left, a), Cut(right, a)) == Cut(UnmatchedRight(env, op, left, right), a)
    decreases |right|
  {
    if right != [] {
      CutTail(right, a);
      MatchesAnyCut(env, op, left, right[0], a);
      UnmatchedRightCut(env, op, left, right[1..], a);
      var head := if MatchesAny(env, op, left, right[0]) then [] else [right[0]];
      CutAppend(head, UnmatchedRight(env, op, left, right[1..]), a);
    }
  }

  lemma JoinCut(env: Env, op: Operator, left: seq<Row>, right: seq<Row>, a: set<string>)
    requires op.HashJoin? || op.NestedLoopJoin?
    requires JoinColumns(op) <= a
    ensures Join(env, op, Cut(left, a), Cut(right, a)) == Cut(Join(env, op, left, right), a)
  {
    LeftRowsCut(env, op, left, right, a);
    UnmatchedRightCut(env, op, left, right, a);
    var rest := if op.joinType.Right? || op.joinType.Full? then UnmatchedRight(env, op, left, right) else [];
    CutAppend(LeftRows(env, op, left, right), rest, a);
  }

  lemma {:induction false} PickCut(rows: seq<Row>, indexes: seq<nat>, a: set<string>)
    ensures Pick(Cut(rows, a), indexes) == Cut(Pick(rows, indexes), a)
    decreases |indexes|
  {
    if indexes != [] {
      PickCut(rows, indexes[1..], a);
      var head := if indexes[0] < |rows| then [rows[indexes[0]]] else [];
      CutAppend(head, Pick(rows, indexes[1..]), a);
    }
  }

  lemma LimitCut(k: int, rows: seq<Row>, a: set<string>)
    ensures Limit(k, Cut(rows, a)) == Cut(Limit(k, rows), a)
  {
  }

  function CutAll(inputs: seq<seq<Row>>, a: set<string>): seq<seq<Row>> {
    seq(|inputs|, i requires 0 <= i < |inputs| => Cut(inputs[i], a))
  }

  lemma InputCut(inputs: seq<seq<Row>>, i: nat, a: set<string>)
    ensures Input(CutAll(inputs, a), i) == Cut(Input(inputs, i), a)
  {
  }

  /** An operator that emits `project` depends on its inputs only through the columns that
      `getUsedColumnNames` names. */
  lemma ReadsOnlyUsed(env: Env, op: Operator, project: set<string>, inputs: seq<seq<Row>>)
    ensures var used := Used(op, project);
            Cut(Compute(env, op, CutAll(inputs, used)), project) == Cut(Compute(env, op, inputs), project)
  {
    var used := Used(op, project);
    InputCut(inputs, 0, used);
    InputCut(inputs, 1, used);
    var in0, in1 := Input(inputs, 0), Input(inputs, 1);
    match op
    case Scan(_, _, _) =>
    case Filter(condition) =>
      SelectCut(env, Some(condition), in0, used);
      CutTwice(Compute(env, op, inputs), used, project);
    case Project(exprs, names, pairs) => ProjectRowsRead(env, exprs, names, pairs, in0, used);
    case AggregateAll(outputs, functions) => AggregateRowReads(env, outputs, functions, in0, used);
    case Group(columns, outputs, functions) => GroupRowsRead(env, Elements(columns), outputs, functions, in0, used);
    case HashJoin(_, _, _) =>
      JoinCut(env, op, in0, in1, used);
      CutTwice(Compute(env, op, inputs), used, project);
    case NestedLoopJoin(_, _) =>
      JoinCut(env, op, in0, in1, used);
      CutTwice(Compute(env, op, inputs), used, project);
    case Sort(id, keys) =>
      CutTwice(in0, used, Elements(keys));
      PickCut(in0, env.order(id, Cut(in0, Elements(keys))), used);
      CutTwice(Compute(env, op, inputs), used, project);
    case LimitSort(id, k, keys) =>
      CutTwice(in0, used, Elements(keys));
      var picked := env.order(id, Cut(in0, Elements(keys)));
      PickCut(in0, picked, used);
      LimitCut(k, Pick(in0, picked), used);
      CutTwice(Compute(env, op, inputs), used, project);
  }
}
