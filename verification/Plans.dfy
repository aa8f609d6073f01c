/** Pre-physical query plans and the two passes over them: populating the project columns
    upwards and trimming the unused ones downwards. */
module Plans {
  import opened Collections
  import opened StringOrder

  const COUNT_STAR_COLUMN := "COUNT_*"
  const DUMMY_COLUMN_PREFIX := "dummy"

  /** An expression: which one it is, and the columns it involves. */
  datatype Expr = Expr(id: nat, columns: set<string>)

  /** An aggregate function; without an expression it is count(*) or a function of no column. */
  datatype Aggregate = Aggregate(id: nat, isCount: bool, expr: Option<Expr>)
  {
    function InvolvedColumns(): set<string> {
      match expr
      case Some(e) => e.columns
      case None => if isCount then {COUNT_STAR_COLUMN} else {}
    }
  }

  datatype JoinType = Inner | Left | Right | Full | Semi

  /** The operators. `firstColumn` is the first column of the scanned table; `pairs` are a
      projection's (input name, output name) pairs. */
  datatype Operator =
    | Scan(table: nat, firstColumn: string, scanCondition: Option<Expr>)
    | Filter(condition: Expr)
    | Project(exprs: seq<Expr>, exprNames: seq<string>, pairs: seq<(string, string)>)
    | AggregateAll(outputs: seq<string>, functions: seq<Aggregate>)
    | Group(groupColumns: seq<string>, outputs: seq<string>, functions: seq<Aggregate>)
    | HashJoin(joinType: JoinType, leftColumns: seq<string>, rightColumns: seq<string>)
    | NestedLoopJoin(joinType: JoinType, joinCondition: Option<Expr>)
    | Sort(id: nat, keys: seq<string>)
    | LimitSort(id: nat, k: int, keys: seq<string>)

  datatype Plan = Plan(op: Operator, project: set<string>, producers: seq<Plan>)

  function ColumnsOfExprs(exprs: seq<Expr>): set<string> {
    if exprs == [] then {} else exprs[0].columns + ColumnsOfExprs(exprs[1..])
  }

  function ColumnsOfFunctions(functions: seq<Aggregate>): set<string> {
    if functions == [] then {} else functions[0].InvolvedColumns() + ColumnsOfFunctions(functions[1..])
  }

  function ColumnsOfOption(e: Option<Expr>): set<string> {
    match e case Some(x) => x.columns case None => {}
  }

  function Sources(pairs: seq<(string, string)>): set<string> {
    set p | p in pairs :: p.0
  }

  function Targets(pairs: seq<(string, string)>): set<string> {
    set p | p in pairs :: p.1
  }

  /** `getUsedColumnNames` of each operator, given its project columns. */
  function Used(op: Operator, project: set<string>): set<string> {
    match op
    case Scan(_, _, condition) => project + ColumnsOfOption(condition)
    case Filter(condition) => project + condition.columns
    case Project(exprs, _, pairs) => project + Sources(pairs) + ColumnsOfExprs(exprs)
    case AggregateAll(_, functions) => ColumnsOfFunctions(functions)
    case Group(groupColumns, _, functions) => Elements(groupColumns) + ColumnsOfFunctions(functions)
    case HashJoin(_, left, right) => project + Elements(left) + Elements(right)
    case NestedLoopJoin(_, condition) => project + ColumnsOfOption(condition)
    case Sort(_, keys) => project + Elements(keys)
    case LimitSort(_, _, keys) => project + Elements(keys)
  }

  function KeepPairs(pairs: seq<(string, string)>, project: set<string>): seq<(string, string)> {
    if pairs == [] then []
    else (if pairs[0].1 in project then [pairs[0]] else []) + KeepPairs(pairs[1..], project)
  }

  /** `added` lists the columns that neither a pair nor an expression produces; each gets an
      identity pair, and pairs to columns no longer projected go. */
  function UpdatePairs(pairs: seq<(string, string)>, project: set<string>, added: seq<string>): seq<(string, string)> {
    KeepPairs(pairs + Identities(added), project)
  }

  function Identities(columns: seq<string>): seq<(string, string)> {
    seq(|columns|, i requires 0 <= i < |columns| => (columns[i], columns[i]))
  }

  /** The columns of `project` a projection does not produce yet. */
  function Missing(op: Operator, project: set<string>): set<string>
    requires op.Project?
  {
    project - Elements(op.exprNames) - Targets(op.pairs)
  }

  /** `setProjectColumnNames`: what becomes of the operator itself ... */
  function SetOp(op: Operator, project: set<string>): Operator {
    if op.Project? then op.(pairs := UpdatePairs(op.pairs, project, Sorted(Missing(op, project)))) else op
  }

  /** ... and of its project columns: a scan must not scan no columns. */
  function SetColumns(op: Operator, project: set<string>): set<string> {
    if op.Scan? && project == {} then {op.firstColumn} else project
  }

  predicate IsDummy(column: string) {
    DUMMY_COLUMN_PREFIX <= column
  }

  /** The project columns that survive, given what the consumer uses. */
  function Kept(project: set<string>, used: set<string>): set<string> {
    if COUNT_STAR_COLUMN in used then project
    else set c | c in project && (IsDummy(c) || c in used)
  }

  /** `populateProjectColumnsDfs`: the new plan and the columns reported to the consumer. */
  ghost function Populate(p: Plan): (Plan, set<string>)
    decreases p, |p.producers| + 1
  {
    var producers := seq(|p.producers|, i requires 0 <= i < |p.producers| => Populate(p.producers[i]).0);
    var up := Reported(p, |p.producers|);
    if p.project == {} then (Plan(SetOp(p.op, up), SetColumns(p.op, up), producers), up)
    else (Plan(p.op, p.project, producers), p.project)
  }

  /** The columns that the first `n` producers report. */
  ghost function Reported(p: Plan, n: nat): set<string>
    requires n <= |p.producers|
    decreases p, n
  {
    if n == 0 then {} else Reported(p, n - 1) + Populate(p.producers[n - 1]).1
  }

  function TrimOp(p: Plan, down: Option<set<string>>): Operator {
    match down case None => p.op case Some(used) => SetOp(p.op, Kept(p.project, used))
  }

  function TrimColumns(p: Plan, down: Option<set<string>>): set<string> {
    match down case None => p.project case Some(used) => SetColumns(p.op, Kept(p.project, used))
  }

  /** `trimProjectColumnsDfs` */
  function Trim(p: Plan, down: Option<set<string>>): Plan {
    var op, project := TrimOp(p, down), TrimColumns(p, down);
    Plan(op, project, seq(|p.producers|, i requires 0 <= i < |p.producers| => Trim(p.producers[i], Some(Used(op, project)))))
  }

  // ---------------------------------------------------------------------------
  // Said of single columns

  lemma {:induction false} ColumnsOfExprsHas(exprs: seq<Expr>, c: string)
    ensures c in ColumnsOfExprs(exprs) <==> exists e | e in exprs :: c in e.columns
    decreases |exprs|
  {
    if exprs != [] {
      ColumnsOfExprsHas(exprs[1..], c);
      assert forall e :: e in exprs <==> e == exprs[0] || e in exprs[1..];
    }
  }

  lemma {:induction false} ColumnsOfFunctionsHas(functions: seq<Aggregate>, c: string)
    ensures c in ColumnsOfFunctions(functions) <==> exists f | f in functions :: Involves(f, c)
    decreases |functions|
  {
    if functions != [] {
      ColumnsOfFunctionsHas(functions[1..], c);
      assert forall f :: f in functions <==> f == functions[0] || f in functions[1..];
      assert Involves(functions[0], c) <==> c in functions[0].InvolvedColumns();
    }
  }

  /** A function involves the columns of its expression; count(*) has none and involves "COUNT_*". */
  ghost predicate Involves(f: Aggregate, c: string) {
    if f.expr.Some? then c in f.expr.value.columns else f.isCount && c == "COUNT_*"
  }

  /** The columns that an operator looks at itself, whatever it projects. */
  ghost predicate LooksAt(op: Operator, c: string) {
    match op
    case Scan(_, _, condition) => condition.Some? && c in condition.value.columns
    case Filter(condition) => c in condition.columns
    case Project(exprs, _, pairs) => (exists e | e in exprs :: c in e.columns) || (exists q | q in pairs :: q.0 == c)
    case AggregateAll(_, functions) => exists f | f in functions :: Involves(f, c)
    case Group(groupColumns, _, functions) => c in groupColumns || exists f | f in functions :: Involves(f, c)
    case HashJoin(_, left, right) => c in left || c in right
    case NestedLoopJoin(_, condition) => condition.Some? && c in condition.value.columns
    case Sort(_, keys) => c in keys
    case LimitSort(_, _, keys) => c in keys
  }

  /** A column is used exactly if the operator looks at it or, unless it aggregates, projects it. */
  lemma UsedExactly(op: Operator, project: set<string>, c: string)
    ensures c in Used(op, project) <==> LooksAt(op, c) || (!op.AggregateAll? && !op.Group? && c in project)
  {
    match op
    case Project(exprs, _, pairs) => ColumnsOfExprsHas(exprs, c);
    case AggregateAll(_, functions) => ColumnsOfFunctionsHas(functions, c);
    case Group(_, _, functions) => ColumnsOfFunctionsHas(functions, c);
    case _ =>
  }

  /** Which columns a consumer that uses `used` leaves to its producer. */
  lemma KeptExactly(project: set<string>, used: set<string>, c: string)
    ensures c in Kept(project, used) <==>
            c in project && ("COUNT_*" in used || c in used || (|c| >= 5 && c[..5] == "dummy"))
  {
    assert |c| >= 5 ==> ("dummy" <= c <==> c[..5] == "dummy");
  }

  /** A scan always scans something, and falls back only if nothing is left. */
  lemma ScansSomething(op: Operator, project: set<string>)
    ensures op.Scan? ==> SetColumns(op, project) != {}
    ensures project != {} || !op.Scan? ==> SetColumns(op, project) == project
    ensures op.Scan? && project == {} ==> SetColumns(op, project) == {op.firstColumn}
  {
  }
}
