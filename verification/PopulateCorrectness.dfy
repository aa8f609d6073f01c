/** Populating project columns: which columns every operator gets, and that this preserves the meaning
    of a plan in which an operator without project columns passes on whatever it is given. */
module PopulateCorrectness {
  import opened Collections
  import opened Plans
  import opened PlanSemantics
  import opened TrimCorrectness

  // ---------------------------------------------------------------------------
  // Which columns

  ghost predicate SameShape(p: Plan, t: Plan) {
    |t.producers| == |p.producers| && forall i | 0 <= i < |p.producers| :: SameShape(p.producers[i], t.producers[i])
  }

  /** What `t`, the populated `p`, offers to its consumer: the columns it projects. Only a scan that had
      none, and falls back to one, keeps quiet about it. */
  ghost function Offered(p: Plan, t: Plan): set<string>
    requires SameShape(p, t)
    decreases p, 1
  {
    if p.project == {} && p.op.Scan? && Below(p, t) == {} then {} else t.project
  }

  /** What the producers offer together. */
  ghost function Below(p: Plan, t: Plan): set<string>
    requires SameShape(p, t)
    decreases p, 0
  {
    set i, c | 0 <= i < |p.producers| && c in Offered(p.producers[i], t.producers[i]) :: c
  }

  /** An operator whose columns were set stays as it is. One whose columns were not gets what its
      producers offer, and a scan that would scan nothing the first column of its table. */
  ghost predicate PopulatedOperator(p: Plan, t: Plan)
    requires SameShape(p, t)
  {
    var below := Below(p, t);
    if p.project != {} then t.op == p.op && t.project == p.project
    else t.op == SetOp(p.op, below) && t.project == if p.op.Scan? && below == {} then {p.op.firstColumn} else below
  }

  ghost predicate PopulatedFrom(p: Plan, t: Plan) {
    && SameShape(p, t) && PopulatedOperator(p, t)
    && forall i | 0 <= i < |p.producers| :: PopulatedFrom(p.producers[i], t.producers[i])
  }

  /** The pass does that everywhere, and reports what the root then offers. */
  lemma {:induction false} PopulateExactly(p: Plan)
    ensures PopulatedFrom(p, Populate(p).0) && Populate(p).1 == Offered(p, Populate(p).0)
    decreases p
  {
    var t := Populate(p).0;
    forall i | 0 <= i < |p.producers|
      ensures PopulatedFrom(p.producers[i], t.producers[i])
      ensures Populate(p.producers[i]).1 == Offered(p.producers[i], t.producers[i])
    {
      PopulateExactly(p.producers[i]);
    }
    assert SameShape(p, t);
    var up := Reported(p, |p.producers|);
    forall c
      ensures c in Below(p, t) <==> c in up
    {
      ReportedHas(p, |p.producers|, c);
    }
    assert Below(p, t) == up;
  }

  lemma {:induction false} ReportedHas(p: Plan, n: nat, c: string)
    requires n <= |p.producers|
    ensures c in Reported(p, n) <==> exists i | 0 <= i < n :: c in Populate(p.producers[i]).1
    decreases n
  {
    if n > 0 {
      ReportedHas(p, n - 1, c);
      assert c in Populate(p.producers[n - 1]).1 ==> exists i | 0 <= i < n :: c in Populate(p.producers[i]).1;
    }
  }

  /** And there is only one such plan. */
  lemma {:induction false} PopulatedIsUnique(p: Plan, t: Plan, t': Plan)
    requires PopulatedFrom(p, t) && PopulatedFrom(p, t')
    ensures t == t'
    decreases p
  {
    forall i | 0 <= i < |p.producers|
      ensures t.producers[i] == t'.producers[i]
    {
      PopulatedIsUnique(p.producers[i], t.producers[i], t'.producers[i]);
    }
    assert t.producers == t'.producers;
    assert Below(p, t) == Below(p, t');
  }

  // ---------------------------------------------------------------------------
  // What the plan means before

  /** The rows of a plan in which only operators with project columns cut their result. */
  ghost function Meaning(env: Env, p: Plan): seq<Row> {
    var rows := Compute(env, p.op, seq(|p.producers|, i requires 0 <= i < |p.producers| => Meaning(env, p.producers[i])));
    if p.project == {} then rows else Cut(rows, p.project)
  }

  /** The operators whose rows have no columns but those of their inputs. */
  predicate PassesOn(op: Operator) {
    op.Filter? || op.HashJoin? || op.NestedLoopJoin? || op.Sort? || op.LimitSort?
  }

  /** Only such operators may be without project columns. */
  ghost predicate UnsetPassOn(p: Plan) {
    (p.project == {} ==> PassesOn(p.op)) && forall i | 0 <= i < |p.producers| :: UnsetPassOn(p.producers[i])
  }

  ghost predicate Within(rows: seq<Row>, columns: set<string>) {
    forall i | 0 <= i < |rows| :: rows[i].Keys <= columns
  }

  lemma CutWithin(rows: seq<Row>, columns: set<string>)
    requires Within(rows, columns)
    ensures Cut(rows, columns) == rows
  {
    forall i | 0 <= i < |rows|
      ensures Cut(rows, columns)[i] == rows[i]
    {
      assert Restrict(rows[i], columns) == rows[i];
    }
  }

  lemma CutIsWithin(rows: seq<Row>, columns: set<string>)
    ensures Within(Cut(rows, columns), columns)
  {
  }

  lemma WithinAppend(a: seq<Row>, b: seq<Row>, columns: set<string>)
    requires Within(a, columns) && Within(b, columns)
    ensures Within(a + b, columns)
  {
  }

  lemma {:induction false} SelectWithin(env: Env, condition: Option<Expr>, rows: seq<Row>, columns: set<string>)
    requires Within(rows, columns)
    ensures Within(Select(env, condition, rows), columns)
    decreases |rows|
  {
    if rows != [] {
      SelectWithin(env, condition, rows[1..], columns);
      WithinAppend(if Holds(env, condition, rows[0]) then [rows[0]] else [], Select(env, condition, rows[1..]), columns);
    }
  }

  lemma {:induction false} PairingsWithin(env: Env, op: Operator, l: Row, right: seq<Row>, columns: set<string>)
    requires (op.HashJoin? || op.NestedLoopJoin?) && l.Keys <= columns && Within(right, columns)
    ensures Within(Pairings(env, op, l, right), columns)
    decreases |right|
  {
    if right != [] {
      PairingsWithin(env, op, l, right[1..], columns);
      WithinAppend(if Matches(env, op, l, right[0]) then [l + right[0]] else [], Pairings(env, op, l, right[1..]), columns);
    }
  }

  lemma {:induction false} LeftRowsWithin(env: Env, op: Operator, left: seq<Row>, right: seq<Row>, columns: set<string>)
    requires (op.HashJoin? || op.NestedLoopJoin?) && Within(left, columns) && Within(right, columns)
    ensures Within(LeftRows(env, op, left, right), columns)
    decreases |left|
  {
    if left != [] {
      PairingsWithin(env, op, left[0], right, columns);
      LeftRowsWithin(env, op, left[1..], right, columns);
      WithinAppend(LeftPart(op.joinType, left[0], Pairings(env, op, left[0], right)), LeftRows(env, op, left[1..], right), columns);
    }
  }

  lemma {:induction false} UnmatchedWithin(env: Env, op: Operator, left: seq<Row>, right: seq<Row>, columns: set<string>)
    requires (op.HashJoin? || op.NestedLoopJoin?) && Within(right, columns)
    ensures Within(UnmatchedRight(env, op, left, right), columns)
    decreases |right|
  {
    if right != [] {
      UnmatchedWithin(env, op, left, right[1..], columns);
      WithinAppend(if MatchesAny(env, op, left, right[0]) then [] else [right[0]], UnmatchedRight(env, op, left, right[1..]), columns);
    }
  }

  lemma {:induction false} PickWithin(rows: seq<Row>, indexes: seq<nat>, columns: set<string>)
    requires Within(rows, columns)
    ensures Within(Pick(rows, indexes), columns)
    decreases |indexes|
  {
    if indexes != [] {
      PickWithin(rows, indexes[1..], columns);
      WithinAppend(if indexes[0] < |rows| then [rows[indexes[0]]] else [], Pick(rows, indexes[1..]), columns);
    }
  }

  lemma ComputeWithin(env: Env, op: Operator, inputs: seq<seq<Row>>, columns: set<string>)
    requires PassesOn(op) && forall i | 0 <= i < |inputs| :: Within(inputs[i], columns)
    ensures Within(Compute(env, op, inputs), columns)
  {
    assert Within(Input(inputs, 0), columns) && Within(Input(inputs, 1), columns);
    match op
    case Filter(condition) => SelectWithin(env, Some(condition), Input(inputs, 0), columns);
    case HashJoin(_, _, _) => JoinWithin(env, op, Input(inputs, 0), Input(inputs, 1), columns);
    case NestedLoopJoin(_, _) => JoinWithin(env, op, Input(inputs, 0), Input(inputs, 1), columns);
    case Sort(id, keys) => PickWithin(Input(inputs, 0), env.order(id, Cut(Input(inputs, 0), Elements(keys))), columns);
    case LimitSort(id, k, keys) => PickWithin(Input(inputs, 0), env.order(id, Cut(Input(inputs, 0), Elements(keys))), columns);
  }

  lemma JoinWithin(env: Env, op: Operator, left: seq<Row>, right: seq<Row>, columns: set<string>)
    requires (op.HashJoin? || op.NestedLoopJoin?) && Within(left, columns) && Within(right, columns)
    ensures Within(Join(env, op, left, right), columns)
  {
    LeftRowsWithin(env, op, left, right, columns);
    UnmatchedWithin(env, op, left, right, columns);
  }

  // ---------------------------------------------------------------------------
  // Populating preserves meaning

  ghost function Meanings(env: Env, p: Plan): seq<seq<Row>> {
    seq(|p.producers|, i requires 0 <= i < |p.producers| => Meaning(env, p.producers[i]))
  }

  /** For all tables, expressions, aggregates and orderings, the populated plan gives the rows of the
      plan before, and they have no columns but those reported. */
  lemma {:induction false} PopulatePreservesMeaning(env: Env, p: Plan)
    requires UnsetPassOn(p)
    ensures Eval(env, Populate(p).0) == Meaning(env, p) && Within(Meaning(env, p), Populate(p).1)
    decreases p
  {
    var t, up := Populate(p).0, Reported(p, |p.producers|);
    forall i | 0 <= i < |p.producers|
      ensures Inputs(env, t)[i] == Meanings(env, p)[i] && Within(Meanings(env, p)[i], up)
    {
      PopulatePreservesMeaning(env, p.producers[i]);
      forall c | c in Populate(p.producers[i]).1
        ensures c in up
      {
        ReportedHas(p, |p.producers|, c);
      }
    }
    assert Inputs(env, t) == Meanings(env, p);
    if p.project == {} {
      ComputeWithin(env, p.op, Meanings(env, p), up);
      CutWithin(Compute(env, p.op, Meanings(env, p)), up);
    } else {
      CutIsWithin(Compute(env, p.op, Meanings(env, p)), p.project);
    }
  }

  /** A scan without project columns is the exception: the populated plan has only its first column. */
  lemma UnsetScanKeepsFirstColumn(env: Env, p: Plan)
    requires p.op.Scan? && p.project == {} && p.producers == []
    ensures Eval(env, Populate(p).0) == Cut(Meaning(env, p), {p.op.firstColumn}) && Populate(p).1 == {}
  {
    assert Populate(p).0.producers == [];
  }

  /** Both passes together: the plan that is executed gives the rows of the plan that was made. */
  lemma BothPassesPreserveMeaning(env: Env, p: Plan)
    requires UnsetPassOn(p) && CoveredPlan(p) && NamesResolve(Populate(p).0)
    ensures Eval(env, Trim(Populate(p).0, None)) == Meaning(env, p)
  {
    PopulatePreservesMeaning(env, p);
    PopulateAndTrimPreservesMeaning(env, p);
  }
}
