/** Trimming project columns preserves the meaning of a plan, keeps exactly what is used, and
    has nothing left to do a second time. */
module TrimCorrectness {
  import opened Collections
  import opened StringOrder
  import opened Plans
  import opened PlanSemantics

  /** A projection produces every column it projects: `setProjectColumnNames` sees to it. */
  predicate Covered(op: Operator, project: set<string>) {
    op.Project? ==> Missing(op, project) == {}
  }

  ghost predicate CoveredPlan(p: Plan) {
    Covered(p.op, p.project) && forall i | 0 <= i < |p.producers| :: CoveredPlan(p.producers[i])
  }

  // ---------------------------------------------------------------------------
  // Setting project columns

  lemma {:induction false} KeptPairs(pairs: seq<(string, string)>, project: set<string>, q: (string, string))
    ensures q in KeepPairs(pairs, project) <==> q in pairs && q.1 in project
    decreases |pairs|
  {
    if pairs != [] {
      KeptPairs(pairs[1..], project, q);
      assert pairs == [pairs[0]] + pairs[1..];
    }
  }

  lemma {:induction false} KeepPairsTwice(pairs: seq<(string, string)>, project: set<string>)
    ensures KeepPairs(KeepPairs(pairs, project), project) == KeepPairs(pairs, project)
    decreases |pairs|
  {
    if pairs != [] {
      KeepPairsTwice(pairs[1..], project);
      var rest := KeepPairs(pairs[1..], project);
      if pairs[0].1 in project {
        assert ([pairs[0]] + rest)[1..] == rest;
      } else {
        assert [] + rest == rest;
      }
    }
  }

  /** After the columns of an operator are set, it produces all of them. */
  lemma SetOpCovers(op: Operator, project: set<string>)
    ensures Covered(SetOp(op, project), project)
  {
    if op.Project? {
      var added := Sorted(Missing(op, project));
      var identity := Identities(added);
      var all := op.pairs + identity;
      forall c | c in project && c !in Elements(op.exprNames)
        ensures c in Targets(KeepPairs(all, project))
      {
        var q: (string, string);
        if c in Targets(op.pairs) {
          q :| q in op.pairs && q.1 == c;
          assert q in all;
        } else {
          assert c in Elements(added);
          var i :| 0 <= i < |added| && added[i] == c;
          q := identity[i];
          assert all[|op.pairs| + i] == q;
        }
        KeptPairs(all, project, q);
      }
    }
  }

  lemma SetOpTwice(op: Operator, project: set<string>)
    ensures SetOp(SetOp(op, project), project) == SetOp(op, project)
  {
    if op.Project? {
      SetOpCovers(op, project);
      var pairs := SetOp(op, project).pairs;
      assert Sorted({}) == [] && Identities([]) == [];
      assert pairs + [] == pairs;
      KeepPairsTwice(op.pairs + Identities(Sorted(Missing(op, project))), project);
    }
  }

  /** A covered projection only loses pairs when its columns shrink. */
  lemma SetOpShrinks(op: Operator, project: set<string>, smaller: set<string>)
    requires op.Project? && Covered(op, project) && smaller <= project
    ensures SetOp(op, smaller) == op.(pairs := KeepPairs(op.pairs, smaller))
  {
    assert Missing(op, smaller) == {};
    assert Sorted({}) == [] && Identities([]) == [];
    assert op.pairs + [] == op.pairs;
  }

  // ---------------------------------------------------------------------------
  // Shrinking the project columns only cuts the result

  lemma {:induction false} KeepPairsRow(pairs: seq<(string, string)>, project: set<string>, r: Row)
    ensures Restrict(PairsRow(KeepPairs(pairs, project), r), project) == Restrict(PairsRow(pairs, r), project)
    decreases |pairs|
  {
    if pairs != [] {
      KeepPairsRow(pairs[1..], project, r);
      var head: Row := if pairs[0].0 in r then map[pairs[0].1 := r[pairs[0].0]] else map[];
      var rest := KeepPairs(pairs[1..], project);
      RestrictUnion(head, PairsRow(pairs[1..], r), project);
      if pairs[0].1 in project {
        RestrictUnion(head, PairsRow(rest, r), project);
        assert ([pairs[0]] + rest)[1..] == rest;
      } else {
        assert Restrict(head, project) == map[];
        assert [] + rest == rest;
      }
    }
  }

  lemma ShrinkingCuts(env: Env, op: Operator, project: set<string>, smaller: set<string>, inputs: seq<seq<Row>>)
    requires Covered(op, project) && smaller <= project
    ensures Cut(Compute(env, SetOp(op, smaller), inputs), smaller) == Cut(Compute(env, op, inputs), smaller)
  {
    if op.Project? {
      SetOpShrinks(op, project, smaller);
      var rows := Input(inputs, 0);
      forall i | 0 <= i < |rows|
        ensures Cut(Compute(env, SetOp(op, smaller), inputs), smaller)[i] == Cut(Compute(env, op, inputs), smaller)[i]
      {
        KeepPairsRow(op.pairs, smaller, rows[i]);
        RestrictUnion(PairsRow(op.pairs, rows[i]), ExprsRow(env, op.exprs, op.exprNames, rows[i]), smaller);
        RestrictUnion(PairsRow(KeepPairs(op.pairs, smaller), rows[i]),
                      ExprsRow(env, op.exprs, op.exprNames, rows[i]), smaller);
      }
    }
  }

  // ---------------------------------------------------------------------------
  // Meaning is preserved

  /** The scan fallback re-introduces a table's first column. It must not be a column the consumer
      uses: the plan before trimming did not offer it. */
  predicate FallbackHidden(p: Plan, down: Option<set<string>>) {
    && (down.Some? && p.op.Scan? && Kept(p.project, down.value) == {} ==> p.op.firstColumn !in down.value)
    && forall i | 0 <= i < |p.producers| ::
         FallbackHidden(p.producers[i], Some(Used(TrimOp(p, down), TrimColumns(p, down))))
  }

  lemma CutMeets(rows: seq<Row>, a: set<string>, b: set<string>)
    ensures Cut(Cut(rows, a), b) == Cut(rows, a * b)
  {
    forall i | 0 <= i < |rows|
      ensures Cut(Cut(rows, a), b)[i] == Cut(rows, a * b)[i]
    {
      assert Restrict(Restrict(rows[i], a), b) == Restrict(rows[i], a * b);
    }
  }

  function Inputs(env: Env, p: Plan): seq<seq<Row>> {
    seq(|p.producers|, i requires 0 <= i < |p.producers| => Eval(env, p.producers[i]))
  }

  /** With the inputs equal on the used columns, a trimmed operator computes the old result, cut. */
  lemma TrimmedOperator(env: Env, p: Plan, used: set<string>, inputs: seq<seq<Row>>, inputs': seq<seq<Row>>)
    requires Covered(p.op, p.project)
    requires p.op.Scan? && Kept(p.project, used) == {} ==> p.op.firstColumn !in used
    requires var need := Used(TrimOp(p, Some(used)), TrimColumns(p, Some(used)));
             CutAll(inputs', need) == CutAll(inputs, need)
    ensures Cut(Cut(Compute(env, TrimOp(p, Some(used)), inputs'), TrimColumns(p, Some(used))), used) ==
            Cut(Cut(Compute(env, p.op, inputs), p.project), used)
  {
    var op', project' := TrimOp(p, Some(used)), TrimColumns(p, Some(used));
    ReadsOnlyUsed(env, op', project', inputs');
    ReadsOnlyUsed(env, op', project', inputs);
    var kept := Kept(p.project, used);
    assert project' * used == p.project * used;
    ShrinkingCuts(env, p.op, p.project, kept, inputs);
    CutMeets(Compute(env, op', inputs), project', used);
    CutMeets(Compute(env, p.op, inputs), project', used);
    CutMeets(Compute(env, p.op, inputs), p.project, used);
  }

  lemma {:induction false} TrimKeepsUsedColumns(env: Env, p: Plan, used: set<string>)
    requires CoveredPlan(p) && FallbackHidden(p, Some(used))
    ensures Cut(Eval(env, Trim(p, Some(used))), used) == Cut(Eval(env, p), used)
    decreases p
  {
    var need := Used(TrimOp(p, Some(used)), TrimColumns(p, Some(used)));
    TrimKeepsInputs(env, p, Some(used));
    TrimmedOperator(env, p, used, Inputs(env, p), Inputs(env, Trim(p, Some(used))));
  }

  lemma {:induction false} TrimKeepsInputs(env: Env, p: Plan, down: Option<set<string>>)
    requires CoveredPlan(p) && FallbackHidden(p, down)
    ensures var need := Used(TrimOp(p, down), TrimColumns(p, down));
            CutAll(Inputs(env, Trim(p, down)), need) == CutAll(Inputs(env, p), need)
    decreases p, 0
  {
    var need := Used(TrimOp(p, down), TrimColumns(p, down));
    forall i | 0 <= i < |p.producers|
      ensures CutAll(Inputs(env, Trim(p, down)), need)[i] == CutAll(Inputs(env, p), need)[i]
    {
      TrimKeepsUsedColumns(env, p.producers[i], need);
    }
  }

  /** Trimming a plan from its root leaves every row it produces as it was, for all tables,
      expressions, aggregates and orderings. */
  lemma TrimPreservesMeaning(env: Env, p: Plan)
    requires CoveredPlan(p) && FallbackHidden(p, None)
    ensures Eval(env, Trim(p, None)) == Eval(env, p)
  {
    TrimKeepsInputs(env, p, None);
    var inputs, inputs' := Inputs(env, p), Inputs(env, Trim(p, None));
    ReadsOnlyUsed(env, p.op, p.project, inputs);
    ReadsOnlyUsed(env, p.op, p.project, inputs');
  }

  // ---------------------------------------------------------------------------
  // When the fallback is harmless

  /** A name that the consumer uses, and that the table of a producing scan starts with, is a name that
      this scan offers. */
  predicate NamesResolve(p: Plan) {
    && (p.op.Scan? ==> p.producers == [])
    && forall i | 0 <= i < |p.producers| ::
         && NamesResolve(p.producers[i])
         && Offers(p.producers[i], Used(p.op, p.project))
  }

  predicate Offers(p: Plan, used: set<string>) {
    p.op.Scan? && p.op.firstColumn in used ==> p.op.firstColumn in p.project
  }

  /** Column names are distinct across the producers of every operator, and no operator uses a column
      that its producers have left behind. It is enough to say so of the columns a table starts with. */
  predicate DistinctNames(p: Plan) {
    && (p.op.Scan? ==> p.producers == [])
    && forall i | 0 <= i < |p.producers| ::
         && DistinctNames(p.producers[i])
         && (p.producers[i].op.Scan? ==> OneSource(p, i, p.producers[i].op.firstColumn))
  }

  /** Only producer `i` may offer the column, and if it is used somebody offers it. */
  predicate OneSource(p: Plan, i: nat, column: string) {
    && (forall j | 0 <= j < |p.producers| && column in p.producers[j].project :: j == i)
    && (column in Used(p.op, p.project) ==> exists j | 0 <= j < |p.producers| :: column in p.producers[j].project)
  }

  lemma {:induction false} DistinctNamesResolve(p: Plan)
    requires DistinctNames(p)
    ensures NamesResolve(p)
    decreases p
  {
    forall i | 0 <= i < |p.producers|
      ensures NamesResolve(p.producers[i]) && Offers(p.producers[i], Used(p.op, p.project))
    {
      DistinctNamesResolve(p.producers[i]);
    }
  }

  lemma TrimmingShrinksUsed(p: Plan, down: Option<set<string>>)
    requires Covered(p.op, p.project) && !p.op.Scan?
    ensures Used(TrimOp(p, down), TrimColumns(p, down)) <= Used(p.op, p.project)
  {
    if down.Some? && p.op.Project? {
      var kept := Kept(p.project, down.value);
      SetOpShrinks(p.op, p.project, kept);
      forall q | q in KeepPairs(p.op.pairs, kept)
        ensures q in p.op.pairs
      {
        KeptPairs(p.op.pairs, kept, q);
      }
    }
  }

  lemma {:induction false} ResolvedNamesHideFallback(p: Plan, down: Option<set<string>>)
    requires CoveredPlan(p) && NamesResolve(p) && (down.Some? ==> Offers(p, down.value))
    ensures FallbackHidden(p, down)
    decreases p
  {
    var need := Used(TrimOp(p, down), TrimColumns(p, down));
    if !p.op.Scan? {
      TrimmingShrinksUsed(p, down);
    }
    forall i | 0 <= i < |p.producers|
      ensures FallbackHidden(p.producers[i], Some(need))
    {
      ResolvedNamesHideFallback(p.producers[i], Some(need));
    }
  }

  /** A scan on its own: trimming it is invisible to a consumer, whatever the table holds, exactly
      when the fallback does not bring in a column that consumer uses. */
  lemma ScanFallbackExactly(p: Plan, used: set<string>, v: Value)
    requires p.op.Scan? && p.producers == []
    ensures (forall env: Env :: Cut(Eval(env, Trim(p, Some(used))), used) == Cut(Eval(env, p), used))
            <==> FallbackHidden(p, Some(used))
  {
    if FallbackHidden(p, Some(used)) {
      forall env: Env
        ensures Cut(Eval(env, Trim(p, Some(used))), used) == Cut(Eval(env, p), used)
      {
        TrimKeepsUsedColumns(env, p, used);
      }
    } else {
      FallbackShows(p, used, v);
    }
  }

  lemma SelectOneRow(env: Env, condition: Option<Expr>, r: Row)
    requires Holds(env, condition, r)
    ensures Select(env, condition, [r]) == [r]
  {
  }

  function OneRow(r: Row, v: Value): Env {
    Env(_ => [r], (_, _) => v, (_, _) => true, (_, _) => v, (_, _) => [])
  }

  lemma FallbackShows(p: Plan, used: set<string>, v: Value)
    requires p.op.Scan? && p.producers == [] && !FallbackHidden(p, Some(used))
    ensures exists env: Env :: Cut(Eval(env, Trim(p, Some(used))), used) != Cut(Eval(env, p), used)
  {
    var c := p.op.firstColumn;
    var row := map[c := v];
    var env := OneRow(row, v);
    SelectOneRow(env, p.op.scanCondition, row);
    assert c in p.project ==> c in Kept(p.project, used);
    assert c in Eval(env, Trim(p, Some(used)))[0];
    assert c in Cut(Eval(env, Trim(p, Some(used))), used)[0];
    assert c !in Cut(Eval(env, p), used)[0];
  }

  // ---------------------------------------------------------------------------
  // Populating

  lemma {:induction false} PopulateCovers(p: Plan)
    requires CoveredPlan(p)
    ensures CoveredPlan(Populate(p).0)
    decreases p
  {
    forall i | 0 <= i < |p.producers|
      ensures CoveredPlan(Populate(p.producers[i]).0)
    {
      PopulateCovers(p.producers[i]);
    }
    if p.project == {} {
      SetOpCovers(p.op, Reported(p, |p.producers|));
    }
  }

  /** `populateAndTrimProjectColumns`: the trimmed plan means what the populated one means. */
  lemma PopulateAndTrimPreservesMeaning(env: Env, p: Plan)
    requires CoveredPlan(p) && NamesResolve(Populate(p).0)
    ensures Eval(env, Trim(Populate(p).0, None)) == Eval(env, Populate(p).0)
  {
    PopulateCovers(p);
    ResolvedNamesHideFallback(Populate(p).0, None);
    TrimPreservesMeaning(env, Populate(p).0);
  }

  // ---------------------------------------------------------------------------
  // What is kept, and idempotence

  /** `t` offers what its consumer uses of what `p` offered, and nothing superfluous. */
  predicate Tight(t: Plan, p: Plan, used: set<string>) {
    && p.project * used <= t.project
    && (COUNT_STAR_COLUMN in used
        || (p.op.Scan? && t.project == {p.op.firstColumn})
        || forall c | c in t.project :: IsDummy(c) || c in used)
  }

  predicate TightPlan(t: Plan, p: Plan)
    decreases p
  {
    && |t.producers| == |p.producers|
    && forall i | 0 <= i < |p.producers| ::
         Tight(t.producers[i], p.producers[i], Used(t.op, t.project)) && TightPlan(t.producers[i], p.producers[i])
  }

  /** In every trimmed plan, each operator is still offered every column it uses that was offered
      before, and is offered nothing else, apart from dummy columns, what count(*) counts, and the
      one column of a scan that would otherwise scan nothing. */
  lemma {:induction false} TrimIsTight(p: Plan, down: Option<set<string>>)
    ensures TightPlan(Trim(p, down), p)
    decreases p
  {
    forall i | 0 <= i < |p.producers|
      ensures TightPlan(Trim(p, down).producers[i], p.producers[i])
    {
      TrimIsTight(p.producers[i], Some(Used(TrimOp(p, down), TrimColumns(p, down))));
    }
  }

  lemma TrimColumnsTwice(p: Plan, used: set<string>)
    ensures var t := Trim(p, Some(used));
            TrimColumns(t, Some(used)) == t.project && TrimOp(t, Some(used)) == t.op
  {
    var kept := Kept(p.project, used);
    SetOpTwice(p.op, kept);
    assert Kept(kept, used) == kept;
  }

  /** A second pass changes nothing, on any plan. */
  lemma {:induction false} TrimTwice(p: Plan, down: Option<set<string>>)
    ensures Trim(Trim(p, down), down) == Trim(p, down)
    decreases p
  {
    var t := Trim(p, down);
    if down.Some? {
      TrimColumnsTwice(p, down.value);
    }
    forall i | 0 <= i < |p.producers|
      ensures Trim(t, down).producers[i] == t.producers[i]
    {
      TrimTwice(p.producers[i], Some(Used(t.op, t.project)));
    }
  }

  // ---------------------------------------------------------------------------
  // Why names must resolve

  /** A cross join of two tables that both start with column "a", of which only the left scan
      offers "a". */
  const CLASHING := Plan(NestedLoopJoin(Inner, None), {"a"},
                         [Plan(Scan(0, "a", None), {"a"}, []), Plan(Scan(1, "a", None), {"b"}, [])])

  function TwoTables(x: Value, y: Value): Env {
    Env(t => [map["a" := if t == 0 then x else y]], (_, _) => x, (_, _) => true, (_, _) => x, (_, _) => [])
  }

  /** Trimming leaves the right scan without columns, it falls back to its "a", and the join now
      answers with the right table's value. */
  lemma FallbackCanChangeMeaning(x: Value, y: Value)
    requires x != y
    ensures Eval(TwoTables(x, y), CLASHING) == [map["a" := x]]
    ensures Eval(TwoTables(x, y), Trim(CLASHING, None)) == [map["a" := y]]
  {
    var env := TwoTables(x, y);
    ClashingIsTrimmed();
    ScanOneRow(x, y, CLASHING.producers[0], x);
    ScanOneRow(x, y, CLASHING.producers[1], y);
    ScanOneRow(x, y, CLASHING_TRIMMED.producers[1], y);
    assert Restrict(map["a" := x], {"a"}) == map["a" := x];
    assert Restrict(map["a" := y], {"a"}) == map["a" := y];
    assert Restrict(map["a" := y], {"b"}) == map[];
    var l, r, none: Row := map["a" := x], map["a" := y], map[];
    CrossOneRow(env, CLASHING, l, none);
    CrossOneRow(env, CLASHING_TRIMMED, l, r);
    assert l + none == l && l + r == r;
  }

  const CLASHING_TRIMMED := Plan(NestedLoopJoin(Inner, None), {"a"},
                                 [Plan(Scan(0, "a", None), {"a"}, []), Plan(Scan(1, "a", None), {"a"}, [])])

  lemma ClashingIsTrimmed()
    ensures Trim(CLASHING, None) == CLASHING_TRIMMED
  {
    assert Used(CLASHING.op, {"a"}) == {"a"};
    assert Kept({"a"}, {"a"}) == {"a"};
    assert "dummy"[0] != "b"[0];
    assert Kept({"b"}, {"a"}) == {};
    assert Trim(CLASHING.producers[0], Some({"a"})) == CLASHING_TRIMMED.producers[0];
    assert Trim(CLASHING.producers[1], Some({"a"})) == CLASHING_TRIMMED.producers[1];
    assert Trim(CLASHING, None).producers == CLASHING_TRIMMED.producers;
  }

  lemma ScanOneRow(x: Value, y: Value, p: Plan, v: Value)
    requires p.op.Scan? && p.op.scanCondition.None? && v == if p.op.table == 0 then x else y
    ensures Eval(TwoTables(x, y), p) == [Restrict(map["a" := v], p.project)]
  {
    SelectOneRow(TwoTables(x, y), None, map["a" := v]);
  }

  lemma CrossOneRow(env: Env, p: Plan, l: Row, r: Row)
    requires p.op == NestedLoopJoin(Inner, None) && |p.producers| == 2
    requires Eval(env, p.producers[0]) == [l] && Eval(env, p.producers[1]) == [r]
    ensures Eval(env, p) == [Restrict(l + r, p.project)]
  {
    var op := p.op;
    assert [l][1..] == [] && [r][1..] == [];
    assert Pairings(env, op, l, []) == [];
    assert Pairings(env, op, l, [r]) == [l + r];
    assert LeftRows(env, op, [], [r]) == [];
    assert LeftRows(env, op, [l], [r]) == [l + r];
    assert Inputs(env, p) == [[l], [r]];
    assert Compute(env, op, Inputs(env, p)) == [l + r];
  }
}
