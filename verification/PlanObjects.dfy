/** The two passes as the code performs them: recursive methods over a tree of operator objects,
    each updating its own project columns in place. */
module PlanObjects {
  import opened Collections
  import opened StringOrder
  import opened Plans
  import opened PopulateCorrectness

  /** The loop that drops project columns the consumer does not use. */
  method EraseUnused(project: set<string>, used: set<string>) returns (kept: set<string>)
    ensures kept == Kept(project, used)
  {
    kept := project;
    if COUNT_STAR_COLUMN !in used {
      var todo := project;
      while todo != {}
        invariant todo <= kept <= project
        invariant forall c | c in project && c !in todo :: c in kept <==> IsDummy(c) || c in used
        decreases |todo|
      {
        var c :| c in todo;
        if !IsDummy(c) && c !in used {
          kept := kept - {c};
        }
        todo := todo - {c};
      }
    }
  }

  /** The loop that erases pairs whose output is no longer projected. */
  method ErasePairs(pairs: seq<(string, string)>, project: set<string>) returns (kept: seq<(string, string)>)
    ensures kept == KeepPairs(pairs, project)
  {
    kept := [];
    for i := 0 to |pairs|
      invariant kept + KeepPairs(pairs[i..], project) == KeepPairs(pairs, project)
    {
      assert pairs[i..][0] == pairs[i] && pairs[i..][1..] == pairs[i + 1..];
      if pairs[i].1 in project {
        assert kept + ([pairs[i]] + KeepPairs(pairs[i + 1..], project)) == kept + [pairs[i]] + KeepPairs(pairs[i + 1..], project);
        kept := kept + [pairs[i]];
      }
    }
  }

  /** The loop that gives every column nobody produces an identity pair. */
  method AddPairs(pairs: seq<(string, string)>, columns: seq<string>) returns (all: seq<(string, string)>)
    ensures all == pairs + Identities(columns)
  {
    all := pairs;
    for i := 0 to |columns|
      invariant all == pairs + Identities(columns[..i])
    {
      assert Identities(columns[..i + 1]) == Identities(columns[..i]) + [(columns[i], columns[i])];
      all := all + [(columns[i], columns[i])];
    }
    assert columns[..|columns|] == columns;
  }

  class PrePhysicalOp {
    const producers: seq<PrePhysicalOp>
    ghost const footprint: set<PrePhysicalOp>
    var op: Operator
    var project: set<string>

    /** The objects below form a tree. */
    ghost predicate Tree()
      decreases footprint
    {
      && this in footprint
      && (forall i | 0 <= i < |producers| ::
            producers[i].footprint < footprint && this !in producers[i].footprint && producers[i].Tree())
      && (forall i, j | 0 <= i < j < |producers| :: producers[i].footprint !! producers[j].footprint)
    }

    ghost function Abs(): Plan
      requires Tree()
      reads footprint
      decreases footprint, |producers| + 1
    {
      Plan(op, project, AbsUpTo(|producers|))
    }

    ghost function AbsUpTo(n: nat): (plans: seq<Plan>)
      requires Tree() && n <= |producers|
      reads footprint
      ensures |plans| == n && forall i | 0 <= i < n :: plans[i] == producers[i].Abs()
      decreases footprint, n
    {
      if n == 0 then [] else AbsUpTo(n - 1) + [producers[n - 1].Abs()]
    }

    constructor (op: Operator, producers: seq<PrePhysicalOp>)
      requires forall i | 0 <= i < |producers| :: producers[i].Tree()
      requires forall i, j | 0 <= i < j < |producers| :: producers[i].footprint !! producers[j].footprint
      ensures Tree() && this.op == op && project == {} && this.producers == producers
    {
      this.op, this.project, this.producers := op, {}, producers;
      footprint := {this} + (set i, o | 0 <= i < |producers| && o in producers[i].footprint :: o);
    }

    method SetProjectColumnNames(columns: set<string>)
      modifies this
      ensures op == SetOp(old(op), columns) && project == SetColumns(old(op), columns)
    {
      if op.Project? {
        var added := Sorted(Missing(op, columns));
        var all := AddPairs(op.pairs, added);
        var kept := ErasePairs(all, columns);
        op := op.(pairs := kept);
      }
      if op.Scan? && columns == {} {
        project := {op.firstColumn};
      } else {
        project := columns;
      }
    }

    method TrimProjectColumns(down: Option<set<string>>)
      requires Tree()
      modifies footprint
      ensures Abs() == Trim(old(Abs()), down)
      decreases footprint
    {
      if down.Some? {
        var kept := EraseUnused(project, down.value);
        SetProjectColumnNames(kept);
      }
      var used := Used(op, project);
      TrimProducers(used);
    }

    method TrimProducers(used: set<string>)
      requires Tree()
      modifies footprint - {this}
      ensures op == old(op) && project == old(project)
      ensures forall i | 0 <= i < |producers| :: producers[i].Abs() == Trim(old(producers[i].Abs()), Some(used))
      decreases footprint, 0
    {
      ghost var before := Abs();
      for i := 0 to |producers|
        invariant op == old(op) && project == old(project)
        invariant forall j | 0 <= j < i :: producers[j].Abs() == Trim(before.producers[j], Some(used))
        invariant forall j | i <= j < |producers| :: producers[j].Abs() == before.producers[j]
      {
        producers[i].TrimProjectColumns(Some(used));
      }
    }

    method PopulateProjectColumns() returns (columns: set<string>)
      requires Tree()
      modifies footprint
      ensures Abs() == Populate(old(Abs())).0 && columns == Populate(old(Abs())).1
      ensures PopulatedFrom(old(Abs()), Abs()) && columns == Offered(old(Abs()), Abs())
      decreases footprint
    {
      PopulateExactly(Abs());
      var up := PopulateProducers();
      ghost var before := old(Abs());
      if project == {} {
        SetProjectColumnNames(up);
        columns := up;
      } else {
        columns := project;
      }
      assert Abs().producers == Populate(before).0.producers;
    }

    method PopulateProducers() returns (up: set<string>)
      requires Tree()
      modifies footprint - {this}
      ensures op == old(op) && project == old(project)
      ensures forall i | 0 <= i < |producers| :: producers[i].Abs() == Populate(old(producers[i].Abs())).0
      ensures up == Reported(old(Abs()), |producers|)
      decreases footprint, 1
    {
      up := {};
      ghost var before := Abs();
      for i := 0 to |producers|
        invariant op == old(op) && project == old(project)
        invariant forall j | 0 <= j < i :: producers[j].Abs() == Populate(before.producers[j]).0
        invariant forall j | i <= j < |producers| :: producers[j].Abs() == before.producers[j]
        invariant up == Reported(before, i)
      {
        var columns := PopulateProducer(i);
        up := up + columns;
      }
    }

    method PopulateProducer(i: nat) returns (columns: set<string>)
      requires Tree() && i < |producers|
      modifies footprint - {this}
      ensures op == old(op) && project == old(project)
      ensures producers[i].Abs() == Populate(old(producers[i].Abs())).0 && columns == Populate(old(producers[i].Abs())).1
      ensures forall j | 0 <= j < |producers| && j != i :: producers[j].Abs() == old(producers[j].Abs())
      decreases footprint, 0
    {
      columns := producers[i].PopulateProjectColumns();
    }

    /** Both passes, from the root of a plan. */
    method PopulateAndTrimProjectColumns()
      requires Tree()
      modifies footprint
      ensures exists populated :: PopulatedFrom(old(Abs()), populated) && Abs() == Trim(populated, None)
    {
      var _ := PopulateProjectColumns();
      ghost var populated := Abs();
      TrimProjectColumns(None);
      assert PopulatedFrom(old(Abs()), populated) && Abs() == Trim(populated, None);
    }
  }
}
