/** The two operator directories of the executor: the one every operator keeps about its
    neighbours, and the one the root keeps about all operators.  Both answer "is everyone
    complete?" from counters; the lemmas here show when the counters tell the truth.
 */
module Directories {
  import opened Collections

  /** Operator names; only their equality matters. */
  type OpName(==, !new)

  datatype Relationship = Producer | Consumer

  datatype Entry = Entry(relationship: Relationship, complete: bool)

  /** `tl::expected<void, std::string>`, with the error texts reduced to their kinds. */
  datatype Outcome = Ok | AlreadyAdded | NoEntry | CompletesTwice

  ghost function NamesIn<Name>(entries: map<Name, Entry>, kind: Relationship): set<Name> {
    set name | name in entries && entries[name].relationship == kind
  }

  ghost function CompleteNamesIn<Name>(entries: map<Name, Entry>, kind: Relationship): set<Name> {
    set name | name in NamesIn(entries, kind) && entries[name].complete
  }

  /** The fields of a `LocalPOpDirectory`. */
  datatype LocalDirectory = LocalDirectory(
    entries: map<OpName, Entry>,
    numProducers: int,
    numConsumers: int,
    numProducersComplete: int,
    numConsumersComplete: int)
  {
    ghost function Names(kind: Relationship): set<OpName> {
      NamesIn(entries, kind)
    }

    ghost function CompleteNames(kind: Relationship): set<OpName> {
      CompleteNamesIn(entries, kind)
    }

    /** The counters are the sizes of the sets they stand for. */
    ghost predicate Consistent() {
      && numProducers == |Names(Producer)|
      && numConsumers == |Names(Consumer)|
      && numProducersComplete == |CompleteNames(Producer)|
      && numConsumersComplete == |CompleteNames(Consumer)|
    }

    function Insert(name: OpName, entry: Entry): LocalDirectory {
      if name in entries then this
      else if entry.relationship.Producer? then
        this.(entries := entries[name := entry], numProducers := numProducers + 1)
      else
        this.(entries := entries[name := entry], numConsumers := numConsumers + 1)
    }

    function InsertOutcome(name: OpName): Outcome {
      if name in entries then AlreadyAdded else Ok
    }

    function SetComplete(name: OpName): LocalDirectory {
      if SetCompleteOutcome(name) != Ok then this
      else
        var entries' := Marked(entries, name);
        if entries[name].relationship.Producer? then
          this.(entries := entries', numProducersComplete := numProducersComplete + 1)
        else
          this.(entries := entries', numConsumersComplete := numConsumersComplete + 1)
    }

    function SetCompleteOutcome(name: OpName): Outcome {
      if name !in entries then NoEntry
      else if entries[name].complete then CompletesTwice
      else Ok
    }

    predicate AllComplete(kind: Relationship) {
      match kind
      case Producer => numProducersComplete >= numProducers
      case Consumer => numConsumersComplete >= numConsumers
    }
  }

  const EMPTY_LOCAL := LocalDirectory(map[], 0, 0, 0, 0)

  lemma EmptyLocalIsConsistent()
    ensures EMPTY_LOCAL.Consistent()
  {
  }

  /** Inserting a new entry keeps the counters honest exactly when the entry arrives
      incomplete: `insert` never touches the two "complete" counters. */
  lemma InsertKeepsConsistent(d: LocalDirectory, name: OpName, entry: Entry)
    requires d.Consistent()
    ensures d.Insert(name, entry).Consistent() <==> name in d.entries || !entry.complete
  {
    if name !in d.entries {
      InsertGrowsNames(d, name, entry, Producer);
      InsertGrowsNames(d, name, entry, Consumer);
    }
  }

  lemma InsertGrowsNames(d: LocalDirectory, name: OpName, entry: Entry, kind: Relationship)
    requires name !in d.entries
    ensures |d.Insert(name, entry).Names(kind)| ==
            |d.Names(kind)| + if entry.relationship == kind then 1 else 0
    ensures |d.Insert(name, entry).CompleteNames(kind)| ==
            |d.CompleteNames(kind)| + if entry.relationship == kind && entry.complete then 1 else 0
  {
    NamesGrow(d.entries, name, entry, kind);
    CompleteNamesGrow(d.entries, name, entry, kind);
  }

  lemma NamesGrow<Name>(entries: map<Name, Entry>, name: Name, entry: Entry, kind: Relationship)
    requires name !in entries
    ensures |NamesIn(entries[name := entry], kind)| ==
            |NamesIn(entries, kind)| + if entry.relationship == kind then 1 else 0
  {
    if entry.relationship == kind {
      assert NamesIn(entries[name := entry], kind) == NamesIn(entries, kind) + {name};
    } else {
      assert NamesIn(entries[name := entry], kind) == NamesIn(entries, kind);
    }
  }

  lemma CompleteNamesGrow<Name>(entries: map<Name, Entry>, name: Name, entry: Entry, kind: Relationship)
    requires name !in entries
    ensures |CompleteNamesIn(entries[name := entry], kind)| ==
            |CompleteNamesIn(entries, kind)| + if entry.relationship == kind && entry.complete then 1 else 0
  {
    if entry.relationship == kind && entry.complete {
      assert CompleteNamesIn(entries[name := entry], kind) == CompleteNamesIn(entries, kind) + {name};
    } else {
      assert CompleteNamesIn(entries[name := entry], kind) == CompleteNamesIn(entries, kind);
    }
  }

  lemma SetCompleteKeepsConsistent(d: LocalDirectory, name: OpName)
    requires d.Consistent()
    ensures d.SetComplete(name).Consistent()
  {
    if d.SetCompleteOutcome(name) == Ok {
      MarkingKeepsNames(d.entries, name, Producer);
      MarkingKeepsNames(d.entries, name, Consumer);
      MarkingGrowsCompleteNames(d.entries, name, Producer);
      MarkingGrowsCompleteNames(d.entries, name, Consumer);
    }
  }

  function Marked<Name>(entries: map<Name, Entry>, name: Name): map<Name, Entry>
    requires name in entries
  {
    entries[name := entries[name].(complete := true)]
  }

  lemma MarkingKeepsNames<Name>(entries: map<Name, Entry>, name: Name, kind: Relationship)
    requires name in entries
    ensures NamesIn(Marked(entries, name), kind) == NamesIn(entries, kind)
  {
  }

  lemma MarkingGrowsCompleteNames<Name>(entries: map<Name, Entry>, name: Name, kind: Relationship)
    requires name in entries && !entries[name].complete
    ensures |CompleteNamesIn(Marked(entries, name), kind)| ==
            |CompleteNamesIn(entries, kind)| + if entries[name].relationship == kind then 1 else 0
  {
    MarkingKeepsNames(entries, name, kind);
    if entries[name].relationship == kind {
      assert CompleteNamesIn(Marked(entries, name), kind) == CompleteNamesIn(entries, kind) + {name};
    } else {
      assert CompleteNamesIn(Marked(entries, name), kind) == CompleteNamesIn(entries, kind);
    }
  }

  /** The counter comparison in `allComplete` is the quantified statement. */
  lemma AllCompleteIsForall(d: LocalDirectory, kind: Relationship)
    requires d.Consistent()
    ensures d.AllComplete(kind) <==>
            forall name | name in d.entries && d.entries[name].relationship == kind ::
              d.entries[name].complete
  {
    assert d.CompleteNames(kind) <= d.Names(kind);
    if d.AllComplete(kind) {
      SubsetOfSameSize(d.CompleteNames(kind), d.Names(kind));
      forall name | name in d.entries && d.entries[name].relationship == kind
        ensures d.entries[name].complete
      {
        assert name in d.Names(kind);
      }
    }
    if forall name | name in d.entries && d.entries[name].relationship == kind :: d.entries[name].complete {
      assert d.CompleteNames(kind) == d.Names(kind);
    }
  }

  /** What the actor does to a local directory over its life. */
  datatype LocalEvent = Inserted(name: OpName, kind: Relationship) | Completed(sender: OpName)

  function LocalAfter(events: seq<LocalEvent>): LocalDirectory {
    if events == [] then EMPTY_LOCAL
    else
      var before := LocalAfter(events[..|events| - 1]);
      match events[|events| - 1]
      case Inserted(name, kind) => before.Insert(name, Entry(kind, false))
      case Completed(sender) => before.SetComplete(sender)
  }

  /** After any history of inserts and completions, successful or failing, in any order,
      `allComplete` answers the quantified question. */
  lemma {:induction false} LocalCountersRefineForall(events: seq<LocalEvent>)
    ensures LocalAfter(events).Consistent()
    ensures forall kind :: LocalAfter(events).AllComplete(kind) <==>
              forall name | name in LocalAfter(events).entries
                         && LocalAfter(events).entries[name].relationship == kind ::
                LocalAfter(events).entries[name].complete
  {
    if events == [] {
      EmptyLocalIsConsistent();
    } else {
      var last := events[|events| - 1];
      LocalCountersRefineForall(events[..|events| - 1]);
      var before := LocalAfter(events[..|events| - 1]);
      match last
      case Inserted(name, kind) => InsertKeepsConsistent(before, name, Entry(kind, false));
      case Completed(sender) => SetCompleteKeepsConsistent(before, sender);
    }
    AllCompleteIsForall(LocalAfter(events), Producer);
    AllCompleteIsForall(LocalAfter(events), Consumer);
  }

  /** `LocalPOpDirectory`: an entry map and four counters, updated in place. */
  class LocalPOpDirectory {
    var entries: map<OpName, Entry>
    var numProducers: int
    var numConsumers: int
    var numProducersComplete: int
    var numConsumersComplete: int

    function Snapshot(): LocalDirectory
      reads this
    {
      LocalDirectory(entries, numProducers, numConsumers, numProducersComplete, numConsumersComplete)
    }

    ghost predicate Valid()
      reads this
    {
      Snapshot().Consistent()
    }

    constructor ()
      ensures Valid() && Snapshot() == EMPTY_LOCAL
    {
      entries := map[];
      numProducers, numConsumers, numProducersComplete, numConsumersComplete := 0, 0, 0, 0;
      new;
      EmptyLocalIsConsistent();
    }

    method Insert(name: OpName, entry: Entry) returns (r: Outcome)
      modifies this
      ensures Snapshot() == old(Snapshot()).Insert(name, entry)
      ensures r == if name in old(entries) then AlreadyAdded else Ok
      ensures entries == if name in old(entries) then old(entries) else old(entries)[name := entry]
      ensures old(Valid()) && !entry.complete ==> Valid()
    {
      InsertKeepsConsistentIf(Snapshot(), name, entry);
      if name in entries {
        return AlreadyAdded;
      }
      entries := entries[name := entry];
      if entry.relationship == Producer {
        numProducers := numProducers + 1;
      } else {
        numConsumers := numConsumers + 1;
      }
      return Ok;
    }

    method SetComplete(name: OpName) returns (r: Outcome)
      requires Valid()
      modifies this
      ensures Valid()
      ensures Snapshot() == old(Snapshot()).SetComplete(name)
      ensures r == if name !in old(entries) then NoEntry else if old(entries)[name].complete then CompletesTwice else Ok
      ensures entries == if r == Ok then old(entries)[name := Entry(old(entries)[name].relationship, true)] else old(entries)
    {
      SetCompleteKeepsConsistent(Snapshot(), name);
      if name !in entries {
        return NoEntry;
      }
      if entries[name].complete {
        return CompletesTwice;
      }
      entries := Marked(entries, name);
      if entries[name].relationship == Producer {
        numProducersComplete := numProducersComplete + 1;
      } else {
        numConsumersComplete := numConsumersComplete + 1;
      }
      return Ok;
    }

    method AllComplete(kind: Relationship) returns (r: bool)
      requires Valid()
      ensures r <==> forall name | name in entries && entries[name].relationship == kind :: entries[name].complete
    {
      AllCompleteIsForall(Snapshot(), kind);
      if kind == Producer {
        r := numProducersComplete >= numProducers;
      } else {
        r := numConsumersComplete >= numConsumers;
      }
    }
  }

  lemma InsertKeepsConsistentIf(d: LocalDirectory, name: OpName, entry: Entry)
    ensures d.Consistent() && !entry.complete ==> d.Insert(name, entry).Consistent()
  {
    if d.Consistent() {
      InsertKeepsConsistent(d, name, entry);
    }
  }

  // ---------------------------------------------------------------------------
  // The root's directory

  /** The fields of a `POpDirectory`: for each operator whether it completed, and two counters. */
  datatype OpDirectory = OpDirectory(complete: map<OpName, bool>, numOperators: int, numOperatorsComplete: int)
  {
    ghost function CompleteOps(): set<OpName> {
      set name | name in complete && complete[name]
    }

    ghost predicate Consistent() {
      numOperators == |complete.Keys| && numOperatorsComplete == |CompleteOps()|
    }

    function Insert(name: OpName): OpDirectory {
      if name in complete then this
      else OpDirectory(complete[name := false], numOperators + 1, numOperatorsComplete)
    }

    function SetCompleteOutcome(name: OpName): Outcome {
      if name !in complete then NoEntry else if complete[name] then CompletesTwice else Ok
    }

    function SetComplete(name: OpName): OpDirectory {
      if SetCompleteOutcome(name) != Ok then this
      else OpDirectory(complete[name := true], numOperators, numOperatorsComplete + 1)
    }

    /** `setIncomplete` clears the flags but not the counter. */
    function SetIncomplete(): OpDirectory {
      this.(complete := map name | name in complete :: false)
    }

    predicate AllComplete() {
      numOperatorsComplete >= numOperators
    }
  }

  const EMPTY_ROOT := OpDirectory(map[], 0, 0)

  lemma RootInsertKeepsConsistent(d: OpDirectory, name: OpName)
    requires d.Consistent()
    ensures d.Insert(name).Consistent()
  {
    if name !in d.complete {
      assert d.Insert(name).complete.Keys == d.complete.Keys + {name};
      assert d.Insert(name).CompleteOps() == d.CompleteOps();
    }
  }

  lemma RootSetCompleteKeepsConsistent(d: OpDirectory, name: OpName)
    requires d.Consistent()
    ensures d.SetComplete(name).Consistent()
  {
    if d.SetCompleteOutcome(name) == Ok {
      assert d.SetComplete(name).complete.Keys == d.complete.Keys;
      assert d.SetComplete(name).CompleteOps() == d.CompleteOps() + {name};
    }
  }

  /** Restarting a directory in which some operator already completed leaves the counter
      behind: the reset is sound exactly when nothing had completed. */
  lemma SetIncompleteKeepsConsistent(d: OpDirectory)
    requires d.Consistent()
    ensures d.SetIncomplete().Consistent() <==> d.numOperatorsComplete == 0
  {
    assert d.SetIncomplete().complete.Keys == d.complete.Keys;
    assert d.SetIncomplete().CompleteOps() == {};
  }

  /** Restarted after its only operator completed, the root takes it for complete. */
  lemma RestartMiscounts(name: OpName)
    ensures var d := EMPTY_ROOT.Insert(name).SetComplete(name);
            d.SetIncomplete().AllComplete() && !d.SetIncomplete().complete[name]
  {
  }

  lemma RootAllCompleteIsForall(d: OpDirectory)
    requires d.Consistent()
    ensures d.AllComplete() <==> forall name | name in d.complete :: d.complete[name]
  {
    assert d.CompleteOps() <= d.complete.Keys;
    if d.AllComplete() {
      SubsetOfSameSize(d.CompleteOps(), d.complete.Keys);
      forall name | name in d.complete
        ensures d.complete[name]
      {
        assert name in d.complete.Keys;
      }
    }
    if forall name | name in d.complete :: d.complete[name] {
      assert d.CompleteOps() == d.complete.Keys;
    }
  }

  /** `POpDirectory`: updated in place by the root. */
  class POpDirectory {
    var complete: map<OpName, bool>
    var numOperators: int
    var numOperatorsComplete: int

    function Snapshot(): OpDirectory
      reads this
    {
      OpDirectory(complete, numOperators, numOperatorsComplete)
    }

    ghost predicate Valid()
      reads this
    {
      Snapshot().Consistent()
    }

    constructor ()
      ensures Valid() && Snapshot() == EMPTY_ROOT
    {
      complete, numOperators, numOperatorsComplete := map[], 0, 0;
      new;
      assert Snapshot().CompleteOps() == {};
    }

    method Insert(name: OpName) returns (r: Outcome)
      requires Valid()
      modifies this
      ensures Valid()
      ensures Snapshot() == old(Snapshot()).Insert(name)
      ensures r == if name in old(complete) then AlreadyAdded else Ok
      ensures complete == if name in old(complete) then old(complete) else old(complete)[name := false]
    {
      RootInsertKeepsConsistent(Snapshot(), name);
      if name in complete {
        return AlreadyAdded;
      }
      complete := complete[name := false];
      numOperators := numOperators + 1;
      return Ok;
    }

    method SetComplete(name: OpName) returns (r: Outcome)
      requires Valid()
      modifies this
      ensures Valid()
      ensures Snapshot() == old(Snapshot()).SetComplete(name)
      ensures r == if name !in old(complete) then NoEntry else if old(complete)[name] then CompletesTwice else Ok
      ensures complete == if r == Ok then old(complete)[name := true] else old(complete)
    {
      RootSetCompleteKeepsConsistent(Snapshot(), name);
      if name !in complete {
        return NoEntry;
      }
      if complete[name] {
        return CompletesTwice;
      }
      complete := complete[name := true];
      numOperatorsComplete := numOperatorsComplete + 1;
      return Ok;
    }

    method SetIncomplete()
      requires Valid()
      modifies this
      ensures Snapshot() == old(Snapshot()).SetIncomplete()
      ensures complete.Keys == old(complete).Keys && forall name | name in complete :: !complete[name]
      ensures Valid() <==> old(numOperatorsComplete) == 0
    {
      SetIncompleteKeepsConsistent(Snapshot());
      var names := complete.Keys;
      ghost var before := complete;
      while names != {}
        invariant names <= complete.Keys == before.Keys
        invariant forall name | name in complete && name !in names :: !complete[name]
        invariant numOperators == old(numOperators) && numOperatorsComplete == old(numOperatorsComplete)
        decreases |names|
      {
        var name :| name in names;
        complete := complete[name := false];
        names := names - {name};
      }
      assert complete == old(Snapshot()).SetIncomplete().complete;
    }

    method AllComplete() returns (r: bool)
      requires Valid()
      ensures r <==> forall name | name in complete :: complete[name]
    {
      RootAllCompleteIsForall(Snapshot());
      r := numOperatorsComplete >= numOperators;
    }
  }
}
