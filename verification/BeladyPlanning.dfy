/** Planning with knowledge of all queries: which segments to keep after each query. */
module BeladyPlanning {
  import opened Collections
  import opened Segments
  import opened Sums

  // ---------------------------------------------------------------------------
  // When is a segment used next?

  /** `r` is the first query after `q` in `uses`, or -1 if there is none. */
  predicate IsNextUse(uses: set<nat>, q: nat, r: int) {
    if r == -1 then forall x | x in uses :: x <= q
    else r > q && (exists x | x in uses :: x == r) && forall x | x in uses && x > q :: r <= x
  }

  lemma {:induction false} NextUseExists(uses: set<nat>, q: nat) returns (r: int)
    ensures IsNextUse(uses, q, r)
    decreases uses
  {
    r := -1;
    if uses != {} {
      var x :| x in uses;
      r := NextUseExists(uses - {x}, q);
      assert forall y | y in uses :: y == x || y in uses - {x};
      if x > q && (r == -1 || x < r) {
        r := x;
      }
    }
  }

  lemma NextUseIsUnique(uses: set<nat>, q: nat, r: int, r': int)
    requires IsNextUse(uses, q, r) && IsNextUse(uses, q, r')
    ensures r == r'
  {
  }

  ghost function NextUse(uses: set<nat>, q: nat): (r: int)
    ensures IsNextUse(uses, q, r)
  {
    assert exists r :: IsNextUse(uses, q, r) by {
      var r := NextUseExists(uses, q);
    }
    var r :| IsNextUse(uses, q, r);
    r
  }

  /** The two maps of the helper say the same thing. */
  ghost predicate Inverse(queries: map<nat, set<Key>>, uses: map<Key, set<nat>>) {
    forall q, k :: (q in queries && k in queries[q]) <==> (k in uses && q in uses[k])
  }

  class BeladyCachingPolicyHelper {
    var queries: map<nat, set<Key>>
    var uses: map<Key, set<nat>>
    var currentQuery: nat

    constructor ()
      ensures queries == map[] && uses == map[] && Inverse(queries, uses)
    {
      queries, uses, currentQuery := map[], map[], 0;
    }

    method AddToSegmentQueryNumMappings(q: nat, k: Key)
      requires Inverse(queries, uses)
      modifies this`queries, this`uses
      ensures Inverse(queries, uses)
      ensures q in queries && queries[q] == {k} + if q in old(queries) then old(queries[q]) else {}
      ensures forall q' | q' != q :: (q' in queries <==> q' in old(queries)) && (q' in queries ==> queries[q'] == old(queries)[q'])
    {
      if q in queries {
        queries := queries[q := queries[q] + {k}];
      } else {
        queries := queries[q := {k}];
      }
      if k in uses {
        uses := uses[k := uses[k] + {q}];
      } else {
        uses := uses[k := {q}];
      }
    }

    /** `upper_bound` over the set of queries that use the segment; `None` is the exception. */
    method QuerySegmentNextUsedIn(k: Key, q: nat) returns (r: Option<int>)
      ensures r.None? <==> k !in uses
      ensures r.Some? ==> r.value == NextUse(uses[k], q)
    {
      if k !in uses {
        return None;
      }
      var todo, next := uses[k], -1;
      while todo != {}
        invariant todo <= uses[k] && IsNextUse(uses[k] - todo, q, next)
        decreases |todo|
      {
        var x :| x in todo;
        if x > q && (next == -1 || x < next) {
          next := x;
        }
        assert uses[k] - (todo - {x}) == uses[k] - todo + {x};
        todo := todo - {x};
      }
      assert uses[k] - todo == uses[k];
      NextUseIsUnique(uses[k], q, next, NextUse(uses[k], q));
      return Some(next);
    }
  }

  // ---------------------------------------------------------------------------
  // The order of value

  /** What the order looks at: the next use (-1 for never) and the size. */
  datatype Worth = Worth(nextUse: int, size: nat)

  /** `lessKeyValue`: less valuable means used later, or never; at equal use, smaller. */
  predicate Less(a: Worth, b: Worth) {
    if a.nextUse == b.nextUse then a.size < b.size
    else a.nextUse == -1 || (b.nextUse != -1 && b.nextUse < a.nextUse)
  }

  /** The comparison as coded, with its third branch; what would throw after it is unreachable. */
  method LessKeyValue(a: Worth, b: Worth) returns (r: bool)
    ensures r == Less(a, b)
    ensures a.nextUse == b.nextUse ==> (r <==> a.size < b.size)
    ensures a.nextUse == -1 != b.nextUse ==> r
    ensures b.nextUse == -1 != a.nextUse ==> !r
    ensures a.nextUse != b.nextUse && a.nextUse != -1 && b.nextUse != -1 ==> (r <==> a.nextUse > b.nextUse)
  {
    if a.nextUse == b.nextUse {
      r := a.size < b.size;
    } else if a.nextUse == -1 || (b.nextUse != -1 && b.nextUse < a.nextUse) {
      r := true;
    } else if b.nextUse == -1 || (a.nextUse != -1 && a.nextUse < b.nextUse) {
      r := false;
    } else {
      assert false;
    }
  }

  /** A strict weak order: what `std::sort` demands. */
  lemma LessIsStrictWeakOrder(a: Worth, b: Worth, c: Worth)
    ensures !Less(a, a)
    ensures Less(a, b) ==> !Less(b, a)
    ensures Less(a, b) && Less(b, c) ==> Less(a, c)
    ensures !Less(a, b) && !Less(b, c) ==> !Less(a, c)
  {
  }

  ghost predicate Descending(order: seq<Key>, worth: map<Key, Worth>)
    requires forall k | k in order :: k in worth
  {
    forall i, j | 0 <= i < j < |order| :: !Less(worth[order[i]], worth[order[j]])
  }

  /** `order` lists the candidates by decreasing value. */
  ghost predicate Ranks(order: seq<Key>, worth: map<Key, Worth>) {
    Distinct(order) && Elements(order) == worth.Keys && (forall k | k in order :: k in worth) && Descending(order, worth)
  }

  lemma {:induction false} MostValuableExists(keys: set<Key>, worth: map<Key, Worth>) returns (k: Key)
    requires keys != {} && keys <= worth.Keys
    ensures k in keys && forall x | x in keys :: !Less(worth[k], worth[x])
    decreases keys
  {
    k :| k in keys;
    if keys != {k} {
      var m := MostValuableExists(keys - {k}, worth);
      if Less(worth[k], worth[m]) {
        k := m;
      } else {
        forall x | x in keys
          ensures !Less(worth[k], worth[x])
        {
          LessIsStrictWeakOrder(worth[k], worth[m], worth[x]);
        }
      }
    }
  }

  /** `order` ranks all candidates but `rest`, which are worth no more. */
  ghost predicate RanksBut(order: seq<Key>, worth: map<Key, Worth>, rest: set<Key>) {
    && Distinct(order)
    && rest <= worth.Keys && Elements(order) == worth.Keys - rest
    && (forall k | k in order :: k in worth && k !in rest)
    && Descending(order, worth)
    && (forall k, x | k in order && x in rest :: !Less(worth[k], worth[x]))
  }

  lemma RanksOneMore(order: seq<Key>, worth: map<Key, Worth>, rest: set<Key>, k: Key)
    requires RanksBut(order, worth, rest)
    requires k in rest && forall x | x in rest :: !Less(worth[k], worth[x])
    ensures RanksBut(order + [k], worth, rest - {k})
  {
    var order' := order + [k];
    assert Elements(order') == Elements(order) + {k};
    assert forall x | x in order' :: x in order || x == k;
    forall i, j | 0 <= i < j < |order'|
      ensures !Less(worth[order'[i]], worth[order'[j]]) && order'[i] != order'[j]
    {
      assert order'[i] == order[i] && order[i] in order;
      assert j < |order| ==> order'[j] == order[j];
    }
  }

  /** Sorting, then reversing; ties may end up in any order. */
  method SortDescending(worth: map<Key, Worth>) returns (order: seq<Key>)
    ensures Ranks(order, worth)
  {
    order := [];
    var rest := worth.Keys;
    while rest != {}
      invariant RanksBut(order, worth, rest)
      decreases |rest|
    {
      ghost var best := MostValuableExists(rest, worth);
      var k :| k in rest && forall x | x in rest :: !Less(worth[k], worth[x]);
      RanksOneMore(order, worth, rest, k);
      order := order + [k];
      rest := rest - {k};
    }
  }

  // ---------------------------------------------------------------------------
  // Greedy choice

  /** The loop over the ranked candidates: keep what is used again and fits strictly. */
  ghost function Chosen(order: seq<Key>, worth: map<Key, Worth>, room: int): set<Key>
    requires forall k | k in order :: k in worth
  {
    if order == [] then {}
    else
      var k := order[0];
      if worth[k].size < room && worth[k].nextUse != -1
      then {k} + Chosen(order[1..], worth, room - worth[k].size)
      else Chosen(order[1..], worth, room)
  }

  ghost function SizeOf(worth: map<Key, Worth>): Key -> nat {
    k => if k in worth then worth[k].size else 0
  }

  lemma {:induction false} ChosenFits(order: seq<Key>, worth: map<Key, Worth>, room: nat)
    requires (forall k | k in order :: k in worth) && Distinct(order)
    ensures Chosen(order, worth, room) <= Elements(order)
    ensures forall k | k in Chosen(order, worth, room) :: k in worth && worth[k].nextUse != -1
    ensures Sum(Chosen(order, worth, room), SizeOf(worth)) <= room
    ensures Chosen(order, worth, room) != {} ==> Sum(Chosen(order, worth, room), SizeOf(worth)) < room
    decreases |order|
  {
    if order != [] {
      var k, rest := order[0], order[1..];
      var room' := if worth[k].size < room && worth[k].nextUse != -1 then room - worth[k].size else room;
      ChosenFits(rest, worth, room');
      assert forall x | x in rest :: x in order;
      assert k !in rest;
      SumAdd(Chosen(rest, worth, room'), k, SizeOf(worth));
      assert {k} + Chosen(rest, worth, room') == Chosen(rest, worth, room') + {k};
    }
  }

  /** A candidate that is used again and was not chosen did not fit into the room left by the
      chosen candidates ranked above it. */
  lemma {:induction false} RejectedDidNotFit(order: seq<Key>, worth: map<Key, Worth>, room: nat, i: nat)
    requires (forall k | k in order :: k in worth) && Distinct(order)
    requires i < |order| && worth[order[i]].nextUse != -1 && order[i] !in Chosen(order, worth, room)
    ensures worth[order[i]].size + Sum(Chosen(order, worth, room) * Elements(order[..i]), SizeOf(worth)) >= room
    decreases |order|
  {
    var k, rest := order[0], order[1..];
    var chosen := Chosen(order, worth, room);
    if i == 0 {
      assert chosen * Elements(order[..0]) == {};
    } else {
      var keeps := worth[k].size < room && worth[k].nextUse != -1;
      var room' := if keeps then room - worth[k].size else room;
      var chosen' := Chosen(rest, worth, room');
      var above' := chosen' * Elements(rest[..i - 1]);
      assert rest[i - 1] == order[i];
      assert chosen == if keeps then {k} + chosen' else chosen';
      RejectedDidNotFit(rest, worth, room', i - 1);
      ChosenFits(rest, worth, room');
      assert k !in rest && order[..i] == [k] + rest[..i - 1];
      ChosenAbove(k, rest, chosen', i - 1);
      if keeps {
        SumAdd(above', k, SizeOf(worth));
      }
    }
  }

  lemma ChosenAbove(k: Key, rest: seq<Key>, chosen: set<Key>, n: nat)
    requires k !in rest && chosen <= Elements(rest) && n <= |rest|
    ensures ({k} + chosen) * Elements([k] + rest[..n]) == chosen * Elements(rest[..n]) + {k}
    ensures chosen * Elements([k] + rest[..n]) == chosen * Elements(rest[..n])
  {
  }

  lemma {:induction false} ChosenIsSmaller(order: seq<Key>, worth: map<Key, Worth>, room: nat, k: Key)
    requires (forall x | x in order :: x in worth) && k in Chosen(order, worth, room)
    ensures k in order && worth[k].size < room
    decreases |order|
  {
    var head, rest := order[0], order[1..];
    assert order == [head] + rest;
    if !(k == head && worth[k].size < room && worth[k].nextUse != -1) {
      ChosenIsSmaller(rest, worth, if worth[head].size < room && worth[head].nextUse != -1 then room - worth[head].size else room, k);
    }
  }

  /** A candidate that is used again and was passed over is larger than every one chosen after it. */
  lemma {:induction false} PassedOverIsLarger(order: seq<Key>, worth: map<Key, Worth>, room: nat, i: nat, j: nat)
    requires (forall k | k in order :: k in worth) && Distinct(order) && i < j < |order|
    requires worth[order[i]].nextUse != -1 && order[i] !in Chosen(order, worth, room) && order[j] in Chosen(order, worth, room)
    ensures worth[order[i]].size > worth[order[j]].size
    decreases |order|
  {
    var head, rest := order[0], order[1..];
    var keeps := worth[head].size < room && worth[head].nextUse != -1;
    var room' := if keeps then room - worth[head].size else room;
    assert rest[j - 1] == order[j] && order[j] != head;
    assert order[j] in Chosen(rest, worth, room');
    if i == 0 {
      ChosenIsSmaller(rest, worth, room', order[j]);
    } else {
      assert rest[i - 1] == order[i];
      PassedOverIsLarger(rest, worth, room', i - 1, j - 1);
    }
  }

  /** A chosen candidate is used no later than one that was passed over, is used again and is no larger. */
  lemma ChosenIsUsedNoLater(order: seq<Key>, worth: map<Key, Worth>, room: nat, p: Key, k: Key)
    requires Ranks(order, worth) && p in Chosen(order, worth, room)
    requires k in order && k !in Chosen(order, worth, room) && worth[k].nextUse != -1
    ensures p in worth && (worth[k].size <= worth[p].size ==> -1 != worth[p].nextUse <= worth[k].nextUse)
  {
    ChosenFits(order, worth, room);
    var i :| 0 <= i < |order| && order[i] == k;
    var j :| 0 <= j < |order| && order[j] == p;
    if i < j {
      PassedOverIsLarger(order, worth, room, i, j);
    } else {
      assert !Less(worth[order[j]], worth[order[i]]);
    }
  }
}
